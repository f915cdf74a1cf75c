/** `EventClaimsService`: the idempotent initiation of a claim, the saga run
    over the ledger and the event collection, inventory compensation, the
    error fallback and the per-user query. Each method is proved to compute
    the pure definitions of `ClaimSaga` and of this module. */
module ClaimService {
  import opened Wrappers
  import opened JsStrings
  import opened Paging
  import opened RewardSchema
  import opened EventSchema
  import opened ClaimSchema
  import opened EventStore
  import opened ClaimLedger
  import opened ClaimSaga

  /** The outcome of inserting the new record: written; refused by the unique
      index because a concurrent initiation with the same key won (with the
      record the second lookup then finds, if any); or failed otherwise. */
  datatype InsertOutcome = Inserted | DuplicateKey(found: Option<ClaimRequest>) | WriteFailed

  /** One PENDING entry for a reward of the event. */
  function PendingEntry(r: Reward): ProcessedReward {
    ProcessedReward(r, PENDING, None, None)
  }

  /** The record `initiateClaim` creates: PENDING_VALIDATION at step S0, a
      snapshot of the event, and one PENDING entry per event reward, in the
      event's order. */
  function NewRequest(key: RequestId, userId: UserId, eventId: EventId, ev: Event): (r: ClaimRequest)
    ensures r.requestId == key && r.userId == userId && r.eventId == eventId
    ensures r.status == PENDING_VALIDATION && r.currentSagaStep == Some(S0_REQUEST_INITIALIZED)
    ensures r.eventSnapshot == Some(EventSnapshot(ev.eventName, Some(ev.conditions), ev.rewards))
    ensures |r.rewardsToProcess| == |ev.rewards|
    ensures forall j :: 0 <= j < |ev.rewards| ==>
              r.rewardsToProcess[j].rewardDetailsSnapshot == ev.rewards[j]
              && r.rewardsToProcess[j].grantStatus == PENDING
              && r.rewardsToProcess[j].failureReason.None? && r.rewardsToProcess[j].processedAt.None?
    ensures r.processedRewards == [] && r.retryCount == 0 && r.failureReason.None? && r.rewardsGrantedAt.None?
  {
    NewClaimRequest(key, userId, eventId).(
      eventSnapshot := Some(EventSnapshot(ev.eventName, Some(ev.conditions), ev.rewards)),
      status := PENDING_VALIDATION,
      currentSagaStep := Some(S0_REQUEST_INITIALIZED),
      rewardsToProcess := seq(|ev.rewards|, j requires 0 <= j < |ev.rewards| => PendingEntry(ev.rewards[j])))
  }

  /** The answer of `initiateClaim` and the ledger and collection after it. */
  datatype Initiation = Initiation(result: Result<ClaimRequest, HttpError>, records: Records, events: Events)

  /** `initiateClaim`: an existing record for the key is returned as it is;
      otherwise the event id must be well formed and the event must exist, and
      the new record is inserted and run through the saga. The returned record
      is the one re-read after the run. */
  function Initiate(records: Records, events: Events, userId: UserId, eventId: EventId, key: RequestId,
                    isValidId: string -> bool, insert: InsertOutcome, c: Collaborators, now: int): Initiation
  {
    if key in records then Initiation(Success(records[key]), records, events)
    else if !isValidId(eventId) then Initiation(Failure(BadRequest), records, events)
    else if eventId !in events then Initiation(Failure(NotFound), records, events)
    else match insert
      case WriteFailed => Initiation(Failure(InternalServerError), records, events)
      case DuplicateKey(found) =>
        if found.None? then Initiation(Failure(InternalServerError), records, events)
        else Initiation(Success(found.value), records, events)
      case Inserted =>
        var req := NewRequest(key, userId, eventId, events[eventId]);
        var stored := records[key := req];
        var o := Saga(req, stored, events, c, now);
        Initiation(Success(o.req), stored[key := o.req], o.events)
  }

  /** The outer `catch` of `initiateClaim`, which would apply if the saga's own
      fallback threw: a re-read record with neither a SUCCESS_ nor a FAILED_
      prefix that is not already awaiting intervention is forced there without
      touching its step; when the record cannot be re-read, the inserted copy
      is forced there unconditionally. `None` means nothing is written. */
  function RecoverAfterInitiation(reread: Option<ClaimRequest>, inserted: ClaimRequest, message: string): (r: Option<ClaimRequest>)
  {
    match reread
    case None =>
      Some(inserted.(status := COMPENSATION_FAILED_MANUAL_INTERVENTION_REQUIRED,
                     failureReason := Some("unhandled saga error (record not found after the error): " + message)))
    case Some(f) =>
      if !StartsWith(StatusName(f.status), "SUCCESS_") && !StartsWith(StatusName(f.status), "FAILED_")
         && f.status != COMPENSATION_FAILED_MANUAL_INTERVENTION_REQUIRED
      then Some(f.(status := COMPENSATION_FAILED_MANUAL_INTERVENTION_REQUIRED,
                   failureReason := Some("unhandled saga error: " + message)))
      else None
  }

  /** One page of `findByUserId`. */
  datatype ClaimPage = ClaimPage(data: seq<ClaimRequest>, total: nat, currentPage: int, totalPages: Option<int>)

  /** The query filter: the user, and the status when a non-empty status
      string is given. */
  predicate MatchesQuery(r: ClaimRequest, userId: UserId, status: Option<string>) {
    r.userId == userId && (status.None? || status.value == "" || StatusName(r.status) == status.value)
  }

  /** The matching records, in the order of `sorted`. */
  function Matching(sorted: seq<ClaimRequest>, userId: UserId, status: Option<string>): (m: seq<ClaimRequest>)
    ensures |m| <= |sorted|
    ensures forall j :: 0 <= j < |m| ==> MatchesQuery(m[j], userId, status) && m[j] in sorted
    ensures forall j :: 0 <= j < |sorted| && MatchesQuery(sorted[j], userId, status) ==> sorted[j] in m
  {
    if |sorted| == 0 then []
    else if MatchesQuery(sorted[0], userId, status) then [sorted[0]] + Matching(sorted[1..], userId, status)
    else Matching(sorted[1..], userId, status)
  }

  /** `Matching` is the order-keeping filter: one record is kept exactly
      when it matches, and the matches of a concatenation are the matches of
      its first part followed by those of its second. */
  lemma {:induction false} MatchingIsFilter(a: seq<ClaimRequest>, b: seq<ClaimRequest>, userId: UserId, status: Option<string>)
    ensures forall x :: Matching([x], userId, status) == (if MatchesQuery(x, userId, status) then [x] else [])
    ensures Matching(a + b, userId, status) == Matching(a, userId, status) + Matching(b, userId, status)
    decreases |a|
  {
    forall x ensures Matching([x], userId, status) == (if MatchesQuery(x, userId, status) then [x] else []) {
      assert [x][1..] == [];
    }
    if |a| == 0 {
      assert a + b == b;
    } else {
      assert (a + b)[0] == a[0];
      assert (a + b)[1..] == a[1..] + b;
      MatchingIsFilter(a[1..], b, userId, status);
    }
  }

  /** `findByUserId` over the records in the requested sort order. */
  function FindByUserIdSpec(sorted: seq<ClaimRequest>, userId: UserId, status: Option<string>, page: int, limit: int)
    : (r: Result<ClaimPage, HttpError>)
    ensures userId == "" ==> r == Failure(BadRequest)
    ensures userId != "" && SkipCount(page, limit) < 0 ==> r == Failure(InternalServerError)
    ensures r.Success? <==> userId != "" && SkipCount(page, limit) >= 0
    ensures r.Success? ==>
      var m := Matching(sorted, userId, status);
      && r.value.total == |m|
      && r.value.currentPage == page
      && r.value.totalPages == TotalPages(|m|, limit)
      && Window(m, SkipCount(page, limit), limit) == Success(r.value.data)
      && forall j :: 0 <= j < |r.value.data| ==> MatchesQuery(r.value.data[j], userId, status)
  {
    if userId == "" then Failure(BadRequest)
    else
      var m := Matching(sorted, userId, status);
      match Window(m, SkipCount(page, limit), limit)
      case Failure(e) => Failure(e)
      case Success(data) => Success(ClaimPage(data, |m|, page, TotalPages(|m|, limit)))
  }

  /** The grant loop result with the `allRewardsGrantedSuccessfully` flag
      already cleared when `ok` is false. */
  function AndAll(g: Granting, ok: bool): Granting {
    if ok then g else g.(allGranted := false)
  }

  class EventClaimsService {
    const ledger: Ledger
    const store: EventStore

    constructor(ledger: Ledger, store: EventStore)
      ensures this.ledger == ledger && this.store == store
    {
      this.ledger := ledger;
      this.store := store;
    }

    /** `initiateClaim`. */
    method InitiateClaim(userId: UserId, eventId: EventId, key: RequestId, isValidId: string -> bool,
                         insert: InsertOutcome, c: Collaborators, now: int)
      returns (r: Result<ClaimRequest, HttpError>)
      requires ledger.Valid()
      modifies ledger, store
      ensures ledger.Valid()
      ensures Initiation(r, ledger.records, store.events)
              == Initiate(old(ledger.records), old(store.events), userId, eventId, key, isValidId, insert, c, now)
    {
      var existing := ledger.FindOne(key);
      if existing.Some? {
        return Success(existing.value);
      }
      if !isValidId(eventId) {
        return Failure(BadRequest);
      }
      var ev := store.FindById(eventId);
      if ev.None? {
        return Failure(NotFound);
      }
      var newRequest := NewRequest(key, userId, eventId, ev.value);
      match insert {
        case WriteFailed =>
          return Failure(InternalServerError);
        case DuplicateKey(found) =>
          if found.None? {
            return Failure(InternalServerError);
          }
          return Success(found.value);
        case Inserted =>
      }
      ledger.Save(newRequest);
      var final := ProcessRewardClaimSaga(newRequest, c, now);
      var reread := ledger.FindOne(key);
      r := Success(reread.value);
    }

    /** `processRewardClaimSaga` on a record that raises no error. */
    method ProcessRewardClaimSaga(req: ClaimRequest, c: Collaborators, now: int) returns (r: ClaimRequest)
      requires ledger.Valid()
      modifies ledger, store
      ensures ledger.Valid()
      ensures var o := Saga(req, old(ledger.records), old(store.events), c, now);
              r == o.req && store.events == o.events
      ensures ledger.records == if SagaWrites(req) then old(ledger.records)[req.requestId := r] else old(ledger.records)
    {
      ghost var records0, events0 := ledger.records, store.events;
      ghost var o1 := Validate(req, records0, events0, c, now);
      var stopped;
      r, stopped := RunValidation(req, c, now);
      assert Outcome(r, store.events, stopped) == o1;
      ghost var written := req.status == PENDING_VALIDATION;
      assert ledger.records == if written then records0[req.requestId := r] else records0;
      if stopped {
        return;
      }
      ghost var o2 := CheckConditions(o1.req, o1.events, c);
      ghost var before := r;
      r, stopped := RunConditionCheck(r, c);
      assert Outcome(r, store.events, stopped) == o2;
      if written && before.status == PENDING_CONDITION_CHECK {
        OverwriteTwice(records0, req.requestId, before, r);
      }
      written := written || before.status == PENDING_CONDITION_CHECK;
      assert ledger.records == if written then records0[req.requestId := r] else records0;
      if stopped {
        return;
      }
      ghost var o3 := AllocateInventory(o2.req, o2.events);
      before := r;
      r, stopped := RunAllocation(r);
      assert Outcome(r, store.events, stopped) == o3;
      if written && before.status == PENDING_INVENTORY_ALLOCATION {
        OverwriteTwice(records0, req.requestId, before, r);
      }
      written := written || before.status == PENDING_INVENTORY_ALLOCATION;
      assert ledger.records == if written then records0[req.requestId := r] else records0;
      if stopped {
        return;
      }
      ghost var o4 := GrantRewards(o3.req, o3.events, c, now);
      before := r;
      r, stopped := RunGrant(r, c, now);
      assert Outcome(r, store.events, stopped) == o4;
      if written && before.status == PENDING_REWARD_GRANT {
        OverwriteTwice(records0, req.requestId, before, r);
      }
      written := written || before.status == PENDING_REWARD_GRANT;
      assert ledger.records == if written then records0[req.requestId := r] else records0;
      if stopped {
        return;
      }
      if IsFinal(r.status) {
        before := r;
        r := r.(currentSagaStep := Some(S5_COMPLETED));
        ledger.Save(r);
        if written {
          OverwriteTwice(records0, req.requestId, before, r);
        }
        written := true;
      }
      assert ledger.records == if written then records0[req.requestId := r] else records0;
    }

    /** Step S1. */
    method RunValidation(req: ClaimRequest, c: Collaborators, now: int) returns (r: ClaimRequest, stopped: bool)
      requires ledger.Valid()
      modifies ledger
      ensures ledger.Valid()
      ensures Outcome(r, store.events, stopped) == Validate(req, old(ledger.records), store.events, c, now)
      ensures ledger.records == if req.status == PENDING_VALIDATION then old(ledger.records)[req.requestId := r]
                                else old(ledger.records)
    {
      if req.status != PENDING_VALIDATION {
        return req, false;
      }
      r := req.(currentSagaStep := Some(S1_VALIDATE_USER_EVENT));
      if !c.isUserActive(r.userId, AtValidation) {
        r := Fail(r, VALIDATION_FAILED_USER_INACTIVE, USER_INACTIVE_REASON);
        ledger.Save(r);
        return r, true;
      }
      var ev := store.FindById(r.eventId);
      if ev.None? || ev.value.status != ACTIVE || now < ev.value.startDate || now > ev.value.endDate {
        r := Fail(r, VALIDATION_FAILED_EVENT_NOT_ACTIVE, EVENT_NOT_ACTIVE_REASON);
        ledger.Save(r);
        return r, true;
      }
      var claimed := ledger.HasSuccessfulClaim(r.userId, r.eventId);
      if claimed {
        r := Fail(r, VALIDATION_FAILED_ALREADY_CLAIMED, ALREADY_CLAIMED_REASON);
        ledger.Save(r);
        return r, true;
      }
      r := r.(status := PENDING_CONDITION_CHECK);
      ledger.Save(r);
      stopped := false;
    }

    /** Step S2. */
    method RunConditionCheck(req: ClaimRequest, c: Collaborators) returns (r: ClaimRequest, stopped: bool)
      requires ledger.Valid()
      modifies ledger
      ensures ledger.Valid()
      ensures Outcome(r, store.events, stopped) == CheckConditions(req, store.events, c)
      ensures ledger.records == if req.status == PENDING_CONDITION_CHECK then old(ledger.records)[req.requestId := r]
                                else old(ledger.records)
    {
      if req.status != PENDING_CONDITION_CHECK {
        return req, false;
      }
      r := req.(currentSagaStep := Some(S2_CHECK_CONDITIONS));
      if r.eventSnapshot.None? || r.eventSnapshot.value.conditions.None? {
        r := Fail(r, CONDITION_CHECK_FAILED_EXTERNAL, CONDITIONS_MISSING_REASON);
        ledger.Save(r);
        return r, true;
      }
      if !c.checkConditions(r.userId, r.eventSnapshot.value.conditions.value) {
        r := Fail(r, CONDITION_NOT_MET, CONDITIONS_NOT_MET_REASON);
        ledger.Save(r);
        return r, true;
      }
      var hasLimited := HasLimitedReward(r.rewardsToProcess);
      r := r.(status := if hasLimited then PENDING_INVENTORY_ALLOCATION else PENDING_REWARD_GRANT);
      ledger.Save(r);
      stopped := false;
    }

    /** Step S3: the allocation loop, and compensation when it fails. */
    method RunAllocation(req: ClaimRequest) returns (r: ClaimRequest, stopped: bool)
      requires ledger.Valid()
      modifies ledger, store
      ensures ledger.Valid()
      ensures Outcome(r, store.events, stopped) == AllocateInventory(req, old(store.events))
      ensures ledger.records == if req.status == PENDING_INVENTORY_ALLOCATION then old(ledger.records)[req.requestId := r]
                                else old(ledger.records)
    {
      if req.status != PENDING_INVENTORY_ALLOCATION {
        return req, false;
      }
      r := req.(currentSagaStep := Some(S3_ALLOCATE_INVENTORY));
      var found := store.FindById(r.eventId);
      if found.None? {
        r := Fail(r, INVENTORY_ALLOCATION_ERROR, EVENT_MISSING_AT_ALLOCATION_REASON);
        ledger.Save(r);
        return r, true;
      }
      var stale := found.value;
      var entries := r.rewardsToProcess;
      ghost var events0 := store.events;
      var allAllocated := true;
      var i := 0;
      while i < |entries|
        invariant 0 <= i <= |entries| == |r.rewardsToProcess|
        invariant AllocateFrom(r.rewardsToProcess, 0, r.eventId, stale, events0)
                  == AllocateFrom(entries, i, r.eventId, stale, store.events)
        invariant ledger.records == old(ledger.records)
        decreases |entries| - i
      {
        var p := entries[i];
        var k := FindRewardIndex(stale.rewards, p.rewardDetailsSnapshot.id);
        if k.None? {
          entries := entries[i := p.(grantStatus := FAILED_INVENTORY_ERROR,
                                     failureReason := Some(MissingRewardReason(p.rewardDetailsSnapshot)))];
          allAllocated := false;
          break;
        }
        var current := stale.rewards[k.value];
        if IsLimited(current) {
          if current.remainingStock > 0 {
            var modified := store.TryDecrement(r.eventId, current.id);
            if modified {
              entries := entries[i := p.(grantStatus := GrantStatus.INVENTORY_ALLOCATED)];
            } else {
              entries := entries[i := p.(grantStatus := FAILED_OUT_OF_STOCK)];
              allAllocated := false;
              break;
            }
          } else {
            entries := entries[i := p.(grantStatus := FAILED_OUT_OF_STOCK)];
            allAllocated := false;
            break;
          }
        } else {
          entries := entries[i := p.(grantStatus := GrantStatus.INVENTORY_ALLOCATED)];
        }
        i := i + 1;
      }
      assert AllocateFrom(r.rewardsToProcess, 0, r.eventId, stale, events0)
             == Allocation(entries, store.events, allAllocated);
      if !allAllocated {
        r := r.(status := INVENTORY_ALLOCATION_FAILED_OUT_OF_STOCK,
                failureReason := Some(OrDefault(r.failureReason, ALLOCATION_FAILED_REASON)));
        entries := CompensateInventory(entries, r.eventId, stale, false);
        r := r.(rewardsToProcess := entries, status := FAILED_ROLLED_BACK);
        ledger.Save(r);
        return r, true;
      }
      r := r.(rewardsToProcess := entries, status := PENDING_REWARD_GRANT);
      ledger.Save(r);
      stopped := false;
    }

    /** Step S4: the grant loop, and compensation when not every entry was
        granted. */
    method RunGrant(req: ClaimRequest, c: Collaborators, now: int) returns (r: ClaimRequest, stopped: bool)
      requires ledger.Valid()
      modifies ledger, store
      ensures ledger.Valid()
      ensures Outcome(r, store.events, stopped) == GrantRewards(req, old(store.events), c, now)
      ensures ledger.records == if req.status == PENDING_REWARD_GRANT then old(ledger.records)[req.requestId := r]
                                else old(ledger.records)
    {
      if req.status != PENDING_REWARD_GRANT {
        return req, false;
      }
      r := req.(currentSagaStep := Some(S4_GRANT_REWARDS));
      var entries := r.rewardsToProcess;
      var allGranted := true;
      var i := 0;
      while i < |entries|
        invariant 0 <= i <= |entries| == |r.rewardsToProcess|
        invariant r == req.(currentSagaStep := Some(S4_GRANT_REWARDS))
        invariant GrantFrom(r.rewardsToProcess, 0, r.userId, c, now) == AndAll(GrantFrom(entries, i, r.userId, c, now), allGranted)
        decreases |entries| - i
      {
        var p := entries[i];
        if p.grantStatus == GrantStatus.INVENTORY_ALLOCATED {
          if !c.isUserActive(r.userId, BeforeGrant(i)) {
            r := Fail(r, REWARD_GRANT_FAILED_USER_INACTIVE, USER_INACTIVE_AT_GRANT_REASON);
            allGranted := false;
            break;
          }
          var g := c.grantReward(r.userId, p.rewardDetailsSnapshot);
          if g.success {
            entries := entries[i := p.(grantStatus := SUCCESS, processedAt := Some(now))];
          } else {
            entries := entries[i := p.(grantStatus := FAILED_EXTERNAL, failureReason := g.failureReason)];
            allGranted := false;
            break;
          }
        } else if p.grantStatus != SUCCESS {
          allGranted := false;
        }
        i := i + 1;
      }
      if !allGranted {
        if r.status != REWARD_GRANT_FAILED_USER_INACTIVE {
          r := Fail(r, REWARD_GRANT_FAILED_EXTERNAL, OrDefault(r.failureReason, GRANT_FAILED_REASON));
        }
        var current := store.FindById(r.eventId);
        if current.Some? {
          entries := CompensateInventory(entries, r.eventId, current.value, true);
        }
        r := r.(rewardsToProcess := entries, status := FAILED_ROLLED_BACK);
        ledger.Save(r);
        return r, true;
      }
      r := r.(rewardsToProcess := entries, status := SUCCESS_ALL_GRANTED, rewardsGrantedAt := Some(now));
      ledger.Save(r);
      stopped := false;
    }

    /** `compensateInventory`: release one unit for every touched entry whose
        reward is limited in `ev`, and mark every touched entry
        ROLLED_BACK_INVENTORY. */
    method CompensateInventory(entries: seq<ProcessedReward>, eid: EventId, ev: Event, isGrantFailureRollback: bool)
      returns (result: seq<ProcessedReward>)
      modifies store
      ensures Compensation(result, store.events)
              == CompensateFrom(entries, 0, eid, ev, old(store.events), isGrantFailureRollback)
    {
      result := entries;
      var i := 0;
      while i < |result|
        invariant 0 <= i <= |result| == |entries|
        invariant CompensateFrom(entries, 0, eid, ev, old(store.events), isGrantFailureRollback)
                  == CompensateFrom(result, i, eid, ev, store.events, isGrantFailureRollback)
        decreases |result| - i
      {
        var p := result[i];
        if p.grantStatus == GrantStatus.INVENTORY_ALLOCATED || (isGrantFailureRollback && p.grantStatus == SUCCESS) {
          var k := FindRewardIndex(ev.rewards, p.rewardDetailsSnapshot.id);
          if k.Some? && IsLimited(ev.rewards[k.value]) {
            store.Release(eid, ev.rewards[k.value].id);
          }
          result := result[i := p.(grantStatus := ROLLED_BACK_INVENTORY)];
        }
        i := i + 1;
      }
    }

    /** The `catch` of `processRewardClaimSaga`: re-read the record as last
        saved and force it to manual intervention when its status allows. */
    method RecoverFromError(requestId: RequestId, message: string)
      requires ledger.Valid()
      modifies ledger
      ensures ledger.Valid()
      ensures ledger.records == if requestId in old(ledger.records)
                                then old(ledger.records)[requestId :=
                                       RecoverFromUnhandledError(Some(old(ledger.records)[requestId]), message).value]
                                else old(ledger.records)
    {
      var reread := ledger.FindOne(requestId);
      if reread.Some? {
        var f := reread.value;
        if !StartsWith(StatusName(f.status), "SUCCESS_") && !StartsWith(StatusName(f.status), "FAILED_")
           && f.status != COMPENSATION_FAILED_MANUAL_INTERVENTION_REQUIRED {
          var step := if f.currentSagaStep.Some? then f.currentSagaStep.value else UNKNOWN_ERROR_STEP_AT_EXCEPTION;
          ledger.Save(f.(status := COMPENSATION_FAILED_MANUAL_INTERVENTION_REQUIRED,
                         failureReason := Some(UNHANDLED_ERROR_PREFIX + message),
                         currentSagaStep := Some(step)));
        }
      }
    }

    /** `findByUserId`: the matching records of the ledger in the requested
        order, one page of them, and the page counts. */
    method FindByUserId(userId: UserId, status: Option<string>, page: int, limit: int, order: seq<RequestId>)
      returns (r: Result<ClaimPage, HttpError>)
      requires IsOrderOf(order, ledger.records)
      ensures r == FindByUserIdSpec(InOrder(order, ledger.records), userId, status, page, limit)
    {
      if userId == "" {
        return Failure(BadRequest);
      }
      var sorted := InOrder(order, ledger.records);
      var matching := Matching(sorted, userId, status);
      var window := Window(matching, SkipCount(page, limit), limit);
      if window.Failure? {
        return Failure(window.error);
      }
      r := Success(ClaimPage(window.value, |matching|, page, TotalPages(|matching|, limit)));
    }
  }
}
