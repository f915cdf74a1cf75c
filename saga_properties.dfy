/** What the claim saga guarantees, stated over the definitions of
    `ClaimSaga` and `ClaimService`: how each loop leaves the entries, when a
    run can succeed, how initiation keeps the ledger's invariants, and which
    records the error fallback rewrites. */
module SagaProperties {
  import opened Wrappers
  import opened JsStrings
  import opened RewardSchema
  import opened EventSchema
  import opened ClaimSchema
  import opened EventStore
  import opened ClaimLedger
  import opened ClaimSaga
  import opened ClaimService

  // ---------------------------------------------------------------- the loops

  /** How the allocation loop leaves the entries from `i` on: on success every
      one is INVENTORY_ALLOCATED; otherwise the ones before the failing entry
      are, the failing one is FAILED_OUT_OF_STOCK or FAILED_INVENTORY_ERROR,
      and the later ones are untouched. Earlier entries and every reward
      snapshot are kept. */
  predicate AllocatedUpToFailure(before: seq<ProcessedReward>, after: seq<ProcessedReward>, i: nat, allAllocated: bool) {
    && |after| == |before|
    && (forall j :: 0 <= j < i && j < |before| ==> after[j] == before[j])
    && (forall j :: i <= j < |before| ==> after[j].rewardDetailsSnapshot == before[j].rewardDetailsSnapshot)
    && (allAllocated ==> forall j :: i <= j < |before| ==> after[j].grantStatus == GrantStatus.INVENTORY_ALLOCATED)
    && (!allAllocated ==>
          exists f :: i <= f < |before|
            && (after[f].grantStatus == FAILED_OUT_OF_STOCK || after[f].grantStatus == FAILED_INVENTORY_ERROR)
            && (forall j :: i <= j < f ==> after[j].grantStatus == GrantStatus.INVENTORY_ALLOCATED)
            && (forall j :: f < j < |before| ==> after[j] == before[j]))
  }

  /** Allocating entry `i` and then the rest in that shape gives the shape
      from `i`. */
  lemma AllocatedStep(entries: seq<ProcessedReward>, i: nat, after: seq<ProcessedReward>, allAllocated: bool)
    requires i < |entries|
    requires AllocatedUpToFailure(entries[i := entries[i].(grantStatus := GrantStatus.INVENTORY_ALLOCATED)], after, i + 1, allAllocated)
    ensures AllocatedUpToFailure(entries, after, i, allAllocated)
  {
    if allAllocated {
      AllocatedStepAll(entries, i, after);
    } else {
      AllocatedStepFailing(entries, i, entries[i := entries[i].(grantStatus := GrantStatus.INVENTORY_ALLOCATED)], after);
    }
  }

  lemma AllocatedStepAll(entries: seq<ProcessedReward>, i: nat, after: seq<ProcessedReward>)
    requires i < |entries|
    requires AllocatedUpToFailure(entries[i := entries[i].(grantStatus := GrantStatus.INVENTORY_ALLOCATED)], after, i + 1, true)
    ensures AllocatedUpToFailure(entries, after, i, true)
  {
    var alloc := entries[i := entries[i].(grantStatus := GrantStatus.INVENTORY_ALLOCATED)];
    assert after[i] == alloc[i];
  }

  lemma AllocatedStepFailing(entries: seq<ProcessedReward>, i: nat, alloc: seq<ProcessedReward>, after: seq<ProcessedReward>)
    requires i < |entries| == |alloc|
    requires alloc[i] == entries[i].(grantStatus := GrantStatus.INVENTORY_ALLOCATED)
    requires forall j :: 0 <= j < |entries| && j != i ==> alloc[j] == entries[j]
    requires AllocatedUpToFailure(alloc, after, i + 1, false)
    ensures AllocatedUpToFailure(entries, after, i, false)
  {
    assert after[i] == alloc[i];
    var f :| i + 1 <= f < |alloc|
      && (after[f].grantStatus == FAILED_OUT_OF_STOCK || after[f].grantStatus == FAILED_INVENTORY_ERROR)
      && (forall j :: i + 1 <= j < f ==> after[j].grantStatus == GrantStatus.INVENTORY_ALLOCATED)
      && (forall j :: f < j < |alloc| ==> after[j] == alloc[j]);
    assert forall j :: i <= j < f ==> after[j].grantStatus == GrantStatus.INVENTORY_ALLOCATED;
  }

  /** Failing entry `i` and stopping gives the shape from `i`. */
  lemma FailedStep(entries: seq<ProcessedReward>, i: nat, q: ProcessedReward)
    requires i < |entries| && q.rewardDetailsSnapshot == entries[i].rewardDetailsSnapshot
    requires q.grantStatus == FAILED_OUT_OF_STOCK || q.grantStatus == FAILED_INVENTORY_ERROR
    ensures AllocatedUpToFailure(entries, entries[i := q], i, false)
  {
    var after := entries[i := q];
    assert forall j :: i < j < |entries| ==> after[j] == entries[j];
  }

  /** One round of the allocation loop: entry `i` either fails and the loop
      stops, or is allocated and the loop goes on, over the collection after a
      successful guarded decrement when its reward is limited in `stale`, and
      over the same collection when it is not. */
  lemma AllocateUnfold(entries: seq<ProcessedReward>, i: nat, eid: EventId, stale: Event, events: Events)
    returns (stop: bool, q: ProcessedReward, events': Events)
    requires i < |entries|
    ensures stop ==> && q.rewardDetailsSnapshot == entries[i].rewardDetailsSnapshot
                     && (q.grantStatus == FAILED_OUT_OF_STOCK || q.grantStatus == FAILED_INVENTORY_ERROR)
                     && AllocateFrom(entries, i, eid, stale, events) == Allocation(entries[i := q], events, false)
    ensures !stop ==> AllocateFrom(entries, i, eid, stale, events)
                      == AllocateFrom(entries[i := entries[i].(grantStatus := GrantStatus.INVENTORY_ALLOCATED)], i + 1, eid, stale, events')
    ensures !stop ==>
      var f := FindRewardIndex(stale.rewards, entries[i].rewardDetailsSnapshot.id);
      && f.Some?
      && (IsLimited(stale.rewards[f.value]) ==>
            && Decrement(events, eid, stale.rewards[f.value].id).modified
            && events' == Decrement(events, eid, stale.rewards[f.value].id).events)
      && (!IsLimited(stale.rewards[f.value]) ==> events' == events)
  {
    var p := entries[i];
    var k := FindRewardIndex(stale.rewards, p.rewardDetailsSnapshot.id);
    events' := events;
    if k.None? {
      stop, q := true, p.(grantStatus := FAILED_INVENTORY_ERROR, failureReason := Some(MissingRewardReason(p.rewardDetailsSnapshot)));
    } else if IsLimited(stale.rewards[k.value]) {
      var w := Decrement(events, eid, stale.rewards[k.value].id);
      stop, q := !(stale.rewards[k.value].remainingStock > 0 && w.modified), p.(grantStatus := FAILED_OUT_OF_STOCK);
      events' := w.events;
    } else {
      stop, q := false, p;
    }
  }

  /** The two ways a round of the allocation loop can go, without the stock
      it takes. */
  lemma AllocateCases(entries: seq<ProcessedReward>, i: nat, eid: EventId, stale: Event, events: Events)
    returns (stop: bool, q: ProcessedReward, events': Events)
    requires i < |entries|
    ensures stop ==> && q.rewardDetailsSnapshot == entries[i].rewardDetailsSnapshot
                     && (q.grantStatus == FAILED_OUT_OF_STOCK || q.grantStatus == FAILED_INVENTORY_ERROR)
                     && AllocateFrom(entries, i, eid, stale, events) == Allocation(entries[i := q], events, false)
    ensures !stop ==> AllocateFrom(entries, i, eid, stale, events)
                      == AllocateFrom(entries[i := entries[i].(grantStatus := GrantStatus.INVENTORY_ALLOCATED)], i + 1, eid, stale, events')
  {
    stop, q, events' := AllocateUnfold(entries, i, eid, stale, events);
  }

  /** The allocation loop fixes or fails each entry in order and stops at the
      first failure. */
  lemma {:induction false} AllocationShape(entries: seq<ProcessedReward>, i: nat, eid: EventId, stale: Event, events: Events)
    requires i <= |entries|
    ensures var a := AllocateFrom(entries, i, eid, stale, events);
      AllocatedUpToFailure(entries, a.entries, i, a.allAllocated)
    decreases |entries| - i
  {
    if i < |entries| {
      var stop, q, events' := AllocateCases(entries, i, eid, stale, events);
      if stop {
        FailedStep(entries, i, q);
      } else {
        var alloc := entries[i := entries[i].(grantStatus := GrantStatus.INVENTORY_ALLOCATED)];
        AllocationShape(alloc, i + 1, eid, stale, events');
        var a := AllocateFrom(alloc, i + 1, eid, stale, events');
        AllocatedStep(entries, i, a.entries, a.allAllocated);
      }
    }
  }

  /** Compensation works entry by entry: from `i` on, exactly the touched
      entries become ROLLED_BACK_INVENTORY; every other entry is left as it
      was. */
  lemma {:induction false} CompensationShape(entries: seq<ProcessedReward>, i: nat, eid: EventId, ev: Event, events: Events,
                                             isGrantFailureRollback: bool)
    requires i <= |entries|
    ensures var r := CompensateFrom(entries, i, eid, ev, events, isGrantFailureRollback);
      forall j :: 0 <= j < |entries| ==>
        r.entries[j] == if i <= j && Touched(entries[j], isGrantFailureRollback)
                        then entries[j].(grantStatus := ROLLED_BACK_INVENTORY) else entries[j]
    decreases |entries| - i
  {
    if i < |entries| {
      var p := entries[i];
      if Touched(p, isGrantFailureRollback) {
        var events' := if Releases(p, ev)
                       then Increment(events, eid, ev.rewards[FindRewardIndex(ev.rewards, p.rewardDetailsSnapshot.id).value].id)
                       else events;
        CompensationShape(entries[i := p.(grantStatus := ROLLED_BACK_INVENTORY)], i + 1, eid, ev, events', isGrantFailureRollback);
      } else {
        CompensationShape(entries, i + 1, eid, ev, events, isGrantFailureRollback);
      }
    }
  }

  /** Compensation of entries none of which is touched changes nothing. */
  lemma {:induction false} CompensationOfUntouched(entries: seq<ProcessedReward>, i: nat, eid: EventId, ev: Event, events: Events,
                                                   isGrantFailureRollback: bool)
    requires forall j :: i <= j < |entries| ==> !Touched(entries[j], isGrantFailureRollback)
    ensures CompensateFrom(entries, i, eid, ev, events, isGrantFailureRollback) == Compensation(entries, events)
    decreases |entries| - i
  {
    if i < |entries| {
      CompensationOfUntouched(entries, i + 1, eid, ev, events, isGrantFailureRollback);
    }
  }

  /** Compensating a second time releases nothing more and changes no entry. */
  lemma CompensationIsIdempotent(entries: seq<ProcessedReward>, eid: EventId, ev: Event, events: Events,
                                 isGrantFailureRollback: bool)
    ensures var r := CompensateFrom(entries, 0, eid, ev, events, isGrantFailureRollback);
      CompensateFrom(r.entries, 0, eid, ev, r.events, isGrantFailureRollback) == r
  {
    var r := CompensateFrom(entries, 0, eid, ev, events, isGrantFailureRollback);
    CompensationShape(entries, 0, eid, ev, events, isGrantFailureRollback);
    CompensationOfUntouched(r.entries, 0, eid, ev, r.events, isGrantFailureRollback);
  }

  /** The grant loop changes only INVENTORY_ALLOCATED entries, each either to
      SUCCESS processed at `now` or to FAILED_EXTERNAL with the fulfilment
      service's reason, and it reports every entry granted exactly when every
      entry from `i` on ends SUCCESS. */
  lemma {:induction false} GrantShape(entries: seq<ProcessedReward>, i: nat, userId: UserId, c: Collaborators, now: int)
    requires i <= |entries|
    ensures var g := GrantFrom(entries, i, userId, c, now);
      && (forall j :: 0 <= j < i ==> g.entries[j] == entries[j])
      && (forall j :: i <= j < |entries| ==>
            g.entries[j] == entries[j]
            || (entries[j].grantStatus == GrantStatus.INVENTORY_ALLOCATED
                && (g.entries[j] == entries[j].(grantStatus := SUCCESS, processedAt := Some(now))
                    || g.entries[j] == entries[j].(grantStatus := FAILED_EXTERNAL,
                         failureReason := c.grantReward(userId, entries[j].rewardDetailsSnapshot).failureReason))))
      && (g.allGranted <==> forall j :: i <= j < |entries| ==> g.entries[j].grantStatus == SUCCESS)
    decreases |entries| - i
  {
    if i < |entries| {
      var p := entries[i];
      if p.grantStatus == GrantStatus.INVENTORY_ALLOCATED {
        if c.isUserActive(userId, BeforeGrant(i)) && c.grantReward(userId, p.rewardDetailsSnapshot).success {
          GrantShape(entries[i := p.(grantStatus := SUCCESS, processedAt := Some(now))], i + 1, userId, c, now);
        }
      } else {
        GrantShape(entries, i + 1, userId, c, now);
      }
    }
  }

  /** After a grant-failure rollback with the event still present, no entry
      is left INVENTORY_ALLOCATED or SUCCESS. */
  lemma GrantFailureRollsBackEveryHeldEntry(req: ClaimRequest, events: Events, c: Collaborators, now: int)
    requires req.status == PENDING_REWARD_GRANT && req.eventId in events
    requires GrantRewards(req, events, c, now).stopped
    ensures var e := GrantRewards(req, events, c, now).req.rewardsToProcess;
      forall j :: 0 <= j < |e| ==> e[j].grantStatus != GrantStatus.INVENTORY_ALLOCATED && e[j].grantStatus != SUCCESS
  {
    var g := GrantFrom(req.rewardsToProcess, 0, req.userId, c, now);
    CompensationShape(g.entries, 0, req.eventId, events[req.eventId], events, true);
  }

  // ---------------------------------------------------------------- the run

  /** A record whose status is none of the four gates runs through no step:
      only the S5 marker of a final status is written, and no stock moves. */
  lemma SagaSkipsSettledRecords(req: ClaimRequest, records: Records, events: Events, c: Collaborators, now: int)
    requires !IsPending(req.status)
    ensures Saga(req, records, events, c, now) == Outcome(Complete(req), events, false)
  {
  }

  /** Each step that runs moves the status strictly past its own gate, so no
      step is ever run twice in one run. */
  lemma StepsMoveForward(req: ClaimRequest, records: Records, events: Events, c: Collaborators, now: int)
    ensures req.status == PENDING_VALIDATION ==>
              Rank(Validate(req, records, events, c, now).req.status) > Rank(req.status)
    ensures req.status == PENDING_CONDITION_CHECK ==>
              Rank(CheckConditions(req, events, c).req.status) > Rank(req.status)
    ensures req.status == PENDING_INVENTORY_ALLOCATION ==>
              Rank(AllocateInventory(req, events).req.status) > Rank(req.status)
    ensures req.status == PENDING_REWARD_GRANT ==>
              Rank(GrantRewards(req, events, c, now).req.status) > Rank(req.status)
  {
  }

  /** Every run leaves the record past the four gates, with its identity and
      its number of entries unchanged. */
  lemma SagaSettles(req: ClaimRequest, records: Records, events: Events, c: Collaborators, now: int)
    ensures var o := Saga(req, records, events, c, now);
      && !IsPending(o.req.status)
      && SameIdentity(o.req, req) && |o.req.rewardsToProcess| == |req.rewardsToProcess|
  {
    var o1 := Validate(req, records, events, c, now);
    var o2 := CheckConditions(o1.req, o1.events, c);
    var o3 := AllocateInventory(o2.req, o2.events);
    var o4 := GrantRewards(o3.req, o3.events, c, now);
  }

  /** Two entry lists of the same length with the same reward snapshots. */
  predicate SameSnapshots(a: seq<ProcessedReward>, b: seq<ProcessedReward>) {
    |a| == |b| && forall j :: 0 <= j < |a| ==> a[j].rewardDetailsSnapshot == b[j].rewardDetailsSnapshot
  }

  /** S3 does not change which reward an entry is for. */
  lemma AllocationKeepsSnapshots(req: ClaimRequest, events: Events)
    ensures SameSnapshots(AllocateInventory(req, events).req.rewardsToProcess, req.rewardsToProcess)
  {
    if req.status == PENDING_INVENTORY_ALLOCATION && req.eventId in events {
      var stale := events[req.eventId];
      var a := AllocateFrom(req.rewardsToProcess, 0, req.eventId, stale, events);
      AllocationShape(req.rewardsToProcess, 0, req.eventId, stale, events);
      CompensationShape(a.entries, 0, req.eventId, stale, a.events, false);
    }
  }

  /** S4 does not change which reward an entry is for. */
  lemma GrantKeepsSnapshots(req: ClaimRequest, events: Events, c: Collaborators, now: int)
    ensures SameSnapshots(GrantRewards(req, events, c, now).req.rewardsToProcess, req.rewardsToProcess)
  {
    if req.status == PENDING_REWARD_GRANT {
      var g := GrantFrom(req.rewardsToProcess, 0, req.userId, c, now);
      GrantShape(req.rewardsToProcess, 0, req.userId, c, now);
      if req.eventId in events {
        CompensationShape(g.entries, 0, req.eventId, events[req.eventId], events, true);
      }
    }
  }

  /** No step of a run changes which reward an entry is for. */
  lemma SagaKeepsSnapshots(req: ClaimRequest, records: Records, events: Events, c: Collaborators, now: int)
    ensures SameSnapshots(Saga(req, records, events, c, now).req.rewardsToProcess, req.rewardsToProcess)
  {
    var o1 := Validate(req, records, events, c, now);
    var o2 := CheckConditions(o1.req, o1.events, c);
    var o3 := AllocateInventory(o2.req, o2.events);
    AllocationKeepsSnapshots(o2.req, o2.events);
    GrantKeepsSnapshots(o3.req, o3.events, c, now);
  }

  /** A run that starts at one of the gates and ends SUCCESS_ALL_GRANTED has
      granted every entry. */
  lemma SuccessGrantsEveryEntry(req: ClaimRequest, records: Records, events: Events, c: Collaborators, now: int)
    requires IsPending(req.status)
    requires Saga(req, records, events, c, now).req.status == SUCCESS_ALL_GRANTED
    ensures var f := Saga(req, records, events, c, now).req;
      forall j :: 0 <= j < |f.rewardsToProcess| ==> f.rewardsToProcess[j].grantStatus == SUCCESS
  {
    var o1 := Validate(req, records, events, c, now);
    var o2 := CheckConditions(o1.req, o1.events, c);
    var o3 := AllocateInventory(o2.req, o2.events);
    GrantShape(o3.req.rewardsToProcess, 0, req.userId, c, now);
  }

  /** A run from PENDING_VALIDATION ends SUCCESS_ALL_GRANTED only when every
      check passed — the user was active, the event active and in its period,
      no earlier success existed, the snapshot's conditions were present and
      met — and then every entry is SUCCESS, the step is S5_COMPLETED and the
      grant time is `now`. */
  lemma SuccessMeansEveryCheckPassed(req: ClaimRequest, records: Records, events: Events, c: Collaborators, now: int)
    requires req.status == PENDING_VALIDATION
    requires Saga(req, records, events, c, now).req.status == SUCCESS_ALL_GRANTED
    ensures c.isUserActive(req.userId, AtValidation)
    ensures req.eventId in events && IsCurrentlyActive(events[req.eventId], now)
    ensures !AlreadyClaimed(records, req.userId, req.eventId)
    ensures req.eventSnapshot.Some? && req.eventSnapshot.value.conditions.Some?
            && c.checkConditions(req.userId, req.eventSnapshot.value.conditions.value)
    ensures var f := Saga(req, records, events, c, now).req;
      && f.currentSagaStep == Some(S5_COMPLETED) && f.rewardsGrantedAt == Some(now)
      && forall j :: 0 <= j < |f.rewardsToProcess| ==> f.rewardsToProcess[j].grantStatus == SUCCESS
  {
    var o1 := Validate(req, records, events, c, now);
    var o2 := CheckConditions(o1.req, o1.events, c);
    var o3 := AllocateInventory(o2.req, o2.events);
    GrantShape(o3.req.rewardsToProcess, 0, req.userId, c, now);
  }

  /** An event whose rewards are all unlimited can never be claimed: its
      records skip allocation, so their PENDING entries reach the grant loop,
      which grants only allocated entries and so fails the run. */
  lemma UnlimitedOnlyNeverSucceeds(req: ClaimRequest, records: Records, events: Events, c: Collaborators, now: int)
    requires req.status == PENDING_VALIDATION
    requires |req.rewardsToProcess| > 0 && !HasLimitedReward(req.rewardsToProcess)
    requires forall j :: 0 <= j < |req.rewardsToProcess| ==> req.rewardsToProcess[j].grantStatus == PENDING
    ensures Saga(req, records, events, c, now).req.status != SUCCESS_ALL_GRANTED
  {
    var o1 := Validate(req, records, events, c, now);
    var o2 := CheckConditions(o1.req, o1.events, c);
    GrantShape(req.rewardsToProcess, 0, req.userId, c, now);
  }

  /** An event without rewards is claimed without touching stock once the
      checks of S1 and S2 pass. */
  lemma NoRewardsSucceeds(req: ClaimRequest, records: Records, events: Events, c: Collaborators, now: int)
    requires req.status == PENDING_VALIDATION && req.rewardsToProcess == []
    requires Validate(req, records, events, c, now).req.status == PENDING_CONDITION_CHECK
    requires req.eventSnapshot.Some? && req.eventSnapshot.value.conditions.Some?
    requires c.checkConditions(req.userId, req.eventSnapshot.value.conditions.value)
    ensures var o := Saga(req, records, events, c, now);
      o.req.status == SUCCESS_ALL_GRANTED && o.req.currentSagaStep == Some(S5_COMPLETED) && o.events == events
  {
  }

  // ---------------------------------------------------------------- initiation

  /** A request under a key that is already stored, or whose first call
      inserted its record, returns the stored record and changes nothing,
      whoever asks and whatever the collaborators now answer. */
  lemma InitiationIsIdempotent(records: Records, events: Events, userId: UserId, eventId: EventId, key: RequestId,
                               isValidId: string -> bool, insert: InsertOutcome, c: Collaborators, now: int,
                               userId2: UserId, eventId2: EventId, isValidId2: string -> bool,
                               insert2: InsertOutcome, c2: Collaborators, now2: int)
    requires key in records || insert.Inserted?
    ensures var first := Initiate(records, events, userId, eventId, key, isValidId, insert, c, now);
      first.result.Success? ==>
        Initiate(first.records, first.events, userId2, eventId2, key, isValidId2, insert2, c2, now2)
        == Initiation(first.result, first.records, first.events)
  {
  }

  /** A request rejected before its record is written leaves the ledger and
      the collection as they were. */
  lemma RejectedInitiationWritesNothing(records: Records, events: Events, userId: UserId, eventId: EventId, key: RequestId,
                                        isValidId: string -> bool, insert: InsertOutcome, c: Collaborators, now: int)
    requires key !in records
    requires !isValidId(eventId) || eventId !in events || !insert.Inserted?
    ensures var i := Initiate(records, events, userId, eventId, key, isValidId, insert, c, now);
      i.records == records && i.events == events
      && (!isValidId(eventId) ==> i.result == Failure(BadRequest))
      && (isValidId(eventId) && eventId !in events ==> i.result == Failure(NotFound))
  {
  }

  /** A witness of an earlier success in `records` is still one after a write
      under a new key. */
  lemma AlreadyClaimedKept(records: Records, key: RequestId, r: ClaimRequest, userId: UserId, eventId: EventId)
    requires key !in records
    requires AlreadyClaimed(records, userId, eventId)
    ensures AlreadyClaimed(records[key := r], userId, eventId)
  {
    var k :| k in records && records[k].userId == userId && records[k].eventId == eventId
             && records[k].status == SUCCESS_ALL_GRANTED;
    assert k != key;
    assert records[key := r][k] == records[k];
  }

  /** Initiation keeps every record under its own key and keeps at most one
      successful claim per user and event: a run reaches SUCCESS_ALL_GRANTED
      only when S1 found no earlier success. */
  lemma InitiationKeepsLedgerInvariants(records: Records, events: Events, userId: UserId, eventId: EventId, key: RequestId,
                                        isValidId: string -> bool, insert: InsertOutcome, c: Collaborators, now: int)
    requires KeyedByRequestId(records) && AtMostOneSuccess(records)
    ensures var i := Initiate(records, events, userId, eventId, key, isValidId, insert, c, now);
      KeyedByRequestId(i.records) && AtMostOneSuccess(i.records)
  {
    if key !in records && isValidId(eventId) && eventId in events && insert.Inserted? {
      var req := NewRequest(key, userId, eventId, events[eventId]);
      var stored := records[key := req];
      var o := Saga(req, stored, events, c, now);
      SagaSettles(req, stored, events, c, now);
      OverwriteTwice(records, key, req, o.req);
      if o.req.status == SUCCESS_ALL_GRANTED {
        SuccessMeansEveryCheckPassed(req, stored, events, c, now);
        assert records - {key} == records;
        if AlreadyClaimed(records, userId, eventId) {
          AlreadyClaimedKept(records, key, req, userId, eventId);
        }
      }
      SaveKeepsInvariants(records, o.req);
    }
  }

  // ---------------------------------------------------------------- fallback

  /** The saga's fallback leaves exactly the records that are
      SUCCESS_ALL_GRANTED, FAILED_ROLLED_BACK or already awaiting manual
      intervention; every other record, the VALIDATION_FAILED_* and
      CONDITION_* failures included, is forced to await manual intervention
      with the error as reason and its step kept. */
  lemma FallbackSparesOnlySettledRecords(f: ClaimRequest, message: string)
    ensures RecoverFromUnhandledError(Some(f), message) == Some(f) <==>
              (f.status == SUCCESS_ALL_GRANTED || f.status == FAILED_ROLLED_BACK
               || f.status == COMPENSATION_FAILED_MANUAL_INTERVENTION_REQUIRED)
    ensures RecoverFromUnhandledError(Some(f), message) != Some(f) ==>
              var r := RecoverFromUnhandledError(Some(f), message).value;
              && r.status == COMPENSATION_FAILED_MANUAL_INTERVENTION_REQUIRED
              && r.failureReason == Some(UNHANDLED_ERROR_PREFIX + message)
              && (f.currentSagaStep.Some? ==> r.currentSagaStep == f.currentSagaStep)
              && (f.currentSagaStep.None? ==> r.currentSagaStep == Some(UNKNOWN_ERROR_STEP_AT_EXCEPTION))
              && SameIdentity(r, f) && r.rewardsToProcess == f.rewardsToProcess
  {
    SuccessPrefix(f.status);
    FailedPrefix(f.status);
  }

  /** The outer fallback of initiation writes nothing for exactly the records
      the saga's fallback spares, and writes the inserted copy when the record
      cannot be re-read. */
  lemma OuterFallbackAgrees(reread: Option<ClaimRequest>, inserted: ClaimRequest, message: string)
    ensures RecoverAfterInitiation(reread, inserted, message).None? <==>
              (reread.Some? && (reread.value.status == SUCCESS_ALL_GRANTED || reread.value.status == FAILED_ROLLED_BACK
                                || reread.value.status == COMPENSATION_FAILED_MANUAL_INTERVENTION_REQUIRED))
    ensures RecoverAfterInitiation(reread, inserted, message).Some? ==>
              RecoverAfterInitiation(reread, inserted, message).value.status == COMPENSATION_FAILED_MANUAL_INTERVENTION_REQUIRED
    ensures reread.None? ==> RecoverAfterInitiation(reread, inserted, message).value.requestId == inserted.requestId
  {
    if reread.Some? {
      SuccessPrefix(reread.value.status);
      FailedPrefix(reread.value.status);
    }
  }
}
