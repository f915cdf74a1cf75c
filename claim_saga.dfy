/** The reward-claim saga of `EventClaimsService`, as pure functions of the
    record, the ledger, the event collection and the collaborators. Steps S1 to
    S4 each run only when the record's status is their own PENDING_* value;
    S5 marks completion. The imperative service in `event_claims_service.dfy`
    is proved to compute exactly these functions. */
module ClaimSaga {
  import opened Wrappers
  import opened JsStrings
  import opened RewardSchema
  import opened EventSchema
  import opened ClaimSchema
  import opened EventStore
  import opened ClaimLedger

  /** Which call of `isUserActive` is made: the one of step S1, or the one made
      right before granting the entry at the given index in step S4. The user
      may turn inactive between the two. */
  datatype ActivityProbe = AtValidation | BeforeGrant(entry: nat)

  /** What the fulfilment service answers for one grant. */
  datatype GrantResult = GrantResult(success: bool, transactionId: Option<string>, failureReason: Option<string>)

  /** The three external services the saga calls, as oracles. */
  datatype Collaborators = Collaborators(
    isUserActive: (UserId, ActivityProbe) -> bool,
    checkConditions: (UserId, Conditions) -> bool,
    grantReward: (UserId, Reward) -> GrantResult)

  // English renderings of the service's Korean failure reasons; only their
  // being non-empty matters to the saga.
  const USER_INACTIVE_REASON: string := "the user is inactive"
  const EVENT_NOT_ACTIVE_REASON: string := "the event is not active or its period is not valid"
  const ALREADY_CLAIMED_REASON: string := "the reward of this event was already claimed"
  const CONDITIONS_MISSING_REASON: string := "the event conditions were not found in the snapshot"
  const CONDITIONS_NOT_MET_REASON: string := "the event conditions were not met"
  const EVENT_MISSING_AT_ALLOCATION_REASON: string := "the event was not found during the stock check"
  const ALLOCATION_FAILED_REASON: string := "some rewards are out of stock or failed to allocate"
  const USER_INACTIVE_AT_GRANT_REASON: string := "the user became inactive right before the grant"
  const GRANT_FAILED_REASON: string := "some rewards failed to be granted"
  const UNHANDLED_ERROR_PREFIX: string := "unexpected error during the saga: "

  /** The reason written for an entry whose reward is no longer in the event. */
  function MissingRewardReason(snapshot: Reward): string {
    "reward " + snapshot.id + " (" + snapshot.rewardName + ") was not found in the event"
  }

  /** JavaScript's `reason || fallback` on an optional string. */
  function OrDefault(reason: Option<string>, fallback: string): (r: string)
    ensures reason.Some? && reason.value != "" ==> r == reason.value
    ensures reason.None? || reason.value == "" ==> r == fallback
  {
    if reason.Some? && reason.value != "" then reason.value else fallback
  }

  /** The record and the event collection after a step, and whether the step
      ended the run with a `return`. */
  datatype Outcome = Outcome(req: ClaimRequest, events: Events, stopped: bool)

  function Fail(r: ClaimRequest, status: ClaimStatus, reason: string): ClaimRequest {
    r.(status := status, failureReason := Some(reason))
  }

  /** The saga never changes what identifies the record or what it was
      created from. */
  predicate SameIdentity(a: ClaimRequest, b: ClaimRequest) {
    && a.requestId == b.requestId && a.userId == b.userId && a.eventId == b.eventId
    && a.eventSnapshot == b.eventSnapshot && a.processedRewards == b.processedRewards
    && a.retryCount == b.retryCount
  }

  /** The four statuses that gate a step. */
  predicate IsPending(s: ClaimStatus) {
    s == PENDING_VALIDATION || s == PENDING_CONDITION_CHECK
    || s == PENDING_INVENTORY_ALLOCATION || s == PENDING_REWARD_GRANT
  }

  /** The position of a status in the run: the four gates in order, then
      every status a run can end in. */
  function Rank(s: ClaimStatus): nat {
    match s
    case PENDING_VALIDATION => 0
    case PENDING_CONDITION_CHECK => 1
    case PENDING_INVENTORY_ALLOCATION => 2
    case PENDING_REWARD_GRANT => 3
    case _ => 4
  }

  // ---------------------------------------------------------------- S1

  /** The test of step S1 that sends the record to EVENT_NOT_ACTIVE. */
  predicate EventNotActive(events: Events, eid: EventId, now: int) {
    eid !in events || events[eid].status != ACTIVE || now < events[eid].startDate || now > events[eid].endDate
  }

  /** For an existing event, the test is the exact negation of the
      `isCurrentlyActive` virtual. */
  lemma EventNotActiveIsNotCurrentlyActive(events: Events, eid: EventId, now: int)
    ensures EventNotActive(events, eid, now) <==> !(eid in events && IsCurrentlyActive(events[eid], now))
  {
  }

  /** S1: the user must be active, the event active and in its period, and no
      successful claim of the user for the event may exist. */
  function Validate(req: ClaimRequest, records: Records, events: Events, c: Collaborators, now: int): (o: Outcome)
    ensures o.events == events && SameIdentity(o.req, req)
    ensures o.req.rewardsToProcess == req.rewardsToProcess && o.req.rewardsGrantedAt == req.rewardsGrantedAt
    ensures req.status != PENDING_VALIDATION ==> o == Outcome(req, events, false)
    ensures req.status == PENDING_VALIDATION ==>
      && o.req.currentSagaStep == Some(S1_VALIDATE_USER_EVENT)
      && (o.req.status == PENDING_CONDITION_CHECK <==>
            c.isUserActive(req.userId, AtValidation) && req.eventId in events
            && IsCurrentlyActive(events[req.eventId], now)
            && !AlreadyClaimed(records, req.userId, req.eventId))
      && (o.stopped <==> o.req.status != PENDING_CONDITION_CHECK)
      && (o.stopped ==> o.req.status == VALIDATION_FAILED_USER_INACTIVE || o.req.status == VALIDATION_FAILED_EVENT_NOT_ACTIVE
                        || o.req.status == VALIDATION_FAILED_ALREADY_CLAIMED)
      && (o.stopped ==> o.req.failureReason.Some? && o.req.failureReason.value != "")
      && (!o.stopped ==> o.req.failureReason == req.failureReason)
  {
    if req.status != PENDING_VALIDATION then Outcome(req, events, false)
    else
      var r := req.(currentSagaStep := Some(S1_VALIDATE_USER_EVENT));
      if !c.isUserActive(r.userId, AtValidation) then
        Outcome(Fail(r, VALIDATION_FAILED_USER_INACTIVE, USER_INACTIVE_REASON), events, true)
      else if EventNotActive(events, r.eventId, now) then
        Outcome(Fail(r, VALIDATION_FAILED_EVENT_NOT_ACTIVE, EVENT_NOT_ACTIVE_REASON), events, true)
      else if AlreadyClaimed(records, r.userId, r.eventId) then
        Outcome(Fail(r, VALIDATION_FAILED_ALREADY_CLAIMED, ALREADY_CLAIMED_REASON), events, true)
      else
        Outcome(r.(status := PENDING_CONDITION_CHECK), events, false)
  }

  /** The checks of S1 run in a fixed order and the first that fails decides
      the status. */
  lemma ValidationOrder(req: ClaimRequest, records: Records, events: Events, c: Collaborators, now: int)
    requires req.status == PENDING_VALIDATION
    ensures var s := Validate(req, records, events, c, now).req.status;
      && (!c.isUserActive(req.userId, AtValidation) ==> s == VALIDATION_FAILED_USER_INACTIVE)
      && ((c.isUserActive(req.userId, AtValidation) && !(req.eventId in events && IsCurrentlyActive(events[req.eventId], now)))
            ==> s == VALIDATION_FAILED_EVENT_NOT_ACTIVE)
      && ((c.isUserActive(req.userId, AtValidation) && req.eventId in events && IsCurrentlyActive(events[req.eventId], now)
             && AlreadyClaimed(records, req.userId, req.eventId))
            ==> s == VALIDATION_FAILED_ALREADY_CLAIMED)
  {
    EventNotActiveIsNotCurrentlyActive(events, req.eventId, now);
  }

  // ---------------------------------------------------------------- S2

  /** The routing test of S2: some snapshot reward has a `totalStock` other
      than -1 or null. */
  predicate HasLimitedReward(entries: seq<ProcessedReward>) {
    exists j :: 0 <= j < |entries| && IsLimited(entries[j].rewardDetailsSnapshot)
  }

  /** S2: the snapshot's conditions must be present and met; the record then
      goes to stock allocation if it has a limited reward, and straight to the
      grant otherwise. */
  function CheckConditions(req: ClaimRequest, events: Events, c: Collaborators): (o: Outcome)
    ensures o.events == events && SameIdentity(o.req, req)
    ensures o.req.rewardsToProcess == req.rewardsToProcess && o.req.rewardsGrantedAt == req.rewardsGrantedAt
    ensures req.status != PENDING_CONDITION_CHECK ==> o == Outcome(req, events, false)
    ensures req.status == PENDING_CONDITION_CHECK ==>
      && o.req.currentSagaStep == Some(S2_CHECK_CONDITIONS)
      && ((req.eventSnapshot.None? || req.eventSnapshot.value.conditions.None?)
            <==> o.req.status == CONDITION_CHECK_FAILED_EXTERNAL)
      && (o.req.status == CONDITION_NOT_MET <==>
            req.eventSnapshot.Some? && req.eventSnapshot.value.conditions.Some?
            && !c.checkConditions(req.userId, req.eventSnapshot.value.conditions.value))
      && (o.stopped <==> o.req.status == CONDITION_CHECK_FAILED_EXTERNAL || o.req.status == CONDITION_NOT_MET)
      && (!o.stopped ==> (o.req.status == PENDING_INVENTORY_ALLOCATION <==> HasLimitedReward(req.rewardsToProcess)))
      && (!o.stopped ==> (o.req.status == PENDING_REWARD_GRANT <==> !HasLimitedReward(req.rewardsToProcess)))
      && (!o.stopped ==> o.req.failureReason == req.failureReason)
  {
    if req.status != PENDING_CONDITION_CHECK then Outcome(req, events, false)
    else
      var r := req.(currentSagaStep := Some(S2_CHECK_CONDITIONS));
      if r.eventSnapshot.None? || r.eventSnapshot.value.conditions.None? then
        Outcome(Fail(r, CONDITION_CHECK_FAILED_EXTERNAL, CONDITIONS_MISSING_REASON), events, true)
      else if !c.checkConditions(r.userId, r.eventSnapshot.value.conditions.value) then
        Outcome(Fail(r, CONDITION_NOT_MET, CONDITIONS_NOT_MET_REASON), events, true)
      else
        Outcome(r.(status := if HasLimitedReward(r.rewardsToProcess) then PENDING_INVENTORY_ALLOCATION
                             else PENDING_REWARD_GRANT), events, false)
  }

  // ---------------------------------------------------------------- S3

  /** The entries, the collection and the `allStockAllocated` flag after the
      allocation loop. */
  datatype Allocation = Allocation(entries: seq<ProcessedReward>, events: Events, allAllocated: bool)

  /** The allocation loop from entry `i` on. Each entry's reward is looked up
      in `stale`, the event as read at the start of S3: a missing reward fails
      with FAILED_INVENTORY_ERROR; a limited reward needs stock in `stale` and
      then a successful guarded decrement of the live collection, otherwise it
      fails with FAILED_OUT_OF_STOCK; an unlimited reward is marked allocated
      with no write. The loop stops at the first failure. */
  function AllocateFrom(entries: seq<ProcessedReward>, i: nat, eid: EventId, stale: Event, events: Events): (a: Allocation)
    ensures |a.entries| == |entries|
    decreases |entries| - i
  {
    if i >= |entries| then Allocation(entries, events, true)
    else
      var p := entries[i];
      var k := FindRewardIndex(stale.rewards, p.rewardDetailsSnapshot.id);
      if k.None? then
        Allocation(entries[i := p.(grantStatus := FAILED_INVENTORY_ERROR,
                                   failureReason := Some(MissingRewardReason(p.rewardDetailsSnapshot)))], events, false)
      else
        var current := stale.rewards[k.value];
        if IsLimited(current) then
          if current.remainingStock > 0 then
            var w := Decrement(events, eid, current.id);
            if w.modified then AllocateFrom(entries[i := p.(grantStatus := GrantStatus.INVENTORY_ALLOCATED)], i + 1, eid, stale, w.events)
            else Allocation(entries[i := p.(grantStatus := FAILED_OUT_OF_STOCK)], events, false)
          else Allocation(entries[i := p.(grantStatus := FAILED_OUT_OF_STOCK)], events, false)
        else AllocateFrom(entries[i := p.(grantStatus := GrantStatus.INVENTORY_ALLOCATED)], i + 1, eid, stale, events)
  }

  /** Whether compensation touches an entry: it holds an allocation made in
      this run, or (on a grant-failure rollback) it was granted. */
  predicate Touched(p: ProcessedReward, isGrantFailureRollback: bool) {
    p.grantStatus == GrantStatus.INVENTORY_ALLOCATED || (isGrantFailureRollback && p.grantStatus == SUCCESS)
  }

  /** Whether compensation of an entry releases stock: its reward is found in
      the event passed to compensation and is limited there. */
  predicate Releases(p: ProcessedReward, ev: Event) {
    var k := FindRewardIndex(ev.rewards, p.rewardDetailsSnapshot.id);
    k.Some? && IsLimited(ev.rewards[k.value])
  }

  datatype Compensation = Compensation(entries: seq<ProcessedReward>, events: Events)

  /** `compensateInventory` from entry `i` on: every touched entry becomes
      ROLLED_BACK_INVENTORY, and one unit is released for each touched entry
      whose reward is limited in `ev`. */
  function CompensateFrom(entries: seq<ProcessedReward>, i: nat, eid: EventId, ev: Event, events: Events,
                          isGrantFailureRollback: bool): (r: Compensation)
    ensures |r.entries| == |entries|
    decreases |entries| - i
  {
    if i >= |entries| then Compensation(entries, events)
    else
      var p := entries[i];
      if Touched(p, isGrantFailureRollback) then
        var events' := if Releases(p, ev)
                       then Increment(events, eid, ev.rewards[FindRewardIndex(ev.rewards, p.rewardDetailsSnapshot.id).value].id)
                       else events;
        CompensateFrom(entries[i := p.(grantStatus := ROLLED_BACK_INVENTORY)], i + 1, eid, ev, events', isGrantFailureRollback)
      else CompensateFrom(entries, i + 1, eid, ev, events, isGrantFailureRollback)
  }

  /** S3: with the event re-read, allocate every entry; on a failure, give back
      what was allocated and end FAILED_ROLLED_BACK. The status
      INVENTORY_ALLOCATION_FAILED_OUT_OF_STOCK the source assigns first is
      overwritten before the record is saved, so it is never stored. */
  function AllocateInventory(req: ClaimRequest, events: Events): (o: Outcome)
    ensures SameIdentity(o.req, req) && o.req.rewardsGrantedAt == req.rewardsGrantedAt
    ensures |o.req.rewardsToProcess| == |req.rewardsToProcess|
    ensures req.status != PENDING_INVENTORY_ALLOCATION ==> o == Outcome(req, events, false)
    ensures req.status == PENDING_INVENTORY_ALLOCATION ==>
      && o.req.currentSagaStep == Some(S3_ALLOCATE_INVENTORY)
      && (o.stopped <==> o.req.status != PENDING_REWARD_GRANT)
      && (o.stopped ==> o.req.status == INVENTORY_ALLOCATION_ERROR || o.req.status == FAILED_ROLLED_BACK)
      && (o.req.status == INVENTORY_ALLOCATION_ERROR <==> req.eventId !in events)
      && (o.stopped ==> o.req.failureReason.Some? && o.req.failureReason.value != "")
      && (!o.stopped ==> o.req.failureReason == req.failureReason)
  {
    if req.status != PENDING_INVENTORY_ALLOCATION then Outcome(req, events, false)
    else
      var r := req.(currentSagaStep := Some(S3_ALLOCATE_INVENTORY));
      if r.eventId !in events then
        Outcome(Fail(r, INVENTORY_ALLOCATION_ERROR, EVENT_MISSING_AT_ALLOCATION_REASON), events, true)
      else
        var stale := events[r.eventId];
        var a := AllocateFrom(r.rewardsToProcess, 0, r.eventId, stale, events);
        if !a.allAllocated then
          var comp := CompensateFrom(a.entries, 0, r.eventId, stale, a.events, false);
          Outcome(r.(rewardsToProcess := comp.entries, status := FAILED_ROLLED_BACK,
                     failureReason := Some(OrDefault(r.failureReason, ALLOCATION_FAILED_REASON))), comp.events, true)
        else
          Outcome(r.(rewardsToProcess := a.entries, status := PENDING_REWARD_GRANT), a.events, false)
  }

  // ---------------------------------------------------------------- S4

  /** The entries and the two outcomes of the grant loop: whether every entry
      ended SUCCESS, and whether the loop stopped because the user was found
      inactive. */
  datatype Granting = Granting(entries: seq<ProcessedReward>, allGranted: bool, userTurnedInactive: bool)

  /** The grant loop from entry `i` on. Only INVENTORY_ALLOCATED entries are
      granted: an inactive user or a failed grant stops the loop; a success
      marks the entry SUCCESS at `now`. Any other entry that is not SUCCESS
      makes the run fail but the loop goes on. */
  function GrantFrom(entries: seq<ProcessedReward>, i: nat, userId: UserId, c: Collaborators, now: int): (g: Granting)
    ensures |g.entries| == |entries|
    decreases |entries| - i
  {
    if i >= |entries| then Granting(entries, true, false)
    else
      var p := entries[i];
      if p.grantStatus == GrantStatus.INVENTORY_ALLOCATED then
        if !c.isUserActive(userId, BeforeGrant(i)) then Granting(entries, false, true)
        else
          var g := c.grantReward(userId, p.rewardDetailsSnapshot);
          if g.success then
            GrantFrom(entries[i := p.(grantStatus := SUCCESS, processedAt := Some(now))], i + 1, userId, c, now)
          else
            Granting(entries[i := p.(grantStatus := FAILED_EXTERNAL, failureReason := g.failureReason)], false, false)
      else if p.grantStatus != SUCCESS then
        var rest := GrantFrom(entries, i + 1, userId, c, now);
        Granting(rest.entries, false, rest.userTurnedInactive)
      else GrantFrom(entries, i + 1, userId, c, now)
  }

  /** S4: grant every allocated entry; if not every entry ends SUCCESS, record
      why, give back the stock of allocated and granted entries using the
      event as re-read now (skipped when the event is gone), and end
      FAILED_ROLLED_BACK; otherwise end SUCCESS_ALL_GRANTED at `now`. */
  function GrantRewards(req: ClaimRequest, events: Events, c: Collaborators, now: int): (o: Outcome)
    ensures SameIdentity(o.req, req)
    ensures |o.req.rewardsToProcess| == |req.rewardsToProcess|
    ensures req.status != PENDING_REWARD_GRANT ==> o == Outcome(req, events, false)
    ensures req.status == PENDING_REWARD_GRANT ==>
      && o.req.currentSagaStep == Some(S4_GRANT_REWARDS)
      && (o.stopped <==> o.req.status == FAILED_ROLLED_BACK)
      && (!o.stopped ==> o.req.status == SUCCESS_ALL_GRANTED && o.req.rewardsGrantedAt == Some(now)
                         && o.events == events && o.req.failureReason == req.failureReason)
      && (o.stopped ==> o.req.failureReason.Some? && o.req.failureReason.value != ""
                        && o.req.rewardsGrantedAt == req.rewardsGrantedAt)
  {
    if req.status != PENDING_REWARD_GRANT then Outcome(req, events, false)
    else
      var r := req.(currentSagaStep := Some(S4_GRANT_REWARDS));
      var g := GrantFrom(r.rewardsToProcess, 0, r.userId, c, now);
      if !g.allGranted then
        var failed := if g.userTurnedInactive
                      then Fail(r, REWARD_GRANT_FAILED_USER_INACTIVE, USER_INACTIVE_AT_GRANT_REASON)
                      else Fail(r, REWARD_GRANT_FAILED_EXTERNAL, OrDefault(r.failureReason, GRANT_FAILED_REASON));
        var comp := if r.eventId in events
                    then CompensateFrom(g.entries, 0, r.eventId, events[r.eventId], events, true)
                    else Compensation(g.entries, events);
        Outcome(failed.(rewardsToProcess := comp.entries, status := FAILED_ROLLED_BACK), comp.events, true)
      else
        Outcome(r.(rewardsToProcess := g.entries, status := SUCCESS_ALL_GRANTED, rewardsGrantedAt := Some(now)), events, false)
  }

  // ---------------------------------------------------------------- S5

  /** The completion test of S5. */
  predicate IsFinal(s: ClaimStatus) {
    s == SUCCESS_ALL_GRANTED || StartsWith(StatusName(s), "FAILED_")
    || StartsWith(StatusName(s), "COMPENSATED_") || s == REWARD_PARTIALLY_GRANTED
  }

  /** Of the model's statuses, the completion test holds for exactly five. */
  lemma IsFinalStatuses(s: ClaimStatus)
    ensures IsFinal(s) <==> s in {SUCCESS_ALL_GRANTED, FAILED_ROLLED_BACK, COMPENSATED_INVENTORY,
                                  COMPENSATED_REWARD, REWARD_PARTIALLY_GRANTED}
  {
    FailedPrefix(s);
    CompensatedPrefix(s);
  }

  /** S5: a final status gets the S5_COMPLETED marker. */
  function Complete(req: ClaimRequest): (r: ClaimRequest)
    ensures IsFinal(req.status) ==> r == req.(currentSagaStep := Some(S5_COMPLETED))
    ensures !IsFinal(req.status) ==> r == req
  {
    if IsFinal(req.status) then req.(currentSagaStep := Some(S5_COMPLETED)) else req
  }

  // ---------------------------------------------------------------- the run

  /** `processRewardClaimSaga`: the steps in order; a step that ends the run
      returns before S5. */
  function Saga(req: ClaimRequest, records: Records, events: Events, c: Collaborators, now: int): Outcome {
    var o1 := Validate(req, records, events, c, now);
    if o1.stopped then o1
    else
      var o2 := CheckConditions(o1.req, o1.events, c);
      if o2.stopped then o2
      else
        var o3 := AllocateInventory(o2.req, o2.events);
        if o3.stopped then o3
        else
          var o4 := GrantRewards(o3.req, o3.events, c, now);
          if o4.stopped then o4
          else Outcome(Complete(o4.req), o4.events, false)
  }

  /** Whether the run writes the record at all: some step runs, or S5 does. */
  predicate SagaWrites(req: ClaimRequest) {
    IsPending(req.status) || IsFinal(req.status)
  }

  // ---------------------------------------------------------------- fallback

  /** The `catch` of `processRewardClaimSaga`, applied to the record as last
      saved (`None` when it cannot be re-read): a record whose status has
      neither a SUCCESS_ nor a FAILED_ prefix and is not already awaiting
      manual intervention is forced there, with the error message as reason
      and its step kept (or UNKNOWN_ERROR_STEP_AT_EXCEPTION when it has none). */
  function RecoverFromUnhandledError(reread: Option<ClaimRequest>, message: string): (r: Option<ClaimRequest>)
    ensures r.None? <==> reread.None?
  {
    match reread
    case None => None
    case Some(f) =>
      if !StartsWith(StatusName(f.status), "SUCCESS_") && !StartsWith(StatusName(f.status), "FAILED_")
         && f.status != COMPENSATION_FAILED_MANUAL_INTERVENTION_REQUIRED
      then Some(f.(status := COMPENSATION_FAILED_MANUAL_INTERVENTION_REQUIRED,
                   failureReason := Some(UNHANDLED_ERROR_PREFIX + message),
                   currentSagaStep := Some(if f.currentSagaStep.Some? then f.currentSagaStep.value
                                           else UNKNOWN_ERROR_STEP_AT_EXCEPTION)))
      else reread
  }
}
