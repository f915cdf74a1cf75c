/** Stock accounting of one claim run. While an entry is allocated, granted
    or failed at the grant, it holds a unit of its reward (when that reward is
    limited); the event's remaining stock is then its stock at the start of
    the run minus what the entries hold. Every loop of the saga keeps this
    balance, so the run's effect on the collection can be read off the
    entries it leaves: nothing on an allocation rollback, one unit per
    limited entry on success, and one unit per FAILED_EXTERNAL entry after a
    grant rollback, since those units are never given back. */
module StockAccounting {
  import opened Wrappers
  import opened RewardSchema
  import opened EventSchema
  import opened ClaimSchema
  import opened EventStore
  import opened ClaimLedger
  import opened ClaimSaga
  import opened SagaProperties

  /** The grant statuses that hold their unit of stock. */
  predicate Holds(g: GrantStatus) {
    g == GrantStatus.INVENTORY_ALLOCATED || g == SUCCESS || g == FAILED_EXTERNAL
  }

  /** Whether an entry's reward is the limited reward at index `k` of `base`,
      found as the first reward with the snapshot's id. */
  predicate IsFor(p: ProcessedReward, base: Event, k: nat) {
    var f := FindRewardIndex(base.rewards, p.rewardDetailsSnapshot.id);
    f == Some(k) && IsLimited(base.rewards[k])
  }

  /** The unit of reward `k` an entry holds: one or none. */
  function HoldAt(p: ProcessedReward, base: Event, k: nat): nat {
    if Holds(p.grantStatus) && IsFor(p, base, k) then 1 else 0
  }

  /** The units of reward `k` the entries hold. */
  function Held(entries: seq<ProcessedReward>, base: Event, k: nat): nat {
    if |entries| == 0 then 0 else HoldAt(entries[0], base, k) + Held(entries[1..], base, k)
  }

  /** The units of reward `k` the entries would take if every one of them
      were granted. */
  function Demand(entries: seq<ProcessedReward>, base: Event, k: nat): nat {
    if |entries| == 0 then 0 else (if IsFor(entries[0], base, k) then 1 else 0) + Demand(entries[1..], base, k)
  }

  /** Replacing one entry changes what the entries hold by the difference of
      the two entries. */
  lemma {:induction false} HeldUpdate(entries: seq<ProcessedReward>, j: nat, q: ProcessedReward, base: Event, k: nat)
    requires j < |entries|
    ensures Held(entries[j := q], base, k) + HoldAt(entries[j], base, k) == Held(entries, base, k) + HoldAt(q, base, k)
    decreases |entries|
  {
    if j == 0 {
      assert entries[j := q][1..] == entries[1..];
    } else {
      assert entries[j := q][1..] == entries[1..][j - 1 := q];
      HeldUpdate(entries[1..], j - 1, q, base, k);
    }
  }

  /** Entries none of which holds hold nothing. */
  lemma {:induction false} HeldNothing(entries: seq<ProcessedReward>, base: Event, k: nat)
    requires forall j :: 0 <= j < |entries| ==> !Holds(entries[j].grantStatus)
    ensures Held(entries, base, k) == 0
    decreases |entries|
  {
    if |entries| > 0 {
      HeldNothing(entries[1..], base, k);
    }
  }

  /** Entries every one of which holds hold exactly their demand. */
  lemma {:induction false} HeldEverything(entries: seq<ProcessedReward>, base: Event, k: nat)
    requires forall j :: 0 <= j < |entries| ==> Holds(entries[j].grantStatus)
    ensures Held(entries, base, k) == Demand(entries, base, k)
    decreases |entries|
  {
    if |entries| > 0 {
      HeldEverything(entries[1..], base, k);
    }
  }

  /** The demand only depends on the snapshots. */
  lemma {:induction false} DemandOfSnapshots(a: seq<ProcessedReward>, b: seq<ProcessedReward>, base: Event, k: nat)
    requires SameSnapshots(a, b)
    ensures Demand(a, base, k) == Demand(b, base, k)
    decreases |a|
  {
    if |a| > 0 {
      DemandOfSnapshots(a[1..], b[1..], base, k);
    }
  }

  /** `base` with what the entries hold taken off every reward's stock. */
  function Adjusted(base: Event, entries: seq<ProcessedReward>): (e: Event)
    ensures SameShape(e, base)
  {
    base.(rewards := seq(|base.rewards|, k requires 0 <= k < |base.rewards| =>
            base.rewards[k].(remainingStock := base.rewards[k].remainingStock - Held(entries, base, k))))
  }

  /** The balance: the live collection is the collection at the start of the
      run with the entries' holdings taken off the claimed event. */
  predicate Conserved(base: Events, eid: EventId, entries: seq<ProcessedReward>, live: Events) {
    if eid in base then live == base[eid := Adjusted(base[eid], entries)] else live == base
  }

  /** Entries that hold nothing leave the collection as it was. */
  lemma ConservedWhenNothingHeld(base: Events, eid: EventId, entries: seq<ProcessedReward>, live: Events)
    requires forall j :: 0 <= j < |entries| ==> !Holds(entries[j].grantStatus)
    ensures Conserved(base, eid, entries, live) <==> live == base
  {
    if eid in base {
      var b := base[eid];
      forall k | 0 <= k < |b.rewards|
        ensures Adjusted(b, entries).rewards[k] == b.rewards[k]
      {
        HeldNothing(entries, b, k);
      }
      assert Adjusted(b, entries).rewards == b.rewards;
      assert base[eid := Adjusted(b, entries)] == base;
    }
  }

  // ---------------------------------------------------------------- one entry

  /** Replacing an entry by one that holds the same units keeps the balance. */
  lemma SameHoldingsStep(base: Events, eid: EventId, entries: seq<ProcessedReward>, j: nat, q: ProcessedReward, live: Events)
    requires j < |entries| && Conserved(base, eid, entries, live)
    requires eid in base ==> forall k :: HoldAt(q, base[eid], k) == HoldAt(entries[j], base[eid], k)
    ensures Conserved(base, eid, entries[j := q], live)
  {
    if eid in base {
      var b := base[eid];
      forall k | 0 <= k < |b.rewards|
        ensures Held(entries[j := q], b, k) == Held(entries, b, k)
      {
        HeldUpdate(entries, j, q, b, k);
      }
      assert Adjusted(b, entries[j := q]).rewards == Adjusted(b, entries).rewards;
    }
  }

  /** When the holdings of reward `k0` shrink by `d` and no other holding
      changes, the adjusted event moves by `d` at `k0`. */
  lemma AdjustedShift(b: Event, e1: seq<ProcessedReward>, e2: seq<ProcessedReward>, k0: nat, d: int)
    requires k0 < |b.rewards|
    requires forall k :: 0 <= k < |b.rewards| ==> Held(e1, b, k) - Held(e2, b, k) == (if k == k0 then d else 0)
    ensures Adjusted(b, e2) == StockDelta(Adjusted(b, e1), k0, d)
  {
    assert Adjusted(b, e2).rewards == StockDelta(Adjusted(b, e1), k0, d).rewards;
  }

  /** A write to the claimed event of a balanced collection finds the reward
      where the start of the run had it. */
  lemma LiveIndex(base: Events, eid: EventId, entries: seq<ProcessedReward>, live: Events, id: RewardId)
    requires eid in base && Conserved(base, eid, entries, live)
    ensures eid in live && FindRewardIndex(live[eid].rewards, id) == FindRewardIndex(base[eid].rewards, id)
  {
    SameShapeIds(live[eid], base[eid]);
    FindSameIds(live[eid].rewards, base[eid].rewards, id);
  }

  /** Allocating an entry whose reward is limited, with a successful guarded
      decrement, keeps the balance. */
  lemma TakeStep(base: Events, eid: EventId, entries: seq<ProcessedReward>, j: nat, live: Events)
    requires eid in base && j < |entries| && Conserved(base, eid, entries, live)
    requires !Holds(entries[j].grantStatus)
    requires var f := FindRewardIndex(base[eid].rewards, entries[j].rewardDetailsSnapshot.id);
             f.Some? && IsLimited(base[eid].rewards[f.value])
             && Decrement(live, eid, base[eid].rewards[f.value].id).modified
    ensures var f := FindRewardIndex(base[eid].rewards, entries[j].rewardDetailsSnapshot.id);
            Conserved(base, eid, entries[j := entries[j].(grantStatus := GrantStatus.INVENTORY_ALLOCATED)],
                      Decrement(live, eid, base[eid].rewards[f.value].id).events)
  {
    var b := base[eid];
    var k0 := FindRewardIndex(b.rewards, entries[j].rewardDetailsSnapshot.id).value;
    var after := entries[j := entries[j].(grantStatus := GrantStatus.INVENTORY_ALLOCATED)];
    TakeHeld(entries, j, b, k0);
    AdjustedShift(b, entries, after, k0, -1);
    LiveIndex(base, eid, entries, live, b.rewards[k0].id);
    DecrementAt(live, eid, b.rewards[k0].id, k0);
    assert live[eid := StockDelta(live[eid], k0, -1)] == base[eid := Adjusted(b, after)];
  }

  /** Allocating an entry of the limited reward `k0` raises what the entries
      hold of `k0` by one and of every other reward by nothing. */
  lemma TakeHeld(entries: seq<ProcessedReward>, j: nat, b: Event, k0: nat)
    requires j < |entries| && !Holds(entries[j].grantStatus) && IsFor(entries[j], b, k0)
    ensures forall k :: 0 <= k < |b.rewards| ==>
              Held(entries, b, k) - Held(entries[j := entries[j].(grantStatus := GrantStatus.INVENTORY_ALLOCATED)], b, k)
              == (if k == k0 then -1 else 0)
  {
    var q := entries[j].(grantStatus := GrantStatus.INVENTORY_ALLOCATED);
    forall k | 0 <= k < |b.rewards|
      ensures Held(entries, b, k) - Held(entries[j := q], b, k) == (if k == k0 then -1 else 0)
    {
      HeldUpdate(entries, j, q, b, k);
    }
  }

  /** Rolling back an entry that holds a unit of reward `k0`, with the
      release of that unit, keeps the balance. */
  lemma GiveBackStep(base: Events, eid: EventId, entries: seq<ProcessedReward>, j: nat, k0: nat, live: Events)
    requires eid in base && j < |entries| && Conserved(base, eid, entries, live)
    requires Holds(entries[j].grantStatus) && IsFor(entries[j], base[eid], k0)
    ensures Conserved(base, eid, entries[j := entries[j].(grantStatus := ROLLED_BACK_INVENTORY)],
                      Increment(live, eid, base[eid].rewards[k0].id))
  {
    var b := base[eid];
    var after := entries[j := entries[j].(grantStatus := ROLLED_BACK_INVENTORY)];
    GiveBackHeld(entries, j, b, k0);
    AdjustedShift(b, entries, after, k0, 1);
    LiveIndex(base, eid, entries, live, b.rewards[k0].id);
    IncrementAt(live, eid, b.rewards[k0].id, k0);
    assert live[eid := StockDelta(live[eid], k0, 1)] == base[eid := Adjusted(b, after)];
  }

  /** Rolling back an entry that holds a unit of reward `k0` lowers what the
      entries hold of `k0` by one and of every other reward by nothing. */
  lemma GiveBackHeld(entries: seq<ProcessedReward>, j: nat, b: Event, k0: nat)
    requires j < |entries| && Holds(entries[j].grantStatus) && IsFor(entries[j], b, k0)
    ensures forall k :: 0 <= k < |b.rewards| ==>
              Held(entries, b, k) - Held(entries[j := entries[j].(grantStatus := ROLLED_BACK_INVENTORY)], b, k)
              == (if k == k0 then 1 else 0)
  {
    var q := entries[j].(grantStatus := ROLLED_BACK_INVENTORY);
    forall k | 0 <= k < |b.rewards|
      ensures Held(entries, b, k) - Held(entries[j := q], b, k) == (if k == k0 then 1 else 0)
    {
      HeldUpdate(entries, j, q, b, k);
    }
  }

  /** Rolling back a touched entry, with the release compensation makes,
      keeps the balance. */
  lemma ReleaseStep(base: Events, eid: EventId, entries: seq<ProcessedReward>, j: nat, ev: Event, live: Events,
                    isGrantFailureRollback: bool)
    requires eid in base && j < |entries| && Conserved(base, eid, entries, live)
    requires SameShape(ev, base[eid]) && Touched(entries[j], isGrantFailureRollback)
    ensures var p := entries[j];
            var live' := if Releases(p, ev)
                         then Increment(live, eid, ev.rewards[FindRewardIndex(ev.rewards, p.rewardDetailsSnapshot.id).value].id)
                         else live;
            Conserved(base, eid, entries[j := p.(grantStatus := ROLLED_BACK_INVENTORY)], live')
  {
    var p := entries[j];
    var id := p.rewardDetailsSnapshot.id;
    SameShapeIds(ev, base[eid]);
    FindSameIds(ev.rewards, base[eid].rewards, id);
    if Releases(p, ev) {
      var k0 := FindRewardIndex(ev.rewards, id).value;
      assert ev.rewards[k0].id == base[eid].rewards[k0].id;
      GiveBackStep(base, eid, entries, j, k0, live);
    } else {
      SameHoldingsStep(base, eid, entries, j, p.(grantStatus := ROLLED_BACK_INVENTORY), live);
    }
  }

  // ---------------------------------------------------------------- the loops

  /** The allocation loop keeps the balance, for entries that hold nothing
      when it reaches them. */
  lemma {:induction false} AllocationConserves(base: Events, eid: EventId, entries: seq<ProcessedReward>, i: nat, live: Events)
    requires eid in base && i <= |entries| && Conserved(base, eid, entries, live)
    requires forall j :: i <= j < |entries| ==> !Holds(entries[j].grantStatus)
    ensures var a := AllocateFrom(entries, i, eid, base[eid], live);
      Conserved(base, eid, a.entries, a.events)
    decreases |entries| - i
  {
    if i < |entries| {
      var stop, q, live' := AllocateUnfold(entries, i, eid, base[eid], live);
      var alloc := entries[i := entries[i].(grantStatus := GrantStatus.INVENTORY_ALLOCATED)];
      if stop {
        SameHoldingsStep(base, eid, entries, i, q, live);
      } else {
        var f := FindRewardIndex(base[eid].rewards, entries[i].rewardDetailsSnapshot.id);
        if IsLimited(base[eid].rewards[f.value]) {
          TakeStep(base, eid, entries, i, live);
        } else {
          SameHoldingsStep(base, eid, entries, i, alloc[i], live);
        }
        AllocationConserves(base, eid, alloc, i + 1, live');
      }
    }
  }

  /** Compensation keeps the balance when it looks rewards up in an event
      that differs from the start of the run only in stock. */
  lemma {:induction false} CompensationConserves(base: Events, eid: EventId, entries: seq<ProcessedReward>, i: nat,
                                                 ev: Event, live: Events, isGrantFailureRollback: bool)
    requires eid in base && i <= |entries| && Conserved(base, eid, entries, live) && SameShape(ev, base[eid])
    ensures var r := CompensateFrom(entries, i, eid, ev, live, isGrantFailureRollback);
      Conserved(base, eid, r.entries, r.events)
    decreases |entries| - i
  {
    if i < |entries| {
      var p := entries[i];
      if Touched(p, isGrantFailureRollback) {
        var live' := if Releases(p, ev)
                     then Increment(live, eid, ev.rewards[FindRewardIndex(ev.rewards, p.rewardDetailsSnapshot.id).value].id)
                     else live;
        ReleaseStep(base, eid, entries, i, ev, live, isGrantFailureRollback);
        CompensationConserves(base, eid, entries[i := p.(grantStatus := ROLLED_BACK_INVENTORY)], i + 1, ev, live',
                              isGrantFailureRollback);
      } else {
        CompensationConserves(base, eid, entries, i + 1, ev, live, isGrantFailureRollback);
      }
    }
  }

  /** The grant loop keeps the balance without writing: a granted entry and
      a FAILED_EXTERNAL entry hold what the allocated entry held. */
  lemma {:induction false} GrantConserves(base: Events, eid: EventId, entries: seq<ProcessedReward>, i: nat,
                                          userId: UserId, c: Collaborators, now: int, live: Events)
    requires i <= |entries| && Conserved(base, eid, entries, live)
    ensures Conserved(base, eid, GrantFrom(entries, i, userId, c, now).entries, live)
    decreases |entries| - i
  {
    if i < |entries| {
      var p := entries[i];
      if p.grantStatus == GrantStatus.INVENTORY_ALLOCATED && c.isUserActive(userId, BeforeGrant(i)) {
        var g := c.grantReward(userId, p.rewardDetailsSnapshot);
        if g.success {
          var q := p.(grantStatus := SUCCESS, processedAt := Some(now));
          SameHoldingsStep(base, eid, entries, i, q, live);
          GrantConserves(base, eid, entries[i := q], i + 1, userId, c, now, live);
        } else {
          SameHoldingsStep(base, eid, entries, i, p.(grantStatus := FAILED_EXTERNAL, failureReason := g.failureReason), live);
        }
      } else if p.grantStatus != GrantStatus.INVENTORY_ALLOCATED {
        GrantConserves(base, eid, entries, i + 1, userId, c, now, live);
      }
    }
  }

  // ---------------------------------------------------------------- the steps

  /** S3 keeps the balance for entries that hold nothing. */
  lemma AllocationStepConserves(req: ClaimRequest, events: Events)
    requires forall j :: 0 <= j < |req.rewardsToProcess| ==> !Holds(req.rewardsToProcess[j].grantStatus)
    ensures var o := AllocateInventory(req, events);
      Conserved(events, req.eventId, o.req.rewardsToProcess, o.events)
  {
    ConservedWhenNothingHeld(events, req.eventId, req.rewardsToProcess, events);
    if req.status == PENDING_INVENTORY_ALLOCATION && req.eventId in events {
      var stale := events[req.eventId];
      var a := AllocateFrom(req.rewardsToProcess, 0, req.eventId, stale, events);
      AllocationConserves(events, req.eventId, req.rewardsToProcess, 0, events);
      if !a.allAllocated {
        CompensationConserves(events, req.eventId, a.entries, 0, stale, a.events, false);
      }
    }
  }

  /** S4 keeps the balance. */
  lemma GrantStepConserves(base: Events, req: ClaimRequest, events: Events, c: Collaborators, now: int)
    requires Conserved(base, req.eventId, req.rewardsToProcess, events)
    ensures var o := GrantRewards(req, events, c, now);
      Conserved(base, req.eventId, o.req.rewardsToProcess, o.events)
  {
    if req.status == PENDING_REWARD_GRANT {
      var g := GrantFrom(req.rewardsToProcess, 0, req.userId, c, now);
      GrantConserves(base, req.eventId, req.rewardsToProcess, 0, req.userId, c, now, events);
      if !g.allGranted && req.eventId in events {
        CompensationConserves(base, req.eventId, g.entries, 0, events[req.eventId], events, true);
      }
    }
  }

  /** A whole run keeps the balance, for a record whose entries hold
      nothing at its start (the record `initiateClaim` creates has only
      PENDING entries). */
  lemma SagaConserves(req: ClaimRequest, records: Records, events: Events, c: Collaborators, now: int)
    requires forall j :: 0 <= j < |req.rewardsToProcess| ==> !Holds(req.rewardsToProcess[j].grantStatus)
    ensures var o := Saga(req, records, events, c, now);
      Conserved(events, req.eventId, o.req.rewardsToProcess, o.events)
  {
    var o1 := Validate(req, records, events, c, now);
    var o2 := CheckConditions(o1.req, o1.events, c);
    var o3 := AllocateInventory(o2.req, o2.events);
    ConservedWhenNothingHeld(events, req.eventId, req.rewardsToProcess, events);
    AllocationStepConserves(o2.req, o2.events);
    GrantStepConserves(events, o3.req, o3.events, c, now);
  }

  // ---------------------------------------------------------------- consequences

  /** A run that ends neither SUCCESS_ALL_GRANTED nor FAILED_ROLLED_BACK
      writes no stock at all: S1 and S2 only read, and S3 stops before any
      write when the event is gone. */
  lemma OnlySuccessOrRollbackTouchesStock(req: ClaimRequest, records: Records, events: Events, c: Collaborators, now: int)
    ensures var o := Saga(req, records, events, c, now);
      o.req.status != SUCCESS_ALL_GRANTED && o.req.status != FAILED_ROLLED_BACK ==> o.events == events
  {
  }

  /** Entries that held nothing, allocated up to a failure and then rolled
      back, hold nothing again. */
  lemma RolledBackHoldsNothing(entries: seq<ProcessedReward>, after: seq<ProcessedReward>, rolled: seq<ProcessedReward>)
    requires forall j :: 0 <= j < |entries| ==> !Holds(entries[j].grantStatus)
    requires AllocatedUpToFailure(entries, after, 0, false)
    requires |rolled| == |after|
    requires forall j :: 0 <= j < |after| ==>
               rolled[j] == if Touched(after[j], false) then after[j].(grantStatus := ROLLED_BACK_INVENTORY) else after[j]
    ensures forall j :: 0 <= j < |rolled| ==> !Holds(rolled[j].grantStatus)
  {
    var f :| 0 <= f < |entries|
      && (after[f].grantStatus == FAILED_OUT_OF_STOCK || after[f].grantStatus == FAILED_INVENTORY_ERROR)
      && (forall j :: 0 <= j < f ==> after[j].grantStatus == GrantStatus.INVENTORY_ALLOCATED)
      && (forall j :: f < j < |entries| ==> after[j] == entries[j]);
    forall j | 0 <= j < |rolled|
      ensures !Holds(rolled[j].grantStatus)
    {
      if j > f {
        assert after[j] == entries[j];
      }
    }
  }

  /** An allocation failure gives back everything allocated: the entries end
      holding nothing and the collection is as before S3. */
  lemma AllocationRollbackRestoresStock(req: ClaimRequest, events: Events)
    requires req.status == PENDING_INVENTORY_ALLOCATION
    requires forall j :: 0 <= j < |req.rewardsToProcess| ==> !Holds(req.rewardsToProcess[j].grantStatus)
    ensures var o := AllocateInventory(req, events);
      o.stopped ==> (&& o.events == events
                     && forall j :: 0 <= j < |o.req.rewardsToProcess| ==> !Holds(o.req.rewardsToProcess[j].grantStatus))
  {
    var o := AllocateInventory(req, events);
    if o.stopped && req.eventId in events {
      var stale := events[req.eventId];
      var a := AllocateFrom(req.rewardsToProcess, 0, req.eventId, stale, events);
      var comp := CompensateFrom(a.entries, 0, req.eventId, stale, a.events, false);
      AllocationShape(req.rewardsToProcess, 0, req.eventId, stale, events);
      CompensationShape(a.entries, 0, req.eventId, stale, a.events, false);
      RolledBackHoldsNothing(req.rewardsToProcess, a.entries, comp.entries);
      AllocationStepConserves(req, events);
      ConservedWhenNothingHeld(events, req.eventId, o.req.rewardsToProcess, o.events);
    }
  }

  /** A run rolled back in S3 leaves the collection as it found it. */
  lemma AllocationRollbackLeavesNoTrace(req: ClaimRequest, records: Records, events: Events, c: Collaborators, now: int)
    requires forall j :: 0 <= j < |req.rewardsToProcess| ==> !Holds(req.rewardsToProcess[j].grantStatus)
    ensures var o := Saga(req, records, events, c, now);
      o.req.status == FAILED_ROLLED_BACK && o.req.currentSagaStep == Some(S3_ALLOCATE_INVENTORY) ==> o.events == events
  {
    var o1 := Validate(req, records, events, c, now);
    var o2 := CheckConditions(o1.req, o1.events, c);
    if o2.req.status == PENDING_INVENTORY_ALLOCATION {
      AllocationRollbackRestoresStock(o2.req, o2.events);
    }
  }

  /** After a grant rollback with the event present, the only entries still
      holding stock are the FAILED_EXTERNAL ones: every allocated or granted
      unit has been given back, and the unit of the failed grant has not. */
  lemma GrantRollbackKeepsFailedGrantUnits(req: ClaimRequest, records: Records, events: Events, c: Collaborators, now: int)
    requires forall j :: 0 <= j < |req.rewardsToProcess| ==> !Holds(req.rewardsToProcess[j].grantStatus)
    requires req.eventId in events
    ensures var o := Saga(req, records, events, c, now);
      o.req.status == FAILED_ROLLED_BACK && o.req.currentSagaStep == Some(S4_GRANT_REWARDS) ==>
        && Conserved(events, req.eventId, o.req.rewardsToProcess, o.events)
        && forall j :: 0 <= j < |o.req.rewardsToProcess| && Holds(o.req.rewardsToProcess[j].grantStatus) ==>
             o.req.rewardsToProcess[j].grantStatus == FAILED_EXTERNAL
  {
    var o := Saga(req, records, events, c, now);
    SagaConserves(req, records, events, c, now);
    if o.req.status == FAILED_ROLLED_BACK && o.req.currentSagaStep == Some(S4_GRANT_REWARDS) {
      var mid := RolledBackInGrant(req, records, events, c, now);
      GrantFailureRollsBackEveryHeldEntry(mid.req, mid.events, c, now);
    }
  }

  /** A run rolled back in S4 is the grant step's outcome on a record that
      S3 left at PENDING_REWARD_GRANT, with the event still present. */
  lemma RolledBackInGrant(req: ClaimRequest, records: Records, events: Events, c: Collaborators, now: int)
    returns (mid: Outcome)
    requires forall j :: 0 <= j < |req.rewardsToProcess| ==> !Holds(req.rewardsToProcess[j].grantStatus)
    requires req.eventId in events
    requires Saga(req, records, events, c, now).req.status == FAILED_ROLLED_BACK
    requires Saga(req, records, events, c, now).req.currentSagaStep == Some(S4_GRANT_REWARDS)
    ensures mid.req.status == PENDING_REWARD_GRANT && mid.req.eventId in mid.events
    ensures GrantRewards(mid.req, mid.events, c, now).stopped
    ensures Saga(req, records, events, c, now) == GrantRewards(mid.req, mid.events, c, now)
  {
    var pre;
    pre, mid := GrantRollbackStages(req, records, events, c, now);
    AllocationKeepsEvent(pre.req, pre.events);
  }

  /** The outcomes of S2 and S3 in a run rolled back in S4. */
  lemma GrantRollbackStages(req: ClaimRequest, records: Records, events: Events, c: Collaborators, now: int)
    returns (pre: Outcome, mid: Outcome)
    requires Saga(req, records, events, c, now).req.status == FAILED_ROLLED_BACK
    requires Saga(req, records, events, c, now).req.currentSagaStep == Some(S4_GRANT_REWARDS)
    ensures pre.events == events && pre.req.eventId == req.eventId && pre.req.rewardsToProcess == req.rewardsToProcess
    ensures mid == AllocateInventory(pre.req, pre.events) && mid.req.status == PENDING_REWARD_GRANT
    ensures Saga(req, records, events, c, now) == GrantRewards(mid.req, mid.events, c, now)
  {
    var o1 := Validate(req, records, events, c, now);
    pre := CheckConditions(o1.req, o1.events, c);
    mid := AllocateInventory(pre.req, pre.events);
  }

  /** S3 never removes the claimed event. */
  lemma AllocationKeepsEvent(req: ClaimRequest, events: Events)
    requires forall j :: 0 <= j < |req.rewardsToProcess| ==> !Holds(req.rewardsToProcess[j].grantStatus)
    requires req.eventId in events
    ensures req.eventId in AllocateInventory(req, events).events
  {
    AllocationStepConserves(req, events);
  }

  /** A successful run takes, from each limited reward of the event, exactly
      one unit per entry for it, and changes nothing else in the collection. */
  lemma SuccessTakesOneUnitPerEntry(req: ClaimRequest, records: Records, events: Events, c: Collaborators, now: int)
    requires IsPending(req.status)
    requires forall j :: 0 <= j < |req.rewardsToProcess| ==> !Holds(req.rewardsToProcess[j].grantStatus)
    requires req.eventId in events
    ensures var o := Saga(req, records, events, c, now);
      o.req.status == SUCCESS_ALL_GRANTED ==>
        && req.eventId in o.events
        && o.events == events[req.eventId := o.events[req.eventId]]
        && SameShape(o.events[req.eventId], events[req.eventId])
        && forall k :: 0 <= k < |events[req.eventId].rewards| ==>
             o.events[req.eventId].rewards[k].remainingStock
             == events[req.eventId].rewards[k].remainingStock - Demand(req.rewardsToProcess, events[req.eventId], k)
  {
    var o := Saga(req, records, events, c, now);
    if o.req.status == SUCCESS_ALL_GRANTED {
      var b := events[req.eventId];
      SagaConserves(req, records, events, c, now);
      SagaKeepsSnapshots(req, records, events, c, now);
      SuccessGrantsEveryEntry(req, records, events, c, now);
      forall k | 0 <= k < |b.rewards|
        ensures Held(o.req.rewardsToProcess, b, k) == Demand(req.rewardsToProcess, b, k)
      {
        HeldEverything(o.req.rewardsToProcess, b, k);
        DemandOfSnapshots(o.req.rewardsToProcess, req.rewardsToProcess, b, k);
      }
    }
  }

  // ---------------------------------------------------------------- no negative stock

  /** The allocation loop never makes a stock negative. */
  lemma {:induction false} AllocationKeepsStockNonNegative(entries: seq<ProcessedReward>, i: nat, eid: EventId, stale: Event, events: Events)
    requires i <= |entries|
    ensures NoNewNegatives(events, AllocateFrom(entries, i, eid, stale, events).events)
    decreases |entries| - i
  {
    if i < |entries| {
      var stop, q, events' := AllocateUnfold(entries, i, eid, stale, events);
      if !stop {
        var f := FindRewardIndex(stale.rewards, entries[i].rewardDetailsSnapshot.id);
        DecrementKeepsStockNonNegative(events, eid, stale.rewards[f.value].id);
        AllocationKeepsStockNonNegative(entries[i := entries[i].(grantStatus := GrantStatus.INVENTORY_ALLOCATED)], i + 1, eid, stale, events');
        NoNewNegativesTrans(events, events', AllocateFrom(entries, i, eid, stale, events).events);
      }
    }
  }

  /** Compensation never makes a stock negative. */
  lemma {:induction false} CompensationKeepsStockNonNegative(entries: seq<ProcessedReward>, i: nat, eid: EventId, ev: Event,
                                                             events: Events, isGrantFailureRollback: bool)
    requires i <= |entries|
    ensures NoNewNegatives(events, CompensateFrom(entries, i, eid, ev, events, isGrantFailureRollback).events)
    decreases |entries| - i
  {
    if i < |entries| {
      var p := entries[i];
      if Touched(p, isGrantFailureRollback) {
        var events' := if Releases(p, ev)
                       then Increment(events, eid, ev.rewards[FindRewardIndex(ev.rewards, p.rewardDetailsSnapshot.id).value].id)
                       else events;
        if Releases(p, ev) {
          IncrementKeepsStockNonNegative(events, eid, ev.rewards[FindRewardIndex(ev.rewards, p.rewardDetailsSnapshot.id).value].id);
        }
        CompensationKeepsStockNonNegative(entries[i := p.(grantStatus := ROLLED_BACK_INVENTORY)], i + 1, eid, ev, events',
                                          isGrantFailureRollback);
        NoNewNegativesTrans(events, events', CompensateFrom(entries, i, eid, ev, events, isGrantFailureRollback).events);
      } else {
        CompensationKeepsStockNonNegative(entries, i + 1, eid, ev, events, isGrantFailureRollback);
      }
    }
  }

  /** S3 never makes a stock negative. */
  lemma AllocationStepKeepsStockNonNegative(req: ClaimRequest, events: Events)
    ensures NoNewNegatives(events, AllocateInventory(req, events).events)
  {
    var eid := req.eventId;
    if req.status == PENDING_INVENTORY_ALLOCATION && eid in events {
      var a := AllocateFrom(req.rewardsToProcess, 0, eid, events[eid], events);
      AllocationKeepsStockNonNegative(req.rewardsToProcess, 0, eid, events[eid], events);
      CompensationKeepsStockNonNegative(a.entries, 0, eid, events[eid], a.events, false);
      NoNewNegativesTrans(events, a.events, CompensateFrom(a.entries, 0, eid, events[eid], a.events, false).events);
    }
  }

  /** S4 never makes a stock negative. */
  lemma GrantStepKeepsStockNonNegative(req: ClaimRequest, events: Events, c: Collaborators, now: int)
    ensures NoNewNegatives(events, GrantRewards(req, events, c, now).events)
  {
    if req.status == PENDING_REWARD_GRANT && req.eventId in events {
      var g := GrantFrom(req.rewardsToProcess, 0, req.userId, c, now);
      CompensationKeepsStockNonNegative(g.entries, 0, req.eventId, events[req.eventId], events, true);
    }
  }

  /** No run makes a non-negative stock negative or loses an event or a
      reward. */
  lemma SagaKeepsStockNonNegative(req: ClaimRequest, records: Records, events: Events, c: Collaborators, now: int)
    ensures NoNewNegatives(events, Saga(req, records, events, c, now).events)
  {
    var o1 := Validate(req, records, events, c, now);
    var o2 := CheckConditions(o1.req, o1.events, c);
    var o3 := AllocateInventory(o2.req, o2.events);
    var o4 := GrantRewards(o3.req, o3.events, c, now);
    AllocationStepKeepsStockNonNegative(o2.req, o2.events);
    GrantStepKeepsStockNonNegative(o3.req, o3.events, c, now);
    NoNewNegativesTrans(events, o3.events, o4.events);
  }
}
