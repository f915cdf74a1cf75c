/** The event collection as the claim service writes it. Only two writes
    touch stock: a guarded decrement (`updateOne` with `remainingStock >= 1`
    and `$inc: -1` on the matching reward) and an unguarded increment
    (`$inc: +1`). Each is one atomic single-document update. The positional
    `rewards.$` operator updates the first reward whose id matches. */
module EventStore {
  import opened Wrappers
  import opened RewardSchema
  import opened EventSchema

  type Events = map<EventId, Event>

  /** `rewards.find(r => r._id.equals(id))`: the index of the first reward
      with the id. */
  function FindRewardIndex(rewards: seq<Reward>, id: RewardId): (r: Option<nat>)
    ensures r.Some? ==> r.value < |rewards| && rewards[r.value].id == id
    ensures r.Some? ==> forall j :: 0 <= j < r.value ==> rewards[j].id != id
    ensures r.None? <==> forall j :: 0 <= j < |rewards| ==> rewards[j].id != id
  {
    if |rewards| == 0 then None
    else if rewards[0].id == id then Some(0)
    else match FindRewardIndex(rewards[1..], id)
      case None => None
      case Some(k) => Some(k + 1)
  }

  /** Two reward lists with the same ids at every index. */
  predicate SameIds(a: seq<Reward>, b: seq<Reward>) {
    |a| == |b| && forall k :: 0 <= k < |a| ==> a[k].id == b[k].id
  }

  /** Lookup by id only sees ids, so it agrees on lists with the same ids. */
  lemma FindSameIds(a: seq<Reward>, b: seq<Reward>, id: RewardId)
    requires SameIds(a, b)
    ensures FindRewardIndex(a, id) == FindRewardIndex(b, id)
  {
  }

  /** The event with the remaining stock of its `k`-th reward moved by `d`. */
  function StockDelta(e: Event, k: nat, d: int): Event
    requires k < |e.rewards|
  {
    e.(rewards := e.rewards[k := e.rewards[k].(remainingStock := e.rewards[k].remainingStock + d)])
  }

  /** Two events that differ at most in remaining stock: same fields, same
      reward ids and the same reward definitions apart from `remainingStock`. */
  predicate SameShape(a: Event, b: Event) {
    && a.(rewards := []) == b.(rewards := [])
    && |a.rewards| == |b.rewards|
    && forall k :: 0 <= k < |a.rewards| ==>
         a.rewards[k] == b.rewards[k].(remainingStock := a.rewards[k].remainingStock)
  }

  lemma SameShapeIds(a: Event, b: Event)
    requires SameShape(a, b)
    ensures SameIds(a.rewards, b.rewards)
    ensures forall k :: 0 <= k < |a.rewards| ==> (IsLimited(a.rewards[k]) <==> IsLimited(b.rewards[k]))
  {
    forall k | 0 <= k < |a.rewards|
      ensures a.rewards[k].id == b.rewards[k].id
    {
      assert a.rewards[k] == b.rewards[k].(remainingStock := a.rewards[k].remainingStock);
    }
  }

  /** The filter of the decrement: the event exists and its first reward with
      the id has at least one unit left. */
  predicate CanDecrement(events: Events, eid: EventId, id: RewardId) {
    && eid in events
    && var k := FindRewardIndex(events[eid].rewards, id);
       k.Some? && events[eid].rewards[k.value].remainingStock >= 1
  }

  /** The outcome of a conditional write: the new collection and whether a
      document was modified (`modifiedCount > 0`). */
  datatype Write = Write(events: Events, modified: bool)

  /** The guarded decrement. */
  function Decrement(events: Events, eid: EventId, id: RewardId): Write {
    if CanDecrement(events, eid, id)
    then Write(events[eid := StockDelta(events[eid], FindRewardIndex(events[eid].rewards, id).value, -1)], true)
    else Write(events, false)
  }

  /** The unguarded increment: a missing event or reward matches nothing. */
  function Increment(events: Events, eid: EventId, id: RewardId): Events {
    if eid in events && FindRewardIndex(events[eid].rewards, id).Some?
    then events[eid := StockDelta(events[eid], FindRewardIndex(events[eid].rewards, id).value, 1)]
    else events
  }

  /** The decrement writes exactly when its filter matches; it then takes one
      unit from the first reward with the id and changes nothing else, and
      that reward's stock stays non-negative. */
  lemma DecrementGuarded(events: Events, eid: EventId, id: RewardId)
    ensures Decrement(events, eid, id).modified <==> CanDecrement(events, eid, id)
    ensures !Decrement(events, eid, id).modified ==> Decrement(events, eid, id).events == events
    ensures Decrement(events, eid, id).modified ==>
              var w := Decrement(events, eid, id);
              var k := FindRewardIndex(events[eid].rewards, id).value;
              && w.events.Keys == events.Keys
              && (forall e :: e in events && e != eid ==> w.events[e] == events[e])
              && SameShape(w.events[eid], events[eid])
              && w.events[eid].rewards[k].remainingStock == events[eid].rewards[k].remainingStock - 1 >= 0
              && (forall j :: 0 <= j < |events[eid].rewards| && j != k ==>
                    w.events[eid].rewards[j] == events[eid].rewards[j])
  {
  }

  /** The increment adds one unit to the first reward with the id and changes
      nothing else; it is not capped at `totalStock`. */
  lemma IncrementUncapped(events: Events, eid: EventId, id: RewardId)
    ensures eid !in events || FindRewardIndex(events[eid].rewards, id).None? ==>
              Increment(events, eid, id) == events
    ensures eid in events && FindRewardIndex(events[eid].rewards, id).Some? ==>
              var after := Increment(events, eid, id);
              var k := FindRewardIndex(events[eid].rewards, id).value;
              && after.Keys == events.Keys
              && (forall e :: e in events && e != eid ==> after[e] == events[e])
              && SameShape(after[eid], events[eid])
              && after[eid].rewards[k].remainingStock == events[eid].rewards[k].remainingStock + 1
              && (forall j :: 0 <= j < |events[eid].rewards| && j != k ==> after[eid].rewards[j] == events[eid].rewards[j])
  {
  }

  /** A reward whose stock is already at its total goes above it when
      released. */
  lemma ReleaseCanExceedTotal(events: Events, eid: EventId, id: RewardId)
    requires eid in events && FindRewardIndex(events[eid].rewards, id).Some?
    requires var r := events[eid].rewards[FindRewardIndex(events[eid].rewards, id).value];
             r.totalStock.Some? && r.remainingStock == r.totalStock.value
    ensures var r := events[eid].rewards[FindRewardIndex(events[eid].rewards, id).value];
            var r' := Increment(events, eid, id)[eid].rewards[FindRewardIndex(events[eid].rewards, id).value];
            r'.remainingStock == r.totalStock.value + 1
  {
  }

  /** A successful decrement followed by an increment of the same reward
      restores the collection. */
  lemma DecrementThenIncrement(events: Events, eid: EventId, id: RewardId)
    requires Decrement(events, eid, id).modified
    ensures Increment(Decrement(events, eid, id).events, eid, id) == events
  {
    IncrementUndoes(events, eid, id, events[eid], FindRewardIndex(events[eid].rewards, id).value);
    assert events[eid := events[eid]] == events;
  }

  /** Incrementing a reward just decremented in `e` writes `e` back. */
  lemma IncrementUndoes(events: Events, eid: EventId, id: RewardId, e: Event, k: nat)
    requires k < |e.rewards| && FindRewardIndex(e.rewards, id) == Some(k)
    ensures Increment(events[eid := StockDelta(e, k, -1)], eid, id) == events[eid := e]
  {
    var d := StockDelta(e, k, -1);
    StockDeltaUndone(e, k, -1);
    FindSameIds(d.rewards, e.rewards, id);
    IncrementAt(events[eid := d], eid, id, k);
  }

  /** The successful decrement of a reward found at index `k`. */
  lemma DecrementAt(events: Events, eid: EventId, id: RewardId, k: nat)
    requires eid in events && FindRewardIndex(events[eid].rewards, id) == Some(k)
    requires Decrement(events, eid, id).modified
    ensures Decrement(events, eid, id).events == events[eid := StockDelta(events[eid], k, -1)]
  {
  }

  /** The increment of a reward found at index `k`. */
  lemma IncrementAt(events: Events, eid: EventId, id: RewardId, k: nat)
    requires eid in events && FindRewardIndex(events[eid].rewards, id) == Some(k)
    ensures Increment(events, eid, id) == events[eid := StockDelta(events[eid], k, 1)]
  {
  }

  /** Moving a stock by `d` and back by `-d` restores the event, and neither
      move changes an id. */
  lemma StockDeltaUndone(e: Event, k: nat, d: int)
    requires k < |e.rewards|
    ensures SameIds(StockDelta(e, k, d).rewards, e.rewards)
    ensures StockDelta(StockDelta(e, k, d), k, -d) == e
  {
    var moved := StockDelta(e, k, d);
    assert moved.rewards[k := moved.rewards[k].(remainingStock := e.rewards[k].remainingStock)] == e.rewards;
  }

  /** For every reward of every event, a stock that was non-negative is still
      non-negative afterwards, and no event or reward disappears. */
  predicate NoNewNegatives(before: Events, after: Events) {
    forall eid :: eid in before ==>
      && eid in after
      && |after[eid].rewards| == |before[eid].rewards|
      && forall k :: 0 <= k < |before[eid].rewards| && before[eid].rewards[k].remainingStock >= 0 ==>
           after[eid].rewards[k].remainingStock >= 0
  }

  lemma NoNewNegativesTrans(a: Events, b: Events, c: Events)
    requires NoNewNegatives(a, b) && NoNewNegatives(b, c)
    ensures NoNewNegatives(a, c)
  {
  }

  /** Neither write can make a stock negative. */
  lemma DecrementKeepsStockNonNegative(events: Events, eid: EventId, id: RewardId)
    ensures NoNewNegatives(events, Decrement(events, eid, id).events)
  {
    DecrementGuarded(events, eid, id);
  }

  lemma IncrementKeepsStockNonNegative(events: Events, eid: EventId, id: RewardId)
    ensures NoNewNegatives(events, Increment(events, eid, id))
  {
    IncrementUncapped(events, eid, id);
  }

  /** The collection, updated in place by the two atomic writes. */
  class EventStore {
    var events: Events

    constructor(initial: Events)
      ensures events == initial
    {
      events := initial;
    }

    /** `findById`. */
    method FindById(eid: EventId) returns (e: Option<Event>)
      ensures e.Some? <==> eid in events
      ensures e.Some? ==> e.value == events[eid]
    {
      if eid in events {
        e := Some(events[eid]);
      } else {
        e := None;
      }
    }

    /** The allocation write of step S3: `updateOne` with the filter
        `remainingStock >= 1` and `$inc: -1`. */
    method TryDecrement(eid: EventId, id: RewardId) returns (modified: bool)
      modifies this
      ensures modified <==> CanDecrement(old(events), eid, id)
      ensures Write(events, modified) == Decrement(old(events), eid, id)
    {
      if eid in events {
        var k := FindRewardIndex(events[eid].rewards, id);
        if k.Some? && events[eid].rewards[k.value].remainingStock >= 1 {
          events := events[eid := StockDelta(events[eid], k.value, -1)];
          modified := true;
          return;
        }
      }
      modified := false;
    }

    /** The release write of compensation: `updateOne` with `$inc: +1`. */
    method Release(eid: EventId, id: RewardId)
      modifies this
      ensures events == Increment(old(events), eid, id)
    {
      if eid in events {
        var k := FindRewardIndex(events[eid].rewards, id);
        if k.Some? {
          events := events[eid := StockDelta(events[eid], k.value, 1)];
        }
      }
    }

    /** `save()` of a whole event document under its id. */
    method Save(eid: EventId, e: Event)
      modifies this
      ensures events == old(events)[eid := e]
    {
      events := events[eid := e];
    }

    /** `deleteOne({ _id })`, reporting whether a document was deleted. */
    method Delete(eid: EventId) returns (deleted: bool)
      modifies this
      ensures deleted <==> eid in old(events)
      ensures events == old(events) - {eid}
    {
      deleted := eid in events;
      events := events - {eid};
    }
  }
}
