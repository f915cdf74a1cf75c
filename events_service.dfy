/** `EventsService`: creating, listing, reading, updating and deleting events
    and setting their status, over the event collection. Event ids that are
    not well-formed ObjectIds make `findById` and `deleteOne` fail with a cast
    error, which is not caught and reaches the client as 500. */
module EventService {
  import opened Wrappers
  import opened JsStrings
  import opened Paging
  import opened RewardSchema
  import opened EventSchema
  import opened EventStore

  /** The fields of a create request. `rewards` is `None` when left out. */
  datatype NewEventInput = NewEventInput(
    eventName: string,
    description: Option<string>,
    startDate: int,
    endDate: int,
    conditions: Conditions,
    rewards: Option<seq<RewardInput>>)

  /** The fields an update supplies; `None` marks a field left out. */
  datatype EventChanges = EventChanges(
    eventName: Option<string>,
    description: Option<string>,
    startDate: Option<int>,
    endDate: Option<int>,
    conditions: Option<Conditions>,
    rewards: Option<seq<RewardInput>>,
    status: Option<EventStatus>)

  /** Casting every element with `f`, stopping at the first failure. */
  function CastAll<A, B>(xs: seq<A>, f: A -> Result<B, HttpError>): (r: Result<seq<B>, HttpError>)
    ensures r.Failure? <==> exists j :: 0 <= j < |xs| && f(xs[j]).Failure?
    ensures r.Failure? ==> exists j :: 0 <= j < |xs| && f(xs[j]) == Failure(r.error)
    ensures r.Success? ==> |r.value| == |xs| && forall j :: 0 <= j < |xs| ==> f(xs[j]) == Success(r.value[j])
  {
    if |xs| == 0 then Success([])
    else match f(xs[0])
      case Failure(e) => Failure(e)
      case Success(first) =>
        match CastAll(xs[1..], f)
        case Failure(e) =>
          assert exists j :: 0 <= j < |xs| && f(xs[j]) == Failure(e) by {
            var j :| 0 <= j < |xs| - 1 && f(xs[1..][j]) == Failure(e);
            assert xs[j + 1] == xs[1..][j];
          }
          Failure(e)
        case Success(rest) => Success([first] + rest)
  }

  /** Supplied rewards cast into new sub-documents; one that fails its
      validators makes the save fail with 500. */
  function NewRewards(inputs: seq<RewardInput>): (r: Result<seq<Reward>, HttpError>)
    ensures r.Failure? <==> exists j :: 0 <= j < |inputs| && NewReward(inputs[j]).Failure?
    ensures r.Failure? ==> r.error == InternalServerError
    ensures r.Success? ==>
              |r.value| == |inputs| && forall j :: 0 <= j < |inputs| ==> NewReward(inputs[j]) == Success(r.value[j])
  {
    CastAll(inputs, NewReward)
  }

  /** The `trim` setter of an optional string field. */
  function TrimField(s: Option<string>): Option<string> {
    match s
    case None => None
    case Some(v) => Some(Trim(v))
  }

  /** `save()`: the document's validators run first, and a failure reaches
      the client as 500. */
  function SaveChecked(e: Event): (r: Result<Event, HttpError>)
    ensures r.Success? <==> ValidEvent(e)
    ensures r.Success? ==> r.value == e
    ensures r.Failure? ==> r.error == InternalServerError
  {
    if ValidEvent(e) then Success(e) else Failure(InternalServerError)
  }

  /** `create`: the end date must come after the start date (400); the event
      is saved as DRAFT with its creator and a new sub-document per supplied
      reward; failed validators give 500 and an id already stored gives the
      duplicate-key error, answered with 409. */
  function CreateEvent(events: Events, newId: EventId, input: NewEventInput, createdBy: string)
    : (r: Result<Event, HttpError>)
    ensures input.endDate <= input.startDate ==> r == Failure(BadRequest)
    ensures r == Failure(Conflict) ==> newId in events
    ensures r.Success? ==>
              && newId !in events
              && ValidEvent(r.value)
              && r.value.status == DRAFT && r.value.createdBy == createdBy && r.value.updatedBy.None?
              && r.value.startDate == input.startDate && r.value.endDate == input.endDate
              && r.value.startDate < r.value.endDate
              && r.value.eventName == Trim(input.eventName)
              && r.value.description == TrimField(input.description)
              && r.value.conditions == input.conditions
              && (input.rewards.None? ==> r.value.rewards == [])
              && (input.rewards.Some? ==> NewRewards(input.rewards.value) == Success(r.value.rewards))
              && forall now :: !IsCurrentlyActive(r.value, now)
  {
    if input.endDate <= input.startDate then Failure(BadRequest)
    else
      var rewards := if input.rewards.Some? then NewRewards(input.rewards.value) else Success([]);
      match rewards
      case Failure(e) => Failure(e)
      case Success(rs) =>
        var e := Event(Trim(input.eventName), TrimField(input.description), input.startDate, input.endDate,
                       input.conditions, DRAFT, rs, createdBy, None);
        match SaveChecked(e)
        case Failure(err) => Failure(err)
        case Success(saved) => if newId in events then Failure(Conflict) else Success(saved)
  }

  /** One page of `findAll`. */
  datatype EventPage = EventPage(data: seq<Event>, total: nat, currentPage: int, totalPages: Option<int>)

  /** The `findAll` filter: the status, when a non-empty status string is
      given. */
  predicate MatchesStatus(e: Event, status: Option<string>) {
    status.None? || status.value == "" || EventStatusName(e.status) == status.value
  }

  /** The matching events, in the order of `sorted`. */
  function MatchingEvents(sorted: seq<Event>, status: Option<string>): (m: seq<Event>)
    ensures |m| <= |sorted|
    ensures forall j :: 0 <= j < |m| ==> MatchesStatus(m[j], status) && m[j] in sorted
    ensures forall j :: 0 <= j < |sorted| && MatchesStatus(sorted[j], status) ==> sorted[j] in m
    ensures status.None? || status.value == "" ==> m == sorted
  {
    if |sorted| == 0 then []
    else if MatchesStatus(sorted[0], status) then [sorted[0]] + MatchingEvents(sorted[1..], status)
    else MatchingEvents(sorted[1..], status)
  }

  /** `MatchingEvents` is the order-keeping filter: one event is kept
      exactly when it matches, and the matches of a concatenation are the
      matches of its first part followed by those of its second. */
  lemma {:induction false} MatchingEventsIsFilter(a: seq<Event>, b: seq<Event>, status: Option<string>)
    ensures forall x :: MatchingEvents([x], status) == (if MatchesStatus(x, status) then [x] else [])
    ensures MatchingEvents(a + b, status) == MatchingEvents(a, status) + MatchingEvents(b, status)
    decreases |a|
  {
    forall x ensures MatchingEvents([x], status) == (if MatchesStatus(x, status) then [x] else []) {
      assert [x][1..] == [];
    }
    if |a| == 0 {
      assert a + b == b;
    } else {
      assert (a + b)[0] == a[0];
      assert (a + b)[1..] == a[1..] + b;
      MatchingEventsIsFilter(a[1..], b, status);
    }
  }

  const DEFAULT_PAGE: int := 1
  const DEFAULT_LIMIT: int := 10

  /** `findAll(status, page = 1, limit = 10)` over the events newest first. */
  function FindAllSpec(sorted: seq<Event>, status: Option<string>, page: Option<int>, limit: Option<int>)
    : (r: Result<EventPage, HttpError>)
    ensures var p := if page.Some? then page.value else DEFAULT_PAGE;
            var l := if limit.Some? then limit.value else DEFAULT_LIMIT;
            var m := MatchingEvents(sorted, status);
            && (r.Failure? <==> SkipCount(p, l) < 0)
            && (r.Failure? ==> r.error == InternalServerError)
            && (r.Success? ==>
                  && r.value.total == |m| && r.value.currentPage == p
                  && r.value.totalPages == TotalPages(|m|, l)
                  && Window(m, SkipCount(p, l), l) == Success(r.value.data)
                  && forall j :: 0 <= j < |r.value.data| ==> MatchesStatus(r.value.data[j], status))
  {
    var p := if page.Some? then page.value else DEFAULT_PAGE;
    var l := if limit.Some? then limit.value else DEFAULT_LIMIT;
    var m := MatchingEvents(sorted, status);
    match Window(m, SkipCount(p, l), l)
    case Failure(e) => Failure(e)
    case Success(data) => Success(EventPage(data, |m|, p, TotalPages(|m|, l)))
  }

  /** The unfiltered first page with the defaults lists the ten newest
      events (or all of them when there are fewer), and the number of pages
      is the least one that covers every event. */
  lemma DefaultEventsPage(sorted: seq<Event>)
    ensures var r := FindAllSpec(sorted, None, None, None);
            && r.Success? && r.value.total == |sorted| && r.value.currentPage == 1
            && r.value.data == (if |sorted| <= 10 then sorted else sorted[..10])
            && r.value.totalPages == Some((|sorted| + 9) / 10)
  {
    var w := Window(sorted, SkipCount(1, 10), 10);
    assert SkipCount(1, 10) == 0;
    assert w.value == (if |sorted| <= 10 then sorted else sorted[..10]);
  }

  /** `findById`: 500 for an id that is not an ObjectId, 404 when nothing is
      stored under it, the stored event otherwise. */
  function FindOneSpec(events: Events, isValidId: string -> bool, id: EventId): (r: Result<Event, HttpError>)
    ensures r.Success? <==> isValidId(id) && id in events
    ensures r.Success? ==> r.value == events[id]
    ensures r.Failure? ==> r.error == (if isValidId(id) then NotFound else InternalServerError)
  {
    if !isValidId(id) then Failure(InternalServerError)
    else if id !in events then Failure(NotFound)
    else Success(events[id])
  }

  /** The three date checks of `update`: both dates supplied and the end not
      after the start; only the start supplied and the stored end not after
      it; only the end supplied and not after the stored start. */
  predicate DatesRejected(existing: Event, ch: EventChanges) {
    || (ch.startDate.Some? && ch.endDate.Some? && ch.endDate.value <= ch.startDate.value)
    || (ch.startDate.Some? && ch.endDate.None? && existing.endDate <= ch.startDate.value)
    || (ch.startDate.None? && ch.endDate.Some? && ch.endDate.value <= existing.startDate)
  }

  /** `Object.assign` of the supplied fields, then `updatedBy`; the supplied
      rewards replace the stored list. */
  function Applied(existing: Event, ch: EventChanges, rewards: seq<Reward>, updatedBy: string): Event {
    existing.(
      eventName := if ch.eventName.Some? then Trim(ch.eventName.value) else existing.eventName,
      description := if ch.description.Some? then TrimField(ch.description) else existing.description,
      startDate := if ch.startDate.Some? then ch.startDate.value else existing.startDate,
      endDate := if ch.endDate.Some? then ch.endDate.value else existing.endDate,
      conditions := if ch.conditions.Some? then ch.conditions.value else existing.conditions,
      status := if ch.status.Some? then ch.status.value else existing.status,
      rewards := rewards,
      updatedBy := Some(updatedBy))
  }

  /** `update`: the lookup (500 or 404), then the date checks (400), then the
      save of the changed event (500 when its validators fail). When a date is
      supplied the update is refused exactly when the resulting end date would
      not come after the resulting start date; fields left out, the creator
      and the stored rewards (unless new ones are supplied) are kept. */
  function UpdateEvent(events: Events, isValidId: string -> bool, id: EventId, ch: EventChanges, updatedBy: string)
    : (r: Result<Event, HttpError>)
    ensures FindOneSpec(events, isValidId, id).Failure? ==> r == FindOneSpec(events, isValidId, id)
    ensures FindOneSpec(events, isValidId, id).Success? && (ch.startDate.Some? || ch.endDate.Some?) ==>
              var start := if ch.startDate.Some? then ch.startDate.value else events[id].startDate;
              var end := if ch.endDate.Some? then ch.endDate.value else events[id].endDate;
              (r == Failure(BadRequest) <==> end <= start)
    ensures r.Success? ==>
              && id in events && ValidEvent(r.value)
              && r.value == Applied(events[id], ch, r.value.rewards, updatedBy)
              && r.value.createdBy == events[id].createdBy && r.value.updatedBy == Some(updatedBy)
              && (ch.rewards.None? ==> r.value.rewards == events[id].rewards)
              && (ch.rewards.Some? ==> NewRewards(ch.rewards.value) == Success(r.value.rewards))
              && (ch.startDate.Some? || ch.endDate.Some? ==> r.value.startDate < r.value.endDate)
              && (ch.startDate.None? && ch.endDate.None? ==>
                    r.value.startDate == events[id].startDate && r.value.endDate == events[id].endDate)
  {
    match FindOneSpec(events, isValidId, id)
    case Failure(e) => Failure(e)
    case Success(existing) =>
      if DatesRejected(existing, ch) then Failure(BadRequest)
      else
        var rewards := if ch.rewards.Some? then NewRewards(ch.rewards.value) else Success(existing.rewards);
        match rewards
        case Failure(e) => Failure(e)
        case Success(rs) => SaveChecked(Applied(existing, ch, rs, updatedBy))
  }

  /** The status strings `updateStatus` accepts, as listed there. */
  const STATUS_WHITELIST: seq<string> := ["DRAFT", "ACTIVE", "INACTIVE", "EXPIRED", "ARCHIVED"]

  /** The whitelist is exactly the names of the schema's status enumeration. */
  lemma WhitelistIsStatusEnumeration(status: string)
    ensures status in STATUS_WHITELIST <==> ParseEventStatus(status).Some?
    ensures status in STATUS_WHITELIST <==> exists s :: EventStatusName(s) == status
  {
    if status in STATUS_WHITELIST {
      EventStatusNameRoundTrip(ParseEventStatus(status).value);
    }
  }

  /** `updateStatus`: the lookup first (500 or 404), then the whitelist
      (400), then the status and `updatedBy` are set and the event is saved.
      An event passing its validators is always saved. */
  function UpdateStatusSpec(events: Events, isValidId: string -> bool, id: EventId, status: string, updatedBy: string)
    : (r: Result<Event, HttpError>)
    ensures FindOneSpec(events, isValidId, id).Failure? ==> r == FindOneSpec(events, isValidId, id)
    ensures FindOneSpec(events, isValidId, id).Success? && status !in STATUS_WHITELIST ==> r == Failure(BadRequest)
    ensures FindOneSpec(events, isValidId, id).Success? && status in STATUS_WHITELIST && ValidEvent(events[id]) ==>
              r.Success?
    ensures r.Success? ==>
              && id in events && status in STATUS_WHITELIST
              && EventStatusName(r.value.status) == status
              && r.value == events[id].(status := r.value.status, updatedBy := Some(updatedBy))
  {
    match FindOneSpec(events, isValidId, id)
    case Failure(e) => Failure(e)
    case Success(ev) =>
      WhitelistIsStatusEnumeration(status);
      match ParseEventStatus(status)
      case None => Failure(BadRequest)
      case Some(s) => SaveChecked(ev.(status := s, updatedBy := Some(updatedBy)))
  }

  /** `remove`: 500 for an id that is not an ObjectId, 404 when nothing was
      deleted. */
  function RemoveSpec(events: Events, isValidId: string -> bool, id: EventId): (r: Result<(), HttpError>)
    ensures r.Success? <==> isValidId(id) && id in events
    ensures r.Failure? ==> r.error == (if isValidId(id) then NotFound else InternalServerError)
  {
    if !isValidId(id) then Failure(InternalServerError)
    else if id !in events then Failure(NotFound)
    else Success(())
  }

  /** Every stored event ends after it starts. */
  predicate DatesOrdered(events: Events) {
    forall id :: id in events ==> events[id].startDate < events[id].endDate
  }

  /** Every write of the service keeps every stored event ending after it
      starts: `create` and `update` check the dates they write, and
      `updateStatus` and `remove` write no date. */
  lemma WritesKeepDatesOrdered(events: Events, isValidId: string -> bool, id: EventId, newId: EventId,
                               input: NewEventInput, ch: EventChanges, status: string, actor: string)
    requires DatesOrdered(events)
    ensures CreateEvent(events, newId, input, actor).Success? ==>
              DatesOrdered(events[newId := CreateEvent(events, newId, input, actor).value])
    ensures UpdateEvent(events, isValidId, id, ch, actor).Success? ==>
              DatesOrdered(events[id := UpdateEvent(events, isValidId, id, ch, actor).value])
    ensures UpdateStatusSpec(events, isValidId, id, status, actor).Success? ==>
              DatesOrdered(events[id := UpdateStatusSpec(events, isValidId, id, status, actor).value])
    ensures DatesOrdered(events - {id})
  {
    if UpdateEvent(events, isValidId, id, ch, actor).Success? {
      assert id in events;
      var e := UpdateEvent(events, isValidId, id, ch, actor).value;
      assert e.startDate < e.endDate;
    }
    if UpdateStatusSpec(events, isValidId, id, status, actor).Success? {
      assert id in events;
    }
  }

  /** Setting an event to ACTIVE makes it claimable exactly within its date
      window, and the update can be repeated without further change. */
  lemma ActivationOpensClaimWindow(events: Events, isValidId: string -> bool, id: EventId, actor: string, now: int)
    requires UpdateStatusSpec(events, isValidId, id, "ACTIVE", actor).Success?
    ensures var e := UpdateStatusSpec(events, isValidId, id, "ACTIVE", actor).value;
            && (IsCurrentlyActive(e, now) <==> e.startDate <= now <= e.endDate)
            && e.startDate == events[id].startDate && e.endDate == events[id].endDate
            && UpdateStatusSpec(events[id := e], isValidId, id, "ACTIVE", actor) == Success(e)
  {
    var e := UpdateStatusSpec(events, isValidId, id, "ACTIVE", actor).value;
    assert e.status == ACTIVE by {
      EventStatusNameRoundTrip(e.status);
    }
  }

  class EventsService {
    const store: EventStore

    constructor(store: EventStore)
      ensures this.store == store
    {
      this.store := store;
    }

    /** `create`. `newId` is the ObjectId the new document receives. */
    method Create(newId: EventId, input: NewEventInput, createdBy: string) returns (r: Result<Event, HttpError>)
      modifies store
      ensures r == CreateEvent(old(store.events), newId, input, createdBy)
      ensures store.events == if r.Success? then old(store.events)[newId := r.value] else old(store.events)
    {
      if input.endDate <= input.startDate {
        return Failure(BadRequest);
      }
      var rewards: seq<Reward> := [];
      if input.rewards.Some? {
        var cast := NewRewards(input.rewards.value);
        if cast.Failure? {
          return Failure(cast.error);
        }
        rewards := cast.value;
      }
      var e := Event(Trim(input.eventName), TrimField(input.description), input.startDate, input.endDate,
                     input.conditions, DRAFT, rewards, createdBy, None);
      if !ValidEvent(e) {
        return Failure(InternalServerError);
      }
      if newId in store.events {
        return Failure(Conflict);
      }
      store.Save(newId, e);
      r := Success(e);
    }

    /** `findAll` over the events listed newest first. */
    method FindAll(status: Option<string>, page: Option<int>, limit: Option<int>, order: seq<EventId>)
      returns (r: Result<EventPage, HttpError>)
      requires IsOrderOf(order, store.events)
      ensures r == FindAllSpec(InOrder(order, store.events), status, page, limit)
    {
      var p := if page.Some? then page.value else DEFAULT_PAGE;
      var l := if limit.Some? then limit.value else DEFAULT_LIMIT;
      var matching := MatchingEvents(InOrder(order, store.events), status);
      var window := Window(matching, SkipCount(p, l), l);
      if window.Failure? {
        return Failure(window.error);
      }
      r := Success(EventPage(window.value, |matching|, p, TotalPages(|matching|, l)));
    }

    /** `findOne`. */
    method FindOne(isValidId: string -> bool, id: EventId) returns (r: Result<Event, HttpError>)
      ensures r == FindOneSpec(store.events, isValidId, id)
    {
      if !isValidId(id) {
        return Failure(InternalServerError);
      }
      var found := store.FindById(id);
      if found.None? {
        return Failure(NotFound);
      }
      r := Success(found.value);
    }

    /** `update`. */
    method Update(isValidId: string -> bool, id: EventId, ch: EventChanges, updatedBy: string)
      returns (r: Result<Event, HttpError>)
      modifies store
      ensures r == UpdateEvent(old(store.events), isValidId, id, ch, updatedBy)
      ensures store.events == if r.Success? then old(store.events)[id := r.value] else old(store.events)
    {
      var found := FindOne(isValidId, id);
      if found.Failure? {
        return found;
      }
      var existing := found.value;
      if DatesRejected(existing, ch) {
        return Failure(BadRequest);
      }
      var rewards := existing.rewards;
      if ch.rewards.Some? {
        var cast := NewRewards(ch.rewards.value);
        if cast.Failure? {
          return Failure(cast.error);
        }
        rewards := cast.value;
      }
      var updated := Applied(existing, ch, rewards, updatedBy);
      if !ValidEvent(updated) {
        return Failure(InternalServerError);
      }
      store.Save(id, updated);
      r := Success(updated);
    }

    /** `remove`. */
    method Remove(isValidId: string -> bool, id: EventId) returns (r: Result<(), HttpError>)
      modifies store
      ensures r == RemoveSpec(old(store.events), isValidId, id)
      ensures store.events == if r.Success? then old(store.events) - {id} else old(store.events)
    {
      if !isValidId(id) {
        return Failure(InternalServerError);
      }
      var deleted := store.Delete(id);
      if !deleted {
        return Failure(NotFound);
      }
      r := Success(());
    }

    /** `updateStatus`. */
    method UpdateStatus(isValidId: string -> bool, id: EventId, status: string, updatedBy: string)
      returns (r: Result<Event, HttpError>)
      modifies store
      ensures r == UpdateStatusSpec(old(store.events), isValidId, id, status, updatedBy)
      ensures store.events == if r.Success? then old(store.events)[id := r.value] else old(store.events)
    {
      var found := FindOne(isValidId, id);
      if found.Failure? {
        return found;
      }
      var parsed := ParseEventStatus(status);
      if parsed.None? {
        WhitelistIsStatusEnumeration(status);
        return Failure(BadRequest);
      }
      var updated := found.value.(status := parsed.value, updatedBy := Some(updatedBy));
      if !ValidEvent(updated) {
        return Failure(InternalServerError);
      }
      store.Save(id, updated);
      r := Success(updated);
    }
  }
}
