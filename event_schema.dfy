/** The `Event` document: its status enumeration and defaults, the required
    fields checked on save, and the `isCurrentlyActive` virtual. Dates are
    instants in milliseconds. */
module EventSchema {
  import opened Wrappers
  import opened RewardSchema

  type EventId = string

  /** The free-form `conditions` object (`Mixed`), kept opaque. */
  type Conditions = map<string, string>

  datatype EventStatus = DRAFT | ACTIVE | INACTIVE | EXPIRED | ARCHIVED

  /** The schema's default status. */
  const DEFAULT_EVENT_STATUS: EventStatus := DRAFT

  /** The schema's enumeration, in its order. */
  const EVENT_STATUSES: seq<EventStatus> := [DRAFT, ACTIVE, INACTIVE, EXPIRED, ARCHIVED]

  function EventStatusName(s: EventStatus): string {
    match s
    case DRAFT => "DRAFT"
    case ACTIVE => "ACTIVE"
    case INACTIVE => "INACTIVE"
    case EXPIRED => "EXPIRED"
    case ARCHIVED => "ARCHIVED"
  }

  /** Reading a status string against the enumeration (the whitelist of
      `updateStatus`); `None` for any string outside it. */
  function ParseEventStatus(name: string): (r: Option<EventStatus>)
    ensures r.Some? ==> EventStatusName(r.value) == name
    ensures r.None? ==> forall s :: EventStatusName(s) != name
  {
    if name == "DRAFT" then Some(DRAFT)
    else if name == "ACTIVE" then Some(ACTIVE)
    else if name == "INACTIVE" then Some(INACTIVE)
    else if name == "EXPIRED" then Some(EXPIRED)
    else if name == "ARCHIVED" then Some(ARCHIVED)
    else None
  }

  /** Every status has a name in the enumeration, and reading that name gives
      the status back. */
  lemma EventStatusNameRoundTrip(s: EventStatus)
    ensures ParseEventStatus(EventStatusName(s)) == Some(s)
    ensures s in EVENT_STATUSES
  {
  }

  datatype Event = Event(
    eventName: string,
    description: Option<string>,
    startDate: int,
    endDate: int,
    conditions: Conditions,
    status: EventStatus,
    rewards: seq<Reward>,
    createdBy: string,
    updatedBy: Option<string>)

  /** The validators run on save: `eventName` and `createdBy` are required
      strings (so not empty once trimmed), and every reward passes its own
      validators. `startDate`, `endDate` and `conditions` are always present in
      this model. */
  predicate ValidEvent(e: Event) {
    && e.eventName != ""
    && e.createdBy != ""
    && forall i :: 0 <= i < |e.rewards| ==> ValidReward(e.rewards[i])
  }

  /** The `isCurrentlyActive` virtual: ACTIVE, and `now` within the closed
      window [startDate, endDate]. */
  predicate IsCurrentlyActive(e: Event, now: int) {
    e.status == ACTIVE && e.startDate <= now && e.endDate >= now
  }
}
