/** The `UserRewardRequest` collection. `requestId` is required and carries
    a unique index, so the collection is a map keyed by it; the compound
    index on (userId, eventId, requestId) is unique as a consequence. */
module ClaimLedger {
  import opened Wrappers
  import opened EventSchema
  import opened ClaimSchema

  type Records = map<RequestId, ClaimRequest>

  /** Every record is stored under its own `requestId`. */
  predicate KeyedByRequestId(records: Records) {
    forall k :: k in records ==> records[k].requestId == k
  }

  /** The compound (userId, eventId, requestId) index declared unique: two
      records that agree on the triple are the same record, because they
      agree on `requestId`. */
  lemma TripleIsUnique(records: Records, k1: RequestId, k2: RequestId)
    requires KeyedByRequestId(records)
    requires k1 in records && k2 in records
    requires records[k1].userId == records[k2].userId
    requires records[k1].eventId == records[k2].eventId
    requires records[k1].requestId == records[k2].requestId
    ensures k1 == k2 && records[k1] == records[k2]
  {
  }

  /** The query of step S1: a record of the user for the event whose status is
      SUCCESS_ALL_GRANTED. */
  predicate AlreadyClaimed(records: Records, userId: UserId, eventId: EventId) {
    exists k :: k in records && records[k].userId == userId && records[k].eventId == eventId
                && records[k].status == SUCCESS_ALL_GRANTED
  }

  /** At most one successful claim per (user, event). */
  predicate AtMostOneSuccess(records: Records) {
    forall k1, k2 :: k1 in records && k2 in records
      && records[k1].status == SUCCESS_ALL_GRANTED && records[k2].status == SUCCESS_ALL_GRANTED
      && records[k1].userId == records[k2].userId && records[k1].eventId == records[k2].eventId
      ==> k1 == k2
  }

  /** Writing a record under its own key keeps the map keyed by request id,
      and keeps at most one success per (user, event) when the record is not a
      success or when no other record of that user and event is one. */
  lemma SaveKeepsInvariants(records: Records, r: ClaimRequest)
    requires KeyedByRequestId(records) && AtMostOneSuccess(records)
    requires r.status == SUCCESS_ALL_GRANTED ==>
               !AlreadyClaimed(records - {r.requestId}, r.userId, r.eventId)
    ensures KeyedByRequestId(records[r.requestId := r])
    ensures AtMostOneSuccess(records[r.requestId := r])
  {
    if r.status == SUCCESS_ALL_GRANTED {
      forall k | k in records && k != r.requestId && records[k].userId == r.userId && records[k].eventId == r.eventId
        ensures records[k].status != SUCCESS_ALL_GRANTED
      {
        assert k in records - {r.requestId};
      }
    }
  }

  /** A second write under the same key replaces the first. */
  lemma OverwriteTwice(records: Records, k: RequestId, a: ClaimRequest, b: ClaimRequest)
    ensures records[k := a][k := b] == records[k := b]
  {
  }

  /** The collection, written one whole record at a time. */
  class Ledger {
    var records: Records

    ghost predicate Valid()
      reads this
    {
      KeyedByRequestId(records)
    }

    constructor(initial: Records)
      requires KeyedByRequestId(initial)
      ensures records == initial && Valid()
    {
      records := initial;
    }

    /** `findOne({ requestId })`. */
    method FindOne(requestId: RequestId) returns (r: Option<ClaimRequest>)
      requires Valid()
      ensures r.Some? <==> requestId in records
      ensures r.Some? ==> r.value == records[requestId] && r.value.requestId == requestId
    {
      if requestId in records {
        r := Some(records[requestId]);
      } else {
        r := None;
      }
    }

    /** `findOne({ userId, eventId, status: 'SUCCESS_ALL_GRANTED' })`,
        reduced to whether such a record exists. */
    method HasSuccessfulClaim(userId: UserId, eventId: EventId) returns (found: bool)
      ensures found <==> AlreadyClaimed(records, userId, eventId)
    {
      found := exists k :: k in records && records[k].userId == userId && records[k].eventId == eventId
                           && records[k].status == SUCCESS_ALL_GRANTED;
    }

    /** `save()`: the whole record is written under its key. */
    method Save(r: ClaimRequest)
      requires Valid()
      modifies this
      ensures records == old(records)[r.requestId := r]
      ensures Valid()
    {
      records := records[r.requestId := r];
    }
  }
}
