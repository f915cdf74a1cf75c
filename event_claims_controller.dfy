/** `EventClaimsController`: the gateway headers a claim needs, the
    comma-separated role header, the 202 answer, and the query parameters of
    the per-user listing with their defaults. */
module ClaimsController {
  import opened Wrappers
  import opened JsStrings
  import opened Paging
  import opened ClaimSchema
  import opened EventSchema
  import opened EventStore
  import opened ClaimLedger
  import opened ClaimSaga
  import opened ClaimService
  import SagaProperties

  /** A request header: absent, or the string sent. */
  type Header = Option<string>

  /** `!value` is true both for an absent header and for an empty one. */
  predicate Present(h: Header) {
    h.Some? && h.value != ""
  }

  /** `.map(role => role.trim())`. */
  function TrimAll(parts: seq<string>): (r: seq<string>)
    ensures |r| == |parts|
    ensures forall j :: 0 <= j < |r| ==> r[j] == Trim(parts[j])
  {
    seq(|parts|, j requires 0 <= j < |parts| => Trim(parts[j]))
  }

  /** `.filter(role => role.length > 0)`: the non-empty strings, in order. */
  function DropEmpty(parts: seq<string>): (r: seq<string>)
    ensures |r| <= |parts|
    ensures forall j :: 0 <= j < |r| ==> r[j] != "" && r[j] in parts
    ensures forall p :: p in parts && p != "" ==> p in r
    ensures (forall j :: 0 <= j < |parts| ==> parts[j] != "") ==> r == parts
  {
    if |parts| == 0 then []
    else if parts[0] != "" then [parts[0]] + DropEmpty(parts[1..])
    else DropEmpty(parts[1..])
  }

  /** `DropEmpty` is the order-keeping filter: one piece is kept exactly
      when it is non-empty, and the pieces kept from a concatenation are
      those kept from its first part followed by those kept from its second. */
  lemma {:induction false} DropEmptyIsFilter(a: seq<string>, b: seq<string>)
    ensures forall x :: DropEmpty([x]) == (if x != "" then [x] else [])
    ensures DropEmpty(a + b) == DropEmpty(a) + DropEmpty(b)
    decreases |a|
  {
    forall x ensures DropEmpty([x]) == (if x != "" then [x] else []) {
      assert [x][1..] == [];
    }
    if |a| == 0 {
      assert a + b == b;
    } else {
      assert (a + b)[0] == a[0];
      assert (a + b)[1..] == a[1..] + b;
      DropEmptyIsFilter(a[1..], b);
    }
  }

  /** Trimming only removes characters. */
  lemma TrimAddsNothing(s: string, c: char)
    requires c !in s
    ensures c !in Trim(s)
  {
    var t := TrimStart(s);
    NotInSlice(s, |s| - |t|, |s|, c);
    assert t == s[|s| - |t|..|s|];
    var r := TrimEnd(t);
    NotInSlice(t, 0, |r|, c);
  }

  /** A character missing from a string is missing from each of its slices. */
  lemma NotInSlice(s: string, lo: nat, hi: nat, c: char)
    requires lo <= hi <= |s| && c !in s
    ensures c !in s[lo..hi]
  {
    forall k | 0 <= k < hi - lo ensures s[lo..hi][k] != c {
      assert s[lo + k] in s;
    }
  }

  /** A role as the header can carry it: non-empty, trimmed, no comma. */
  predicate IsRoleName(role: string) {
    role != "" && IsTrimmed(role) && ',' !in role
  }

  /** The roles read from `X-User-Roles`: split on commas, each piece
      trimmed, empty pieces dropped. */
  function ParseRoles(csv: string): (roles: seq<string>)
  {
    DropEmpty(TrimAll(Split(csv, ',')))
  }

  /** Every role read from the header is a well-formed role name. */
  lemma ParsedRolesAreRoleNames(csv: string)
    ensures forall j :: 0 <= j < |ParseRoles(csv)| ==> IsRoleName(ParseRoles(csv)[j])
  {
    var pieces := Split(csv, ',');
    var trimmed := TrimAll(pieces);
    forall j | 0 <= j < |pieces|
      ensures IsRoleName(trimmed[j]) || trimmed[j] == ""
    {
      assert pieces[j] in pieces;
      TrimIsTrimmed(pieces[j]);
      TrimAddsNothing(pieces[j], ',');
    }
    var roles := DropEmpty(trimmed);
    forall j | 0 <= j < |roles| ensures IsRoleName(roles[j]) {
      var i :| 0 <= i < |trimmed| && trimmed[i] == roles[j];
    }
  }

  /** The header yields no role exactly when every comma-separated piece is
      blank. */
  lemma NoRolesWhenAllBlank(csv: string)
    ensures ParseRoles(csv) == [] <==> forall p :: p in Split(csv, ',') ==> Trim(p) == ""
  {
    var pieces := Split(csv, ',');
    var trimmed := TrimAll(pieces);
    var roles := DropEmpty(trimmed);
    if roles == [] {
      forall p | p in pieces ensures Trim(p) == "" {
        var j :| 0 <= j < |pieces| && pieces[j] == p;
        assert trimmed[j] in trimmed;
      }
    } else {
      assert roles[0] in trimmed;
      var j :| 0 <= j < |trimmed| && trimmed[j] == roles[0];
      assert pieces[j] in pieces;
    }
  }

  /** The gateway sends `user.roles.join(',')`; reading that header gives the
      roles back whenever each of them is a well-formed role name. */
  lemma {:induction false} ParseRolesOfJoin(roles: seq<string>)
    requires forall j :: 0 <= j < |roles| ==> IsRoleName(roles[j])
    ensures ParseRoles(Join(roles, ',')) == roles
  {
    if |roles| == 0 {
      assert Split("", ',') == [""];
      assert TrimAll([""]) == [""];
    } else {
      forall p | p in roles ensures ',' !in p {
        var j :| 0 <= j < |roles| && roles[j] == p;
      }
      SplitJoin(roles, ',');
      forall j | 0 <= j < |roles| ensures Trim(roles[j]) == roles[j] {
        TrimIsTrimmed(roles[j]);
      }
      assert TrimAll(roles) == roles;
    }
  }

  /** The four headers `claimReward` reads. */
  datatype ClaimHeaders = ClaimHeaders(idempotencyKey: Header, userId: Header, userRoles: Header, username: Header)

  /** Why `claimReward` refuses a request before calling the service; each is
      answered with 400. */
  datatype HeaderProblem = MissingIdempotencyKey | MissingUserInfo | NoValidRole

  /** The arguments handed to `initiateClaim`. */
  datatype Caller = Caller(key: RequestId, userId: UserId, roles: seq<string>, username: string)

  /** The header checks, in the handler's order: the idempotency key first,
      then the three user headers together, then the parsed roles. */
  function CheckClaimHeaders(h: ClaimHeaders): (r: Result<Caller, HeaderProblem>)
    ensures r == Failure(MissingIdempotencyKey) <==> !Present(h.idempotencyKey)
    ensures r == Failure(MissingUserInfo) <==>
              Present(h.idempotencyKey) && !(Present(h.userId) && Present(h.userRoles) && Present(h.username))
    ensures r == Failure(NoValidRole) <==>
              Present(h.idempotencyKey) && Present(h.userId) && Present(h.userRoles) && Present(h.username)
              && ParseRoles(h.userRoles.value) == []
    ensures r.Success? ==>
              && r.value.key == h.idempotencyKey.value && r.value.key != ""
              && r.value.userId == h.userId.value && r.value.userId != ""
              && r.value.username == h.username.value && r.value.username != ""
              && r.value.roles == ParseRoles(h.userRoles.value) && |r.value.roles| > 0
  {
    if !Present(h.idempotencyKey) then Failure(MissingIdempotencyKey)
    else if !Present(h.userId) || !Present(h.userRoles) || !Present(h.username) then Failure(MissingUserInfo)
    else
      var roles := ParseRoles(h.userRoles.value);
      if roles == [] then Failure(NoValidRole)
      else Success(Caller(h.idempotencyKey.value, h.userId.value, roles, h.username.value))
  }

  /** Headers as the gateway forwards them for an authenticated user with a
      non-empty list of well-formed roles pass the checks and give back exactly
      that user's key, id, roles and name. */
  lemma GatewayHeadersAccepted(key: RequestId, userId: UserId, roles: seq<string>, username: string)
    requires key != "" && userId != "" && username != ""
    requires |roles| > 0 && forall j :: 0 <= j < |roles| ==> IsRoleName(roles[j])
    ensures CheckClaimHeaders(ClaimHeaders(Some(key), Some(userId), Some(Join(roles, ',')), Some(username)))
            == Success(Caller(key, userId, roles, username))
  {
    var csv := Join(roles, ',');
    ParseRolesOfJoin(roles);
    JoinStartsWithFirst(roles, ',');
    assert |roles[0]| > 0;
    var h := ClaimHeaders(Some(key), Some(userId), Some(csv), Some(username));
    assert Present(h.idempotencyKey) && Present(h.userId) && Present(h.userRoles) && Present(h.username);
    assert ParseRoles(h.userRoles.value) == roles;
  }

  /** A join is at least as long as its first part. */
  lemma JoinStartsWithFirst(parts: seq<string>, sep: char)
    requires |parts| > 0
    ensures |Join(parts, sep)| >= |parts[0]|
  {
  }

  /** The fixed message of the 202 answer. */
  const CLAIM_ACCEPTED_MESSAGE: string := "reward claim accepted and in progress; check the final result separately"

  /** The 202 answer: the key and the status of the record. */
  datatype ClaimResponse = ClaimResponse(message: string, requestId: RequestId, status: string)

  /** The answer built from the record `initiateClaim` returns; no record
      gives 400. */
  function ClaimResponseOf(doc: Option<ClaimRequest>): (r: Result<ClaimResponse, HttpError>)
    ensures r.Failure? <==> doc.None?
    ensures r.Failure? ==> r.error == BadRequest
    ensures r.Success? ==>
              && r.value.message == CLAIM_ACCEPTED_MESSAGE
              && r.value.requestId == doc.value.requestId
              && r.value.status == StatusName(doc.value.status)
              && r.value.status in SCHEMA_STATUS_NAMES
  {
    match doc
    case None => Failure(BadRequest)
    case Some(d) =>
      StatusNameInSchema(d.status);
      Success(ClaimResponse(CLAIM_ACCEPTED_MESSAGE, d.requestId, StatusName(d.status)))
  }

  /** The whole `claimReward` exchange on the ledger and the collection:
      refused headers write nothing; otherwise the answer is built from the
      result of `initiateClaim`. */
  function ClaimRewardSpec(records: Records, events: Events, eventId: EventId, h: ClaimHeaders,
                           isValidId: string -> bool, insert: InsertOutcome, c: Collaborators, now: int)
    : (r: (Result<ClaimResponse, HttpError>, Records, Events))
  {
    match CheckClaimHeaders(h)
    case Failure(_) => (Failure(BadRequest), records, events)
    case Success(caller) =>
      var i := Initiate(records, events, caller.userId, eventId, caller.key, isValidId, insert, c, now);
      match i.result
      case Failure(e) => (Failure(e), i.records, i.events)
      case Success(doc) => (ClaimResponseOf(Some(doc)), i.records, i.events)
  }

  /** The answer to an accepted claim names the idempotency key it was sent
      with, and a claim that created a new record answers with a record the
      saga has already settled: its status is none of the four pending ones.
      Refused headers leave the ledger and the collection as they were. */
  lemma ClaimAnswerNamesKey(records: Records, events: Events, eventId: EventId, h: ClaimHeaders,
                            isValidId: string -> bool, insert: InsertOutcome, c: Collaborators, now: int)
    requires KeyedByRequestId(records)
    requires insert.DuplicateKey? && insert.found.Some? && CheckClaimHeaders(h).Success? ==>
               insert.found.value.requestId == CheckClaimHeaders(h).value.key
    ensures var (r, records', events') := ClaimRewardSpec(records, events, eventId, h, isValidId, insert, c, now);
            && (CheckClaimHeaders(h).Failure? ==> r == Failure(BadRequest) && records' == records && events' == events)
            && (r.Success? ==> r.value.requestId == h.idempotencyKey.value)
    ensures CheckClaimHeaders(h).Success? ==>
              var caller := CheckClaimHeaders(h).value;
              var i := Initiate(records, events, caller.userId, eventId, caller.key, isValidId, insert, c, now);
              i.result.Success? && caller.key !in records && insert.Inserted? ==> !IsPending(i.result.value.status)
  {
    if CheckClaimHeaders(h).Success? {
      var caller := CheckClaimHeaders(h).value;
      var key := caller.key;
      if key !in records && isValidId(eventId) && eventId in events && insert.Inserted? {
        var req := NewRequest(key, caller.userId, eventId, events[eventId]);
        SagaProperties.SagaSettles(req, records[key := req], events, c, now);
      }
    }
  }

  /** A numeric query parameter as it reaches the parameter pipes: the global
      validation pipe has already converted the string with `+value`, so an
      absent parameter and a non-numeric one both arrive as `NaN`; a number
      that `ParseIntPipe` refuses (a fraction, an exponent form, `Infinity`)
      is `NotWhole`. */
  datatype NumericQuery = Absent | NotANumber | Whole(n: int) | NotWhole

  /** `DefaultValuePipe(default)` then `ParseIntPipe`. */
  function IntQuery(q: NumericQuery, default: int): (r: Result<int, HttpError>)
    ensures r.Failure? <==> q.NotWhole?
    ensures r.Failure? ==> r.error == BadRequest
    ensures q.Absent? || q.NotANumber? ==> r == Success(default)
    ensures q.Whole? ==> r == Success(q.n)
  {
    match q
    case Absent => Success(default)
    case NotANumber => Success(default)
    case Whole(n) => Success(n)
    case NotWhole => Failure(BadRequest)
  }

  /** The arguments `getMyClaims` hands to `findByUserId`. */
  datatype ClaimsQuery = ClaimsQuery(userId: UserId, status: Option<string>, page: int, limit: int,
                                     sortBy: string, descending: bool)

  const DEFAULT_PAGE: int := 1
  const DEFAULT_LIMIT: int := 10
  const DEFAULT_SORT_BY: string := "createdAt"
  const DEFAULT_SORT_ORDER: string := "desc"

  /** The parameters of `getMyClaims`: page 1, limit 10, sorted by
      `createdAt` descending unless given; a page or limit the pipe refuses,
      or a missing `X-User-ID`, is 400. The sort is descending exactly when
      the order is `desc`. */
  function ClaimsQueryOf(userId: Header, status: Option<string>, page: NumericQuery, limit: NumericQuery,
                         sortBy: Option<string>, sortOrder: Option<string>): (r: Result<ClaimsQuery, HttpError>)
    ensures r.Failure? <==> page.NotWhole? || limit.NotWhole? || !Present(userId)
    ensures r.Failure? ==> r.error == BadRequest
    ensures r.Success? ==>
              && r.value.userId == userId.value && r.value.status == status
              && r.value.page == (if page.Whole? then page.n else DEFAULT_PAGE)
              && r.value.limit == (if limit.Whole? then limit.n else DEFAULT_LIMIT)
              && r.value.sortBy == (if sortBy.Some? then sortBy.value else DEFAULT_SORT_BY)
              && (r.value.descending <==> sortOrder.None? || sortOrder.value == DEFAULT_SORT_ORDER)
  {
    match IntQuery(page, DEFAULT_PAGE)
    case Failure(e) => Failure(e)
    case Success(p) =>
      match IntQuery(limit, DEFAULT_LIMIT)
      case Failure(e) => Failure(e)
      case Success(l) =>
        if !Present(userId) then Failure(BadRequest)
        else
          var sortKey := if sortBy.Some? then sortBy.value else DEFAULT_SORT_BY;
          var order := if sortOrder.Some? then sortOrder.value else DEFAULT_SORT_ORDER;
          Success(ClaimsQuery(userId.value, status, p, l, sortKey, order == "desc"))
  }

  /** With only the user header given, `getMyClaims` answers with the first
      ten of the user's records in the sort order, the number of all of them,
      page 1, and the page count of ten per page. */
  lemma DefaultClaimsPage(sorted: seq<ClaimRequest>, userId: UserId)
    requires userId != ""
    ensures ClaimsQueryOf(Some(userId), None, Absent, Absent, None, None)
            == Success(ClaimsQuery(userId, None, 1, 10, "createdAt", true))
    ensures var m := Matching(sorted, userId, None);
            var r := FindByUserIdSpec(sorted, userId, None, 1, 10);
            && r.Success?
            && r.value.total == |m| && r.value.currentPage == 1
            && r.value.data == (if |m| <= 10 then m else m[..10])
            && r.value.totalPages == Some((|m| + 9) / 10)
  {
    var m := Matching(sorted, userId, None);
    var r := FindByUserIdSpec(sorted, userId, None, 1, 10);
    assert SkipCount(1, 10) == 0;
    var w := Window(m, 0, 10);
    assert w.Success?;
    assert w.value == (if |m| <= 10 then m else m[..10]);
  }

  class EventClaimsController {
    const service: EventClaimsService

    constructor(service: EventClaimsService)
      ensures this.service == service
    {
      this.service := service;
    }

    /** `POST /event-claims/:eventId/claim`. */
    method ClaimReward(eventId: EventId, h: ClaimHeaders, isValidId: string -> bool, insert: InsertOutcome,
                       c: Collaborators, now: int)
      returns (r: Result<ClaimResponse, HttpError>)
      requires service.ledger.Valid()
      modifies service.ledger, service.store
      ensures service.ledger.Valid()
      ensures (r, service.ledger.records, service.store.events)
              == ClaimRewardSpec(old(service.ledger.records), old(service.store.events), eventId, h,
                                 isValidId, insert, c, now)
    {
      var checked := CheckClaimHeaders(h);
      if checked.Failure? {
        return Failure(BadRequest);
      }
      var caller := checked.value;
      var result := service.InitiateClaim(caller.userId, eventId, caller.key, isValidId, insert, c, now);
      if result.Failure? {
        return Failure(result.error);
      }
      r := ClaimResponseOf(Some(result.value));
    }

    /** `GET /event-claims/me`: the parameters with their defaults, then
        `findByUserId` over the records listed in the requested sort order. */
    method GetMyClaims(userId: Header, status: Option<string>, page: NumericQuery, limit: NumericQuery,
                       sortBy: Option<string>, sortOrder: Option<string>, order: seq<RequestId>)
      returns (r: Result<ClaimPage, HttpError>)
      requires IsOrderOf(order, service.ledger.records)
      ensures match ClaimsQueryOf(userId, status, page, limit, sortBy, sortOrder)
              case Failure(e) => r == Failure(e)
              case Success(q) =>
                r == FindByUserIdSpec(InOrder(order, service.ledger.records), q.userId, q.status, q.page, q.limit)
    {
      var query := ClaimsQueryOf(userId, status, page, limit, sortBy, sortOrder);
      if query.Failure? {
        return Failure(query.error);
      }
      var q := query.value;
      r := service.FindByUserId(q.userId, q.status, q.page, q.limit, order);
    }
  }
}
