/** The skip/limit paging shared by `EventsService.findAll` and
    `EventClaimsService.findByUserId`: `skip = (page - 1) * limit`, a MongoDB
    `skip`/`limit` window over the sorted matches, and
    `totalPages = Math.ceil(total / limit)`. */
module Paging {
  import opened Wrappers

  /** `(page - 1) * limit`, the number of matches skipped. */
  function SkipCount(page: int, limit: int): int {
    (page - 1) * limit
  }

  /** `Math.ceil(total / limit)`. For `limit == 0` the JavaScript value is
      `Infinity` (or `NaN` when `total` is 0), which is not an integer: `None`. */
  function TotalPages(total: nat, limit: int): (r: Option<int>)
    ensures r.None? <==> limit == 0
    // the ceiling of the real quotient total / limit: r - 1 < total / limit <= r
    ensures limit > 0 ==> r.Some? && (r.value - 1) * limit < total <= r.value * limit
    ensures limit < 0 ==> r.Some? && r.value * limit <= total < (r.value - 1) * limit
  {
    if limit == 0 then None
    else if limit > 0 then Some((total + limit - 1) / limit)
    else Some(-(total / -limit))
  }

  /** MongoDB's reading of `.limit(n)`: 0 means no limit, a negative `n` returns
      at most `-n` documents (in a single batch). */
  function LimitCap(limit: int): (cap: Option<nat>)
    ensures cap.None? <==> limit == 0
    ensures cap.Some? ==> cap.value == (if limit < 0 then -limit else limit)
  {
    if limit == 0 then None else if limit < 0 then Some(-limit) else Some(limit)
  }

  /** `.skip(skip).limit(limit)` over the sorted matches. MongoDB rejects a
      negative skip; the error is not caught and reaches the client as 500. */
  function Window<T>(items: seq<T>, skip: int, limit: int): (r: Result<seq<T>, HttpError>)
    ensures r.Failure? <==> skip < 0
    ensures r.Failure? ==> r.error == InternalServerError
    ensures r.Success? ==>
      var start := if skip < |items| then skip else |items|;
      var cap := LimitCap(limit);
      && |r.value| == (if cap.Some? && cap.value < |items| - start then cap.value else |items| - start)
      && forall j :: 0 <= j < |r.value| ==> r.value[j] == items[start + j]
  {
    if skip < 0 then Failure(InternalServerError)
    else
      var rest := if skip < |items| then items[skip..] else [];
      match LimitCap(limit)
      case None => Success(rest)
      case Some(cap) => Success(if cap < |rest| then rest[..cap] else rest)
  }

  /** A sort order of a collection: every stored key once, and nothing else.
      The order itself (by `createdAt` or the requested field) is not
      modelled; it is given. */
  predicate IsOrderOf<K, V>(order: seq<K>, m: map<K, V>) {
    && (forall j :: 0 <= j < |order| ==> order[j] in m)
    && (forall k :: k in m ==> k in order)
    && (forall i, j :: 0 <= i < j < |order| ==> order[i] != order[j])
  }

  /** The documents listed in the order given. */
  function InOrder<K, V>(order: seq<K>, m: map<K, V>): (sorted: seq<V>)
    requires forall j :: 0 <= j < |order| ==> order[j] in m
    ensures |sorted| == |order| && forall j :: 0 <= j < |order| ==> sorted[j] == m[order[j]]
  {
    seq(|order|, j requires 0 <= j < |order| => m[order[j]])
  }

  /** For a positive limit and a page from 1 on, the page holds matches
      exactly up to the last page `totalPages`, and every page before the last
      is full. */
  lemma {:induction false} PagesEndAtTotalPages<T>(items: seq<T>, page: int, limit: int)
    requires page >= 1 && limit > 0
    ensures Window(items, SkipCount(page, limit), limit).Success?
    ensures TotalPages(|items|, limit).Some?
    ensures |Window(items, SkipCount(page, limit), limit).value| > 0 <==> page <= TotalPages(|items|, limit).value
    ensures page < TotalPages(|items|, limit).value ==> |Window(items, SkipCount(page, limit), limit).value| == limit
  {
    var n := |items|;
    var t := TotalPages(n, limit).value;
    var skip := SkipCount(page, limit);
    assert skip >= 0 by { MulNonNegative(page - 1, limit); }
    if page <= t {
      MulMonotone(page - 1, t - 1, limit);
    } else {
      MulMonotone(t, page - 1, limit);
    }
    if page < t {
      MulMonotone(page, t - 1, limit);
      assert page * limit == skip + limit;
    }
  }

  lemma MulNonNegative(a: int, b: int)
    requires a >= 0 && b >= 0
    ensures a * b >= 0
  {
  }

  lemma MulMonotone(a: int, b: int, c: int)
    requires a <= b && c >= 0
    ensures a * c <= b * c
  {
    MulNonNegative(b - a, c);
    assert b * c - a * c == (b - a) * c;
  }
}
