/**
 * `POST /api/v2/complaints/content`: after the id checks, the response is
 * looked up in a two-minute cache; on a miss the dataset's complaints whose
 * id is among the valid ids are sorted newest first, one page is cut out,
 * and the response is cached.
 */
module ComplaintContentListRoute {
  import opened Wrappers
  import Sorting
  import opened ComplaintApi
  import opened ComplaintContent
  import opened TtlCache

  /** `CONVERTED_COMPLAINTS.filter((c) => validIds.includes(c.id))`, in data order. */
  function WithIds(data: seq<Record>, validIds: seq<int>): (r: seq<Record>)
    ensures forall c :: c in r <==> c in data && c.id in validIds
    ensures |r| <= |data|
  {
    if data == [] then []
    else if data[0].id in validIds then [data[0]] + WithIds(data[1..], validIds)
    else WithIds(data[1..], validIds)
  }

  /** The matching records, newest first. */
  function Selected(data: seq<Record>, validIds: seq<int>, time: string -> int): (r: seq<Record>)
    ensures multiset(r) == multiset(WithIds(data, validIds))
  {
    SortNewestFirst(WithIds(data, validIds), time)
  }

  /** Exactly the records of the data whose id is valid are selected, newest first. */
  lemma {:induction false} SelectedSpec(data: seq<Record>, validIds: seq<int>, time: string -> int)
    ensures var r := Selected(data, validIds, time);
      (forall c :: c in r <==> c in data && c.id in validIds) &&
      Sorting.SortedBy(r, NewestFirst(time)) &&
      |r| == |WithIds(data, validIds)|
  {
    var r := Selected(data, validIds, time);
    assert forall c :: c in r <==> c in multiset(WithIds(data, validIds));
    assert |r| == |multiset(r)|;
  }

  /** The page served on a cache miss. */
  function Respond(page: int, limit: int, validIds: seq<int>, data: seq<Record>, time: string -> int): ContentPage {
    var sorted := Selected(data, validIds, time);
    var w := Paginate(sorted, Some(page), Some(limit));
    ContentPage(Rows(w.items), |sorted|, page, limit, w.hasMore)
  }

  /**
   * For page ≥ 1 and limit ≥ 0: `totalCount` is the number of matching
   * records, at most `limit` rows are returned, and `hasMore` says that
   * matching records remain beyond the page.
   */
  lemma {:induction false} RespondWindow(page: int, limit: int, validIds: seq<int>, data: seq<Record>, time: string -> int)
    requires page >= 1 && limit >= 0
    ensures var resp := Respond(page, limit, validIds, data, time);
      resp.totalCount == |Selected(data, validIds, time)| &&
      |resp.complaints| <= limit &&
      (resp.hasMore <==> (page - 1) * limit + limit < resp.totalCount)
  {
    PaginateSpec(Selected(data, validIds, time), page, limit);
  }

  /** The rows are the matching records from position `skip` on, newest first. */
  lemma {:induction false} RespondRows(page: int, limit: int, validIds: seq<int>, data: seq<Record>, time: string -> int)
    requires page >= 1 && limit >= 0
    ensures var resp := Respond(page, limit, validIds, data, time);
      var sorted := Selected(data, validIds, time);
      var skip := (page - 1) * limit;
      skip >= 0 &&
      (resp.complaints != [] ==>
         skip + |resp.complaints| <= |sorted| && resp.complaints == Rows(sorted[skip..skip + |resp.complaints|]))
  {
    SkipOf(page, limit);
    var sorted := Selected(data, validIds, time);
    RespondIsPage(page, limit, validIds, data, time);
    PageRecords(sorted, page, limit);
    var w := Paginate(sorted, Some(page), Some(limit));
    assert |Rows(w.items)| == |w.items|;
  }

  lemma {:induction false} RespondIsPage(page: int, limit: int, validIds: seq<int>, data: seq<Record>, time: string -> int)
    ensures Respond(page, limit, validIds, data, time).complaints
         == Rows(Paginate(Selected(data, validIds, time), Some(page), Some(limit)).items)
  {
  }

  lemma {:induction false} PageRecords(sorted: seq<Record>, page: int, limit: int)
    requires page >= 1 && limit >= 0
    ensures var skip := (page - 1) * limit;
      var w := Paginate(sorted, Some(page), Some(limit));
      skip >= 0 && (w.items != [] ==> skip + |w.items| <= |sorted| && Rows(w.items) == Rows(sorted[skip..skip + |w.items|]))
  {
    PaginateSpec(sorted, page, limit);
  }

  /**
   * `POST`: a body failing either id check is answered with 400 before the
   * cache is touched; otherwise a fresh cached response for the key is
   * returned as is, and on a miss the page is computed and stored.
   */
  method Post(cache: Cache<ContentPage>, body: Body, now: int, data: seq<Record>, time: string -> int)
    returns (resp: Response)
    requires cache.Valid()
    modifies cache
    ensures cache.Valid()
    ensures match Validate(body)
      case Accepted(page, limit, validIds) =>
        var key := CacheKey(page, limit, validIds);
        var (hit, looked) := Lookup(old(cache.State()), key, now, cache.ttl);
        resp == Ok(if hit.Some? then hit.value else Respond(page, limit, validIds, data, time)) &&
        cache.State() == (if hit.Some? then looked else Store(looked, key, resp.body, now, cache.capacity))
      case _ => resp == BadRequest(Validate(body)) && cache.State() == old(cache.State())
  {
    var v := Validate(body);
    if !v.Accepted? {
      return BadRequest(v);
    }
    var key := CacheKey(v.page, v.limit, v.validIds);
    var cached := cache.Get(key, now);
    if cached.Some? {
      return Ok(cached.value);
    }
    var page := Respond(v.page, v.limit, v.validIds, data, time);
    cache.Set(key, page, now);
    resp := Ok(page);
  }
}
