/**
 * `POST /api/complaints/content`: the same id checks, cache key and cache as
 * the dataset-backed content route, but a miss asks the database for one
 * page (`skip`/`take`, newest first) and for the number of matching rows.
 * The database is a function parameter; `queried` tells whether it was asked.
 */
module ComplaintContentDbRoute {
  import opened Wrappers
  import opened ComplaintApi
  import opened ComplaintContent
  import opened TtlCache
  import ComplaintContentListRoute

  /** What the two queries return: the page's records (dates as ISO strings) and the count of matching rows. */
  datatype DbResult = DbResult(records: seq<Record>, totalCount: int)

  /** `findMany({ where: { id: { in: ids } }, orderBy: { receivedDate: 'desc' }, skip, take })` with `count`. */
  type Database = (seq<int>, int, int) -> DbResult

  function Skip(page: int, limit: int): int {
    (page - 1) * limit
  }

  /** The response built from the database's answer; `hasMore` is `skip + complaints.length < totalCount`. */
  function FromDb(page: int, limit: int, r: DbResult): ContentPage {
    ContentPage(Rows(r.records), r.totalCount, page, limit, Skip(page, limit) + |r.records| < r.totalCount)
  }

  /**
   * A database that answers like the dataset (the matching records newest
   * first, sliced by `skip` and `take`, and their number) makes this route
   * answer exactly like the dataset-backed content route.
   */
  lemma {:induction false} AgreesWithDataset(page: int, limit: int, validIds: seq<int>, data: seq<Record>, time: string -> int, db: Database)
    requires var sorted := ComplaintContentListRoute.Selected(data, validIds, time);
      db(validIds, Skip(page, limit), limit) ==
        DbResult(Slice(sorted, Skip(page, limit), Skip(page, limit) + limit), |sorted|)
    ensures FromDb(page, limit, db(validIds, Skip(page, limit), limit))
         == ComplaintContentListRoute.Respond(page, limit, validIds, data, time)
  {
    var sorted := ComplaintContentListRoute.Selected(data, validIds, time);
    SlicedAnswer(page, limit, sorted, db(validIds, Skip(page, limit), limit));
  }

  /** An answer holding the `skip`/`take` slice of a list and its length is that list's page. */
  lemma {:induction false} SlicedAnswer(page: int, limit: int, sorted: seq<Record>, answer: DbResult)
    requires answer == DbResult(Slice(sorted, Skip(page, limit), Skip(page, limit) + limit), |sorted|)
    ensures var w := Paginate(sorted, Some(page), Some(limit));
      FromDb(page, limit, answer) == ContentPage(Rows(w.items), |sorted|, page, limit, w.hasMore)
  {
  }

  /**
   * `POST`: a body failing either id check is answered with 400 before the
   * cache or the database is touched; a fresh cached response is returned
   * without asking the database; on a miss the database is asked once and
   * its page is cached.
   */
  method Post(cache: Cache<ContentPage>, body: Body, now: int, db: Database)
    returns (resp: Response, queried: bool)
    requires cache.Valid()
    modifies cache
    ensures cache.Valid()
    ensures match Validate(body)
      case Accepted(page, limit, validIds) =>
        var key := CacheKey(page, limit, validIds);
        var (hit, looked) := Lookup(old(cache.State()), key, now, cache.ttl);
        queried == hit.None? &&
        resp == Ok(if hit.Some? then hit.value else FromDb(page, limit, db(validIds, Skip(page, limit), limit))) &&
        cache.State() == (if hit.Some? then looked else Store(looked, key, resp.body, now, cache.capacity))
      case _ => resp == BadRequest(Validate(body)) && !queried && cache.State() == old(cache.State())
  {
    var v := Validate(body);
    if !v.Accepted? {
      return BadRequest(v), false;
    }
    var key := CacheKey(v.page, v.limit, v.validIds);
    var cached := cache.Get(key, now);
    if cached.Some? {
      return Ok(cached.value), false;
    }
    var answer := db(v.validIds, Skip(v.page, v.limit), v.limit);
    var page := FromDb(v.page, v.limit, answer);
    cache.Set(key, page, now);
    resp, queried := Ok(page), true;
  }
}
