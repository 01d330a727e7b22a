/**
 * `GET /api/v2/complaints`: the response for a query string is looked up
 * in a five-minute cache under a canonical key; on a miss the located
 * complaints matching the region, time-period and date filters are sorted
 * newest first, one page is cut out, and the response is cached.
 */
module ComplaintListRoute {
  import opened Wrappers
  import JsText
  import JsNumber
  import Sorting
  import opened ComplaintApi
  import opened TtlCache

  const CacheTtl: int := 5 * 60 * 1000
  const CacheCapacity: nat := 100

  /** One `name=value` pair of the query string, in query order. */
  type Param = (string, string)

  /** The query-string pairs ordered by name with `localeCompare`, modelled as code-point order. */
  function ByName(): (Param, Param) -> bool {
    (a: Param, b: Param) => JsText.StrLe(a.0, b.0)
  }

  function Rendered(params: seq<Param>): (r: seq<string>)
    ensures |r| == |params|
    ensures forall i :: 0 <= i < |r| ==> r[i] == params[i].0 + "=" + params[i].1
  {
    seq(|params|, i requires 0 <= i < |params| => params[i].0 + "=" + params[i].1)
  }

  /** `getCacheKey`: the pairs sorted by name, rendered `k=v` and joined with `&`. */
  function CacheKey(params: seq<Param>): string {
    JsText.Join(Rendered(Sorting.SortBy(params, ByName())), "&")
  }

  ghost predicate DistinctNames(params: seq<Param>) {
    forall i, j :: 0 <= i < j < |params| ==> params[i].0 != params[j].0
  }

  /** The key does not depend on the order of the parameters, as long as no name repeats. */
  lemma {:induction false} CacheKeyOrderIndependent(p: seq<Param>, q: seq<Param>)
    requires DistinctNames(p) && multiset(p) == multiset(q)
    ensures CacheKey(p) == CacheKey(q)
  {
    JsText.StrLeTotalPreorder();
    forall i, j | 0 <= i < |p| && 0 <= j < |p| && ByName()(p[i], p[j]) && ByName()(p[j], p[i])
      ensures p[i] == p[j]
    {
      assert p[i].0 == p[j].0;
    }
    Sorting.SortByPermutationInvariant(p, q, ByName());
  }

  lemma {:induction false} JoinNonEmpty(parts: seq<string>, sep: string)
    requires parts != [] && parts[0] != []
    ensures JsText.Join(parts, sep) != []
  {
    if |parts| >= 2 {
      assert JsText.Join(parts, sep) == parts[0] + sep + JsText.Join(parts[1..], sep);
    }
  }

  /** Only the request without query parameters has the key `""`, the one key the size check cannot evict. */
  lemma {:induction false} EmptyKeyIffNoParams(params: seq<Param>)
    ensures CacheKey(params) == "" <==> params == []
  {
    if params != [] {
      var sorted := Sorting.SortBy(params, ByName());
      var parts := Rendered(sorted);
      assert |parts| == |params| > 0;
      assert parts[0] == sorted[0].0 + "=" + sorted[0].1;
      assert parts[0][|sorted[0].0|] == '=';
      JoinNonEmpty(parts, "&");
    }
  }

  /** `searchParams.get(name)`: the value of the first pair with this name. */
  function GetParam(params: seq<Param>, name: string): (r: Option<string>)
    ensures r.Some? <==> exists i :: 0 <= i < |params| && params[i].0 == name
    ensures r.Some? ==> (name, r.value) in params
  {
    if params == [] then None
    else if params[0].0 == name then Some(params[0].1)
    else
      var r := GetParam(params[1..], name);
      if r.Some? then assert (name, r.value) in params[1..]; r
      else
        assert forall i :: 1 <= i < |params| ==> params[i] == params[1..][i - 1];
        r
  }

  /** `searchParams.get(name) || fallback`: a missing or empty value gives the fallback. */
  function ParamOr(params: seq<Param>, name: string, fallback: string): string {
    match GetParam(params, name)
    case Some(v) => if v != "" then v else fallback
    case None => fallback
  }

  /** The parsed query; a None page or limit is `parseInt`'s NaN. */
  datatype Query = Query(
    page: Option<int>,
    limit: Option<int>,
    region: Option<string>,
    startDate: Option<string>,
    endDate: Option<string>,
    timePeriod: Option<string>)

  function ParseQuery(params: seq<Param>): Query {
    Query(
      JsText.ParseInt(ParamOr(params, "page", "1"), 0),
      JsText.ParseInt(ParamOr(params, "limit", "5000"), 0),
      GetParam(params, "region"),
      GetParam(params, "startDate"),
      GetParam(params, "endDate"),
      GetParam(params, "timePeriod"))
  }

  /** Without a page parameter the page is 1. */
  lemma {:induction false} DefaultPage(params: seq<Param>)
    requires GetParam(params, "page").None?
    ensures ParseQuery(params).page == Some(1)
  {
    assert ParamOr(params, "page", "1") == "1";
    JsText.IntToStringRoundTrip(1, 0);
    assert JsText.IntToString(1) == "1";
  }

  /** Without a limit parameter the limit is 5000. */
  lemma {:induction false} DefaultLimit(params: seq<Param>)
    requires GetParam(params, "limit").None?
    ensures ParseQuery(params).limit == Some(5000)
  {
    assert ParamOr(params, "limit", "5000") == "5000";
    ParseFiveThousand();
  }

  lemma {:induction false} ParseFiveThousand()
    ensures JsText.ParseInt("5000", 0) == Some(5000)
  {
    assert JsText.NatToString(5) == "5";
    assert JsText.NatToString(50) == "50";
    assert JsText.NatToString(500) == "500";
    assert JsText.NatToString(5000) == "5000";
    JsText.IntToStringRoundTrip(5000, 0);
  }

  /** A selection filters only when it is given, non-empty and not `'all'`. */
  predicate Chosen(sel: Option<string>) {
    sel.Some? && sel.value != "" && sel.value != "all"
  }

  /** Both dates are given and non-empty. */
  predicate DateBounded(q: Query) {
    q.startDate.Some? && q.startDate.value != "" && q.endDate.Some? && q.endDate.value != ""
  }

  /**
   * The filter callback: truthy coordinates, the chosen region and time
   * period, and, only when both dates are given, `start <= day <= end` as
   * string comparisons of the ISO day (`isoDay` stands for
   * `new Date(d).toISOString().split('T')[0]`).
   */
  predicate Keep(c: Record, q: Query, isoDay: string -> string) {
    JsNumber.Truthy(c.latitude) && JsNumber.Truthy(c.longitude) &&
    (Chosen(q.region) ==> c.region == q.region) &&
    (Chosen(q.timePeriod) ==> c.timePeriod == q.timePeriod) &&
    (DateBounded(q) ==>
       !JsText.StrLess(isoDay(c.receivedDate), q.startDate.value) &&
       !JsText.StrLess(q.endDate.value, isoDay(c.receivedDate)))
  }

  /** `CONVERTED_COMPLAINTS.filter(...)`: the kept records, in data order. */
  function Filter(data: seq<Record>, q: Query, isoDay: string -> string): (r: seq<Record>)
    ensures forall c :: c in r <==> c in data && Keep(c, q, isoDay)
    ensures |r| <= |data|
  {
    if data == [] then []
    else if Keep(data[0], q, isoDay) then [data[0]] + Filter(data[1..], q, isoDay)
    else Filter(data[1..], q, isoDay)
  }

  /** The kept records sorted newest first. */
  function Selected(data: seq<Record>, q: Query, isoDay: string -> string, time: string -> int): (r: seq<Record>)
    ensures multiset(r) == multiset(Filter(data, q, isoDay))
  {
    SortNewestFirst(Filter(data, q, isoDay), time)
  }

  /** The selected records are ordered newest first. */
  lemma {:induction false} SelectedNewestFirst(data: seq<Record>, q: Query, isoDay: string -> string, time: string -> int)
    ensures Sorting.SortedBy(Selected(data, q, isoDay, time), NewestFirst(time))
  {
  }

  /** A record is selected exactly when it is in the data and kept by the filter. */
  lemma {:induction false} SelectedMembers(data: seq<Record>, q: Query, isoDay: string -> string, time: string -> int)
    ensures forall c :: c in Selected(data, q, isoDay, time) <==> c in data && Keep(c, q, isoDay)
  {
    var r := Selected(data, q, isoDay, time);
    assert forall c :: c in r <==> c in multiset(Filter(data, q, isoDay));
  }

  /** The fields the route returns for a complaint; `date` is the day part of `received_date`. */
  datatype ListRow = ListRow(id: int, date: string, region: Option<string>,
                             lat: Option<real>, lng: Option<real>, period: Option<string>)

  function RowOf(c: Record): ListRow {
    ListRow(c.id, DayOf(c.receivedDate), c.region, c.latitude, c.longitude, c.timePeriod)
  }

  /**
   * One row per record, in order: the id, region, coordinates and period
   * carried over, and the date cut just before the first 'T' of the
   * received timestamp.
   */
  function Rows(rs: seq<Record>): (r: seq<ListRow>)
    ensures |r| == |rs|
    ensures forall i :: 0 <= i < |rs| ==>
      r[i].id == rs[i].id && r[i].region == rs[i].region && r[i].lat == rs[i].latitude &&
      r[i].lng == rs[i].longitude && r[i].period == rs[i].timePeriod &&
      |r[i].date| <= |rs[i].receivedDate| && r[i].date == rs[i].receivedDate[..|r[i].date|] &&
      'T' !in r[i].date &&
      (|r[i].date| < |rs[i].receivedDate| ==> rs[i].receivedDate[|r[i].date|] == 'T')
  {
    seq(|rs|, i requires 0 <= i < |rs| => RowOf(rs[i]))
  }

  datatype ListPage = ListPage(complaints: seq<ListRow>, totalCount: nat,
                               page: Option<int>, limit: Option<int>, hasMore: bool)

  /** The response computed on a cache miss. */
  function Respond(q: Query, data: seq<Record>, isoDay: string -> string, time: string -> int): ListPage {
    var sorted := Selected(data, q, isoDay, time);
    var w := Paginate(sorted, q.page, q.limit);
    ListPage(Rows(w.items), |sorted|, q.page, q.limit, w.hasMore)
  }

  /** `totalCount` counts every kept record, page and limit are echoed, and a NaN page or limit gives no rows. */
  lemma {:induction false} RespondTotals(q: Query, data: seq<Record>, isoDay: string -> string, time: string -> int)
    ensures var resp := Respond(q, data, isoDay, time);
      resp.totalCount == |Filter(data, q, isoDay)| &&
      resp.page == q.page && resp.limit == q.limit &&
      (q.page.None? || q.limit.None? ==> resp.complaints == [] && !resp.hasMore)
  {
    SameLength(Selected(data, q, isoDay, time), Filter(data, q, isoDay));
  }

  /**
   * For page ≥ 1 and limit ≥ 0 a page holds at most `limit` rows, and
   * `hasMore` says exactly that kept records remain beyond the page.
   */
  lemma {:induction false} RespondWindow(q: Query, data: seq<Record>, isoDay: string -> string, time: string -> int, page: int, limit: int)
    requires q.page == Some(page) && q.limit == Some(limit) && page >= 1 && limit >= 0
    ensures var resp := Respond(q, data, isoDay, time);
      |resp.complaints| <= limit &&
      (resp.hasMore <==> (page - 1) * limit + limit < |Selected(data, q, isoDay, time)|)
  {
    RespondIsPage(q, data, isoDay, time, page, limit);
    PaginateSpec(Selected(data, q, isoDay, time), page, limit);
  }

  /** The rows of a page are the selected records from position `skip` on, newest first, in the route's row shape. */
  lemma {:induction false} RespondRows(q: Query, data: seq<Record>, isoDay: string -> string, time: string -> int, page: int, limit: int)
    requires q.page == Some(page) && q.limit == Some(limit) && page >= 1 && limit >= 0
    ensures var resp := Respond(q, data, isoDay, time);
      var sorted := Selected(data, q, isoDay, time);
      var skip := (page - 1) * limit;
      skip >= 0 &&
      (resp.complaints != [] ==>
         skip + |resp.complaints| <= |sorted| && resp.complaints == Rows(sorted[skip..skip + |resp.complaints|]))
  {
    SkipOf(page, limit);
    RespondIsPage(q, data, isoDay, time, page, limit);
    var sorted := Selected(data, q, isoDay, time);
    PageRows(sorted, page, limit);
    var w := Paginate(sorted, Some(page), Some(limit));
    assert |Rows(w.items)| == |w.items|;
  }

  lemma {:induction false} RespondIsPage(q: Query, data: seq<Record>, isoDay: string -> string, time: string -> int, page: int, limit: int)
    requires q.page == Some(page) && q.limit == Some(limit)
    ensures var w := Paginate(Selected(data, q, isoDay, time), Some(page), Some(limit));
      Respond(q, data, isoDay, time).complaints == Rows(w.items) &&
      Respond(q, data, isoDay, time).hasMore == w.hasMore
  {
  }

  lemma {:induction false} PageRows(sorted: seq<Record>, page: int, limit: int)
    requires page >= 1 && limit >= 0
    ensures var skip := (page - 1) * limit;
      var w := Paginate(sorted, Some(page), Some(limit));
      skip >= 0 && (w.items != [] ==> skip + |w.items| <= |sorted| && Rows(w.items) == Rows(sorted[skip..skip + |w.items|]))
  {
    PaginateSpec(sorted, page, limit);
  }

  lemma {:induction false} SameLength<T>(a: seq<T>, b: seq<T>)
    requires multiset(a) == multiset(b)
    ensures |a| == |b|
  {
    assert |a| == |multiset(a)| && |b| == |multiset(b)|;
  }

  /**
   * `GET`: a fresh cached response for the key is returned as is; otherwise
   * the response is computed from the data and stored under the key.
   */
  method Get(cache: Cache<ListPage>, params: seq<Param>, now: int, data: seq<Record>,
             isoDay: string -> string, time: string -> int) returns (resp: ListPage)
    requires cache.Valid()
    modifies cache
    ensures cache.Valid()
    ensures var key := CacheKey(params);
      var (hit, looked) := Lookup(old(cache.State()), key, now, cache.ttl);
      resp == (if hit.Some? then hit.value else Respond(ParseQuery(params), data, isoDay, time)) &&
      cache.State() == (if hit.Some? then looked else Store(looked, key, resp, now, cache.capacity))
  {
    var key := CacheKey(params);
    var cached := cache.Get(key, now);
    if cached.Some? {
      return cached.value;
    }
    resp := Respond(ParseQuery(params), data, isoDay, time);
    cache.Set(key, resp, now);
  }
}
