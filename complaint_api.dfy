/**
 * What the complaint API routes share: the stored complaint record, the
 * "newest first" order on it, `Array.prototype.slice`, and the
 * page/limit window with its `hasMore` flag.
 */
module ComplaintApi {
  import opened Wrappers
  import JsText
  import Sorting

  /** A record of the converted complaint dataset (or of the database). */
  datatype Record = Record(
    id: int,
    receivedDate: string,
    region: Option<string>,
    latitude: Option<real>,
    longitude: Option<real>,
    timePeriod: Option<string>,
    content: string,
    roadAddress: Option<string>,
    landAddress: Option<string>)

  /**
   * `(a, b) => new Date(b.received_date).getTime() - new Date(a.received_date).getTime()`,
   * with the date-to-milliseconds conversion a parameter.
   */
  function NewestFirst(time: string -> int): (Record, Record) -> bool {
    Sorting.DescendingBy((r: Record) => time(r.receivedDate))
  }

  /** A stable sort of `rs` by `received_date`, newest first. */
  function SortNewestFirst(rs: seq<Record>, time: string -> int): (r: seq<Record>)
    ensures multiset(r) == multiset(rs)
    ensures Sorting.SortedBy(r, NewestFirst(time))
  {
    Sorting.KeyOrdersArePreorders((r: Record) => time(r.receivedDate));
    Sorting.SortBySorted(rs, NewestFirst(time));
    Sorting.SortBy(rs, NewestFirst(time))
  }

  /** `received_date.split('T')[0]`: the calendar day of an ISO timestamp. */
  function DayOf(receivedDate: string): (r: string)
    ensures |r| <= |receivedDate| && r == receivedDate[..|r|] && 'T' !in r
    ensures |r| < |receivedDate| ==> receivedDate[|r|] == 'T'
  {
    JsText.Before(receivedDate, 'T')
  }

  /** How `slice` resolves a relative index: negative counts back from the end; the result is clamped to [0, len]. */
  function RelativeIndex(rel: int, len: nat): (r: nat)
    ensures r <= len
    ensures 0 <= rel <= len ==> r == rel
    ensures rel > len ==> r == len
  {
    if rel < 0 then (if len + rel < 0 then 0 else len + rel)
    else if rel > len then len
    else rel
  }

  /** `s.slice(start, end)` on integer arguments. */
  function Slice<T>(s: seq<T>, start: int, end: int): (r: seq<T>)
  {
    var a := RelativeIndex(start, |s|);
    var b := RelativeIndex(end, |s|);
    if a < b then s[a..b] else []
  }

  /** One page of a list and its `hasMore` flag. */
  datatype Window<T> = Window(items: seq<T>, hasMore: bool)

  /**
   * `skip = (page - 1) * limit`, `s.slice(skip, skip + limit)` and
   * `hasMore = skip + items.length < s.length`. A page or limit that
   * `parseInt` turned into NaN (None) makes `skip` NaN, and `slice(NaN, NaN)`
   * is empty while `NaN < n` is false.
   */
  function Paginate<T>(s: seq<T>, page: Option<int>, limit: Option<int>): Window<T> {
    if page.Some? && limit.Some? then
      var skip := (page.value - 1) * limit.value;
      var items := Slice(s, skip, skip + limit.value);
      Window(items, skip + |items| < |s|)
    else Window([], false)
  }

  function Min(a: int, b: int): int {
    if a <= b then a else b
  }

  /**
   * A slice from a non-negative position holds the elements that exist in
   * that range: at most `limit` of them, all of them when the range fits,
   * and elements remain beyond it exactly when the range ends before the end.
   */
  lemma {:induction false} SliceFrom<T>(s: seq<T>, skip: int, limit: int)
    requires skip >= 0 && limit >= 0
    ensures var items := Slice(s, skip, skip + limit);
      items == (if skip <= |s| then s[skip..Min(skip + limit, |s|)] else []) &&
      |items| <= limit &&
      (skip + limit <= |s| ==> |items| == limit) &&
      (skip + |items| < |s| <==> skip + limit < |s|) &&
      (items != [] ==> skip + |items| <= |s| && items == s[skip..skip + |items|])
  {
  }

  lemma {:induction false} SkipOf(page: int, limit: int)
    requires page >= 1 && limit >= 0
    ensures (page - 1) * limit >= 0
    ensures (page + 1 - 1) * limit == (page - 1) * limit + limit
  {
  }

  /**
   * For page ≥ 1 and limit ≥ 0 the page holds the elements from position
   * `skip` up to `skip + limit` that exist, so at most `limit` of them, and
   * `hasMore` says exactly that elements remain beyond this page.
   */
  lemma {:induction false} PaginateSpec<T>(s: seq<T>, page: int, limit: int)
    requires page >= 1 && limit >= 0
    ensures var skip := (page - 1) * limit;
      var w := Paginate(s, Some(page), Some(limit));
      skip >= 0 &&
      w.items == (if skip <= |s| then s[skip..Min(skip + limit, |s|)] else []) &&
      |w.items| <= limit &&
      (skip + limit <= |s| ==> |w.items| == limit) &&
      (w.hasMore <==> skip + limit < |s|) &&
      (w.items != [] ==> skip + |w.items| <= |s| && w.items == s[skip..skip + |w.items|])
  {
    SkipOf(page, limit);
    var skip := (page - 1) * limit;
    SliceFrom(s, skip, limit);
    assert Paginate(s, Some(page), Some(limit)).items == Slice(s, skip, skip + limit);
  }

  /** Consecutive pages follow each other without gap or overlap. */
  lemma {:induction false} PagesAdjoin<T>(s: seq<T>, page: int, limit: int)
    requires page >= 1 && limit >= 0
    requires (page - 1) * limit <= |s|
    ensures var skip := (page - 1) * limit;
      Paginate(s, Some(page), Some(limit)).items + Paginate(s, Some(page + 1), Some(limit)).items
        == s[skip..Min(skip + 2 * limit, |s|)]
  {
    SkipOf(page, limit);
    var skip := (page - 1) * limit;
    PaginateSpec(s, page, limit);
    PaginateSpec(s, page + 1, limit);
    AdjacentSlices(s, skip, limit);
  }

  /** The window at `skip` followed by the one at `skip + limit` is the double window at `skip`. */
  lemma {:induction false} AdjacentSlices<T>(s: seq<T>, skip: int, limit: int)
    requires 0 <= skip <= |s| && limit >= 0
    ensures s[skip..Min(skip + limit, |s|)] +
      (if skip + limit <= |s| then s[skip + limit..Min(skip + limit + limit, |s|)] else [])
      == s[skip..Min(skip + 2 * limit, |s|)]
  {
    if skip + limit <= |s| {
      assert s[skip..Min(skip + 2 * limit, |s|)] == s[skip..skip + limit] + s[skip + limit..Min(skip + 2 * limit, |s|)];
    }
  }

  /** A NaN page or limit gives an empty page and no `hasMore`. */
  lemma {:induction false} PaginateNaN<T>(s: seq<T>, page: Option<int>, limit: Option<int>)
    requires page.None? || limit.None?
    ensures Paginate(s, page, limit) == Window([], false)
  {
  }
}
