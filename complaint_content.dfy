/**
 * What the two complaint-content routes share: the POST body, its two-stage
 * id validation, the canonical cache key, and the row shape of a page.
 */
module ComplaintContent {
  import opened Wrappers
  import JsText
  import Sorting
  import opened ComplaintApi

  const CacheTtl: int := 2 * 60 * 1000
  const CacheCapacity: nat := 50

  /** An element of the `ids` array: a number, or any other JSON value. */
  datatype IdValue = Number(n: int) | NotNumber

  /** The `ids` field: absent, present but not an array (null included), or an array. */
  datatype IdsField = Absent | NotArray | Array(items: seq<IdValue>)

  /** The POST body; an absent page or limit takes its default. */
  datatype Body = Body(page: Option<int>, limit: Option<int>, ids: IdsField)

  /** The validation outcome: a 400 with its message, or the request to serve. */
  datatype Validated =
    | MissingIds
    | NoValidIds
    | Accepted(page: int, limit: int, validIds: seq<int>)

  /** `ids.filter((id) => typeof id === 'number' && !isNaN(id))`. */
  function NumericIds(items: seq<IdValue>): (r: seq<int>)
    ensures |r| <= |items|
    ensures forall n :: n in r <==> Number(n) in items
  {
    if items == [] then []
    else
      var rest := NumericIds(items[1..]);
      assert forall v :: v in items <==> v == items[0] || v in items[1..];
      match items[0]
      case Number(n) => [n] + rest
      case NotNumber => rest
  }

  /**
   * The two checks that precede any cache or data access: `ids` must be a
   * non-empty array (an absent `ids` defaults to `[]`), and at least one of
   * its entries must be a number.
   */
  function Validate(body: Body): Validated {
    var ids := if body.ids.Absent? then Array([]) else body.ids;
    if !ids.Array? || ids.items == [] then MissingIds
    else
      var valid := NumericIds(ids.items);
      if valid == [] then NoValidIds
      else Accepted(body.page.GetOr(1), body.limit.GetOr(20), valid)
  }

  /**
   * A body is accepted exactly when `ids` is an array holding a number; the
   * accepted ids are its numbers, and page and limit default to 1 and 20.
   */
  lemma {:induction false} ValidateSpec(body: Body)
    ensures Validate(body).Accepted? <==> body.ids.Array? && exists n :: Number(n) in body.ids.items
    ensures Validate(body) == MissingIds <==> !body.ids.Array? || body.ids.items == []
    ensures Validate(body).Accepted? ==>
      var a := Validate(body);
      a.validIds != [] && (forall n :: n in a.validIds <==> Number(n) in body.ids.items) &&
      a.page == body.page.GetOr(1) && a.limit == body.limit.GetOr(20)
  {
    if body.ids.Array? && body.ids.items != [] {
      var valid := NumericIds(body.ids.items);
      if valid != [] {
        assert valid[0] in valid;
        assert Number(valid[0]) in body.ids.items;
      }
    }
  }

  /** `(a, b) => a - b`. */
  function Ascending(): (int, int) -> bool {
    Sorting.AscendingBy((n: int) => n)
  }

  /** `String(id)` for each id, in order. */
  function IdList(ids: seq<int>): (r: seq<string>)
    ensures |r| == |ids|
    ensures forall i :: 0 <= i < |ids| ==> r[i] == JsText.IntToString(ids[i])
  {
    seq(|ids|, i requires 0 <= i < |ids| => JsText.IntToString(ids[i]))
  }

  /**
   * Each rendered id reads back as that id, so the rendered list determines
   * the ids, and no rendered id contains the `,` that joins them.
   */
  lemma {:induction false} IdListReadsBack(ids: seq<int>)
    ensures var r := IdList(ids);
      forall i :: 0 <= i < |ids| ==> JsText.ParseInt(r[i], 10) == Some(ids[i]) && ',' !in r[i]
  {
    var r := IdList(ids);
    forall i | 0 <= i < |ids| ensures JsText.ParseInt(r[i], 10) == Some(ids[i]) && ',' !in r[i] {
      JsText.IntToStringRoundTrip(ids[i], 10);
      NoCommaInId(ids[i]);
    }
  }

  lemma {:induction false} NoCommaInId(n: int)
    ensures ',' !in JsText.IntToString(n)
  {
    var m: nat := if n < 0 then -n else n;
    assert forall i :: 0 <= i < |JsText.NatToString(m)| ==> '0' <= JsText.NatToString(m)[i] <= '9';
    if n < 0 {
      assert JsText.IntToString(n) == "-" + JsText.NatToString(m);
    }
  }

  /** `getCacheKey`: page, limit and the ids sorted numerically. */
  function CacheKey(page: int, limit: int, ids: seq<int>): string {
    "page:" + JsText.IntToString(page) + ",limit:" + JsText.IntToString(limit) + ",ids:" +
    JsText.Join(IdList(Sorting.SortBy(ids, Ascending())), ",")
  }

  /** Permuting the ids does not change the key. */
  lemma {:induction false} CacheKeyOrderIndependent(page: int, limit: int, ids: seq<int>, ids': seq<int>)
    requires multiset(ids) == multiset(ids')
    ensures CacheKey(page, limit, ids) == CacheKey(page, limit, ids')
  {
    Sorting.KeyOrdersArePreorders((n: int) => n);
    Sorting.SortByPermutationInvariant(ids, ids', Ascending());
  }

  /** Every key starts with `page:`, so it is truthy and the size check always evicts. */
  lemma {:induction false} CacheKeyNonEmpty(page: int, limit: int, ids: seq<int>)
    ensures CacheKey(page, limit, ids) != ""
    ensures CacheKey(page, limit, ids)[..5] == "page:"
  {
  }

  /** The fields a content route returns for a complaint. */
  datatype ContentRow = ContentRow(
    id: int, date: string, region: Option<string>, content: string,
    lat: Option<real>, lng: Option<real>, period: Option<string>,
    roadAddress: Option<string>, landAddress: Option<string>)

  function RowOf(c: Record): ContentRow {
    ContentRow(c.id, DayOf(c.receivedDate), c.region, c.content, c.latitude, c.longitude,
               c.timePeriod, c.roadAddress, c.landAddress)
  }

  /**
   * One row per record, in order: every selected field carried over, and
   * the date cut just before the first 'T' of the received timestamp.
   */
  function Rows(rs: seq<Record>): (r: seq<ContentRow>)
    ensures |r| == |rs|
    ensures forall i :: 0 <= i < |rs| ==>
      r[i].id == rs[i].id && r[i].region == rs[i].region && r[i].content == rs[i].content &&
      r[i].lat == rs[i].latitude && r[i].lng == rs[i].longitude && r[i].period == rs[i].timePeriod &&
      r[i].roadAddress == rs[i].roadAddress && r[i].landAddress == rs[i].landAddress &&
      |r[i].date| <= |rs[i].receivedDate| && r[i].date == rs[i].receivedDate[..|r[i].date|] &&
      'T' !in r[i].date &&
      (|r[i].date| < |rs[i].receivedDate| ==> rs[i].receivedDate[|r[i].date|] == 'T')
  {
    seq(|rs|, i requires 0 <= i < |rs| => RowOf(rs[i]))
  }

  datatype ContentPage = ContentPage(complaints: seq<ContentRow>, totalCount: int,
                                     page: int, limit: int, hasMore: bool)

  /** A route's answer: a 400 with the validation outcome, or a page. */
  datatype Response = BadRequest(reason: Validated) | Ok(body: ContentPage)
}
