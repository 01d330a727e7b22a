/**
 * The complaint-list modal: 20 rows per page, the page count from the
 * server's total, the five page buttons around the current page, the
 * previous/next clamping, the running row number and the three sort orders.
 */
module ComplaintList {
  import opened Wrappers
  import JsText
  import Sorting
  import opened ComplaintContent

  const ItemsPerPage: nat := 20

  /** `Math.ceil(totalCount / itemsPerPage)`. */
  function TotalPages(totalCount: nat): (r: nat)
    ensures (r - 1) * ItemsPerPage < totalCount <= r * ItemsPerPage || (r == 0 && totalCount == 0)
    ensures r == 0 <==> totalCount == 0
  {
    (totalCount + ItemsPerPage - 1) / ItemsPerPage
  }

  /** The page controls are rendered only when there is more than one page. */
  predicate ShowsControls(totalPages: int) {
    totalPages > 1
  }

  function Min(a: int, b: int): int {
    if a <= b then a else b
  }

  /** The number on button `i`. */
  function PageNumber(currentPage: int, totalPages: int, i: int): int {
    if totalPages <= 5 then i + 1
    else if currentPage <= 3 then i + 1
    else if currentPage >= totalPages - 2 then totalPages - 4 + i
    else currentPage - 2 + i
  }

  /** `Array.from({ length: Math.min(5, totalPages) }, ...)`. */
  function PageButtons(currentPage: int, totalPages: nat): (r: seq<int>)
    ensures |r| == Min(5, totalPages)
  {
    seq(Min(5, totalPages), i => PageNumber(currentPage, totalPages, i))
  }

  /**
   * The buttons are consecutive increasing page numbers, all within
   * [1, totalPages], whatever the current page.
   */
  lemma {:induction false} PageButtonsInRange(currentPage: int, totalPages: nat)
    ensures var r := PageButtons(currentPage, totalPages);
      (forall i :: 0 <= i < |r| - 1 ==> r[i + 1] == r[i] + 1) &&
      (forall i :: 0 <= i < |r| ==> 1 <= r[i] <= totalPages)
  {
  }

  /**
   * A current page within [1, totalPages] has a button, and away from both
   * ends (3 < currentPage < totalPages - 2) it is the middle one of five.
   */
  lemma {:induction false} PageButtonsContainCurrent(currentPage: int, totalPages: nat)
    requires 1 <= currentPage <= totalPages
    ensures currentPage in PageButtons(currentPage, totalPages)
    ensures 3 < currentPage < totalPages - 2 ==>
      |PageButtons(currentPage, totalPages)| == 5 && PageButtons(currentPage, totalPages)[2] == currentPage
  {
    var r := PageButtons(currentPage, totalPages);
    var i := if totalPages <= 5 || currentPage <= 3 then currentPage - 1
             else if currentPage >= totalPages - 2 then currentPage - totalPages + 4
             else 2;
    assert 0 <= i < |r| && r[i] == currentPage;
  }

  /** `Math.max(1, prev - 1)`. */
  function Prev(page: int): int {
    if page - 1 >= 1 then page - 1 else 1
  }

  /** `Math.min(totalPages, prev + 1)`. */
  function Next(page: int, totalPages: int): int {
    if totalPages <= page + 1 then totalPages else page + 1
  }

  /** Prev never goes below 1, Next never above the last page, and both stay on a valid page. */
  lemma {:induction false} PrevNextClamp(page: int, totalPages: int)
    ensures Prev(page) >= 1 && Next(page, totalPages) <= totalPages
    ensures 1 <= page <= totalPages ==>
      1 <= Prev(page) <= page && page <= Next(page, totalPages) <= totalPages
    ensures page > 1 ==> Prev(page) == page - 1
    ensures page < totalPages ==> Next(page, totalPages) == page + 1
  {
  }

  /** `(currentPage - 1) * itemsPerPage + index + 1`. */
  function RowNumber(page: int, index: int): int {
    (page - 1) * ItemsPerPage + index + 1
  }

  /**
   * Row numbers start at 1, run on from the last row of a page to the first
   * of the next, and tell apart every (page, index) pair with index < 20.
   */
  lemma {:induction false} RowNumbersConsecutive(page: int, index: int, page': int, index': int)
    requires 0 <= index < ItemsPerPage && 0 <= index' < ItemsPerPage
    ensures RowNumber(1, 0) == 1
    ensures RowNumber(page, ItemsPerPage - 1) + 1 == RowNumber(page + 1, 0)
    ensures RowNumber(page, index) == RowNumber(page', index') <==> page == page' && index == index'
  {
    if page < page' {
      assert (page' - 1) * ItemsPerPage >= (page - 1) * ItemsPerPage + ItemsPerPage;
    } else if page' < page {
      assert (page - 1) * ItemsPerPage >= (page' - 1) * ItemsPerPage + ItemsPerPage;
    }
  }

  datatype SortOption = Newest | Oldest | ByRegion

  /** `(a.region || '')`. */
  function RegionText(c: ContentRow): string {
    c.region.GetOr("")
  }

  /** The comparator of each sort option; dates go through the given date-to-milliseconds function. */
  function OrderOf(option: SortOption, time: string -> int): (ContentRow, ContentRow) -> bool {
    match option
    case Newest => Sorting.DescendingBy((c: ContentRow) => time(c.date))
    case Oldest => Sorting.AscendingBy((c: ContentRow) => time(c.date))
    case ByRegion => (a: ContentRow, b: ContentRow) => JsText.StrLe(RegionText(a), RegionText(b))
  }

  lemma {:induction false} OrdersArePreorders(option: SortOption, time: string -> int)
    ensures Sorting.TotalPreorder(OrderOf(option, time))
  {
    Sorting.KeyOrdersArePreorders((c: ContentRow) => time(c.date));
    JsText.StrLeTotalPreorder();
  }

  /** `getSortedComplaints`: a sorted copy of the loaded rows. */
  function SortedComplaints(rows: seq<ContentRow>, option: SortOption, time: string -> int): seq<ContentRow> {
    Sorting.SortBy(rows, OrderOf(option, time))
  }

  /** What each option promises about two rows that end up in this order. */
  predicate InOrder(option: SortOption, time: string -> int, a: ContentRow, b: ContentRow) {
    match option
    case Newest => time(a.date) >= time(b.date)
    case Oldest => time(a.date) <= time(b.date)
    case ByRegion => JsText.StrLe(RegionText(a), RegionText(b))
  }

  /**
   * The sorted copy is a permutation of the rows, ordered newest first,
   * oldest first, or by region text with a missing region as `''`.
   */
  lemma {:induction false} SortedComplaintsSpec(rows: seq<ContentRow>, option: SortOption, time: string -> int)
    ensures var r := SortedComplaints(rows, option, time);
      multiset(r) == multiset(rows) &&
      forall i, j :: 0 <= i < j < |r| ==> InOrder(option, time, r[i], r[j])
  {
    OrdersArePreorders(option, time);
    Sorting.SortBySorted(rows, OrderOf(option, time));
    var r := SortedComplaints(rows, option, time);
    forall i, j | 0 <= i < j < |r|
      ensures InOrder(option, time, r[i], r[j])
    {
      assert OrderOf(option, time)(r[i], r[j]);
    }
  }
}
