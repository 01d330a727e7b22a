/**
 * The complaint statistics: counts per region, per month and per time
 * period (a dictionary filled in one pass, its entries then sorted), and
 * the marker scale of a cluster.
 */
module ComplaintStats {
  import opened Wrappers
  import opened JsText
  import opened Sorting
  import opened Tally
  import opened ComplaintClustering

  /** The key of a complaint whose region or period is falsy. */
  const Unclassified: string := "미분류"

  /** One statistics row: a key and its number of complaints. */
  type Entry = (string, nat)

  function RegionKey(c: Complaint): string {
    if c.region == "" then Unclassified else c.region
  }

  function PeriodKey(c: Complaint): string {
    match c.period
    case None => Unclassified
    case Some(p) => if p == "" then Unclassified else p
  }

  /** `(new Date(date).getMonth() + 1).toString()`, with the month of a date given. */
  function MonthKey(c: Complaint, monthOf: string -> int): string {
    IntToString(monthOf(c.date))
  }

  function RegionKeys(cs: seq<Complaint>): (r: seq<string>)
    ensures |r| == |cs| && forall i :: 0 <= i < |cs| ==> r[i] == RegionKey(cs[i])
  {
    seq(|cs|, i requires 0 <= i < |cs| => RegionKey(cs[i]))
  }

  function PeriodKeys(cs: seq<Complaint>): (r: seq<string>)
    ensures |r| == |cs| && forall i :: 0 <= i < |cs| ==> r[i] == PeriodKey(cs[i])
  {
    seq(|cs|, i requires 0 <= i < |cs| => PeriodKey(cs[i]))
  }

  function MonthKeys(cs: seq<Complaint>, monthOf: string -> int): (r: seq<string>)
    ensures |r| == |cs| && forall i :: 0 <= i < |cs| ==> r[i] == MonthKey(cs[i], monthOf)
  {
    seq(|cs|, i requires 0 <= i < |cs| => MonthKey(cs[i], monthOf))
  }

  /** The comparator `b.count - a.count`. */
  function ByCountDesc(): (Entry, Entry) -> bool {
    DescendingBy((e: Entry) => e.1 as int)
  }

  /** `parseInt(month)`; a key that does not parse compares as 0. */
  function MonthNumber(k: string): int {
    ParseInt(k, 0).GetOr(0)
  }

  /** The comparator `parseInt(a.month) - parseInt(b.month)`. */
  function ByMonthAsc(): (Entry, Entry) -> bool {
    AscendingBy((e: Entry) => MonthNumber(e.0))
  }

  /** The rows of a count dictionary sorted by count, most frequent first. */
  function GroupStats(keys: seq<string>): seq<Entry> {
    SortBy(Tally.Tally(keys), ByCountDesc())
  }

  function RegionStatsOf(cs: seq<Complaint>): seq<Entry> {
    GroupStats(RegionKeys(cs))
  }

  function PeriodStatsOf(cs: seq<Complaint>): seq<Entry> {
    GroupStats(PeriodKeys(cs))
  }

  function MonthStatsOf(cs: seq<Complaint>, monthOf: string -> int): seq<Entry> {
    SortBy(Tally.Tally(MonthKeys(cs, monthOf)), ByMonthAsc())
  }

  // ---------------------------------------------------------------- the loops

  /** `getRegionStats`: the counting `forEach`, then the sort. */
  method RegionStats(cs: seq<Complaint>) returns (r: seq<Entry>)
    ensures r == RegionStatsOf(cs)
  {
    var counts := CountKeys(RegionKeys(cs));
    r := SortBy(counts, ByCountDesc());
  }

  /** `getTimePeriodStats`. */
  method PeriodStats(cs: seq<Complaint>) returns (r: seq<Entry>)
    ensures r == PeriodStatsOf(cs)
  {
    var counts := CountKeys(PeriodKeys(cs));
    r := SortBy(counts, ByCountDesc());
  }

  /** `getMonthStats`. */
  method MonthStats(cs: seq<Complaint>, monthOf: string -> int) returns (r: seq<Entry>)
    ensures r == MonthStatsOf(cs, monthOf)
  {
    var counts := CountKeys(MonthKeys(cs, monthOf));
    r := SortBy(counts, ByMonthAsc());
  }

  // ---------------------------------------------------------------- properties

  ghost predicate NoDuplicates<T>(s: seq<T>) {
    forall i, j :: 0 <= i < j < |s| ==> s[i] != s[j]
  }

  lemma {:induction false} DuplicateCount<T>(s: seq<T>, i: int, j: int)
    requires 0 <= i < j < |s| && s[i] == s[j]
    ensures multiset(s)[s[i]] >= 2
  {
    assert s == s[..j] + s[j..];
    assert s[i] in s[..j];
    assert s[j] in s[j..];
    assert multiset(s) == multiset(s[..j]) + multiset(s[j..]);
  }

  lemma {:induction false} NoDuplicatesCount<T>(s: seq<T>, x: T)
    requires NoDuplicates(s)
    ensures multiset(s)[x] <= 1
  {
    if s != [] {
      assert s == [s[0]] + s[1..];
      assert NoDuplicates(s[1..]) by {
        forall i, j | 0 <= i < j < |s[1..]| ensures s[1..][i] != s[1..][j] {
          assert s[1..][i] == s[i + 1] && s[1..][j] == s[j + 1];
        }
      }
      NoDuplicatesCount(s[1..], x);
    }
  }

  /** A permutation of a list without duplicates has none either. */
  lemma {:induction false} PermutationNoDuplicates<T>(s: seq<T>, t: seq<T>)
    requires multiset(s) == multiset(t) && NoDuplicates(t)
    ensures NoDuplicates(s)
  {
    forall i, j | 0 <= i < j < |s| ensures s[i] != s[j] {
      if s[i] == s[j] {
        DuplicateCount(s, i, j);
        NoDuplicatesCount(t, s[i]);
      }
    }
  }

  lemma {:induction false} SumCountsInsert(x: Entry, s: seq<Entry>, le: (Entry, Entry) -> bool)
    ensures SumCounts(Insert(x, s, le)) == x.1 + SumCounts(s)
  {
    if s != [] && !le(x, s[0]) {
      SumCountsInsert(x, s[1..], le);
    }
  }

  lemma {:induction false} SumCountsSortBy(s: seq<Entry>, le: (Entry, Entry) -> bool)
    ensures SumCounts(SortBy(s, le)) == SumCounts(s)
  {
    if s != [] {
      SumCountsSortBy(s[1..], le);
      SumCountsInsert(s[0], SortBy(s[1..], le), le);
    }
  }

  /**
   * Any sort of the tally has one row per distinct key, a count equal to
   * the key's number of occurrences (so at least 1), and counts whose sum
   * is the number of keys.
   */
  lemma {:induction false} SortedTallySpec(keys: seq<string>, le: (Entry, Entry) -> bool)
    ensures var r := SortBy(Tally.Tally(keys), le);
      (forall i, j :: 0 <= i < j < |r| ==> r[i].0 != r[j].0) &&
      (forall k :: k in keys <==> exists i :: 0 <= i < |r| && r[i].0 == k) &&
      (forall i :: 0 <= i < |r| ==> r[i].0 in keys && r[i].1 == multiset(keys)[r[i].0] && r[i].1 >= 1) &&
      SumCounts(r) == |keys|
  {
    var t := Tally.Tally(keys);
    TallyEntries(keys);
    TallySum(keys);
    SumCountsSortBy(t, le);
    PermutedRows(keys, t, SortBy(t, le));
  }

  /** A reordering of tally rows keeps every row, so it keeps their properties. */
  lemma {:induction false} PermutedRows(keys: seq<string>, t: seq<Entry>, r: seq<Entry>)
    requires multiset(r) == multiset(t)
    requires forall i, j :: 0 <= i < j < |t| ==> t[i].0 != t[j].0
    requires forall k :: k in keys <==> k in EntryKeys(t)
    requires forall i :: 0 <= i < |t| ==> t[i].1 == multiset(keys)[t[i].0] && t[i].1 >= 1
    ensures forall i, j :: 0 <= i < j < |r| ==> r[i].0 != r[j].0
    ensures forall k :: k in keys <==> exists i :: 0 <= i < |r| && r[i].0 == k
    ensures forall i :: 0 <= i < |r| ==> r[i].0 in keys && r[i].1 == multiset(keys)[r[i].0] && r[i].1 >= 1
  {
    assert NoDuplicates(t);
    PermutationNoDuplicates(r, t);
    forall i | 0 <= i < |r| ensures exists a :: 0 <= a < |t| && t[a] == r[i] {
      assert r[i] in multiset(r);
      assert r[i] in t;
    }
    forall i, j | 0 <= i < j < |r| ensures r[i].0 != r[j].0 {
      var a :| 0 <= a < |t| && t[a] == r[i];
      var b :| 0 <= b < |t| && t[b] == r[j];
      assert a != b;
    }
    forall i | 0 <= i < |r| ensures r[i].0 in keys && r[i].1 == multiset(keys)[r[i].0] && r[i].1 >= 1 {
      var a :| 0 <= a < |t| && t[a] == r[i];
      assert EntryKeys(t)[a] == r[i].0;
    }
    forall k | k in keys ensures exists i :: 0 <= i < |r| && r[i].0 == k {
      var m :| 0 <= m < |t| && EntryKeys(t)[m] == k;
      assert t[m] in multiset(r);
      var i :| 0 <= i < |r| && r[i] == t[m];
    }
  }

  /** `getRegionStats` and `getTimePeriodStats`: the tally rows, most frequent first. */
  lemma {:induction false} GroupStatsSpec(keys: seq<string>)
    ensures var r := GroupStats(keys);
      (forall i, j :: 0 <= i < j < |r| ==> r[i].0 != r[j].0) &&
      (forall k :: k in keys <==> exists i :: 0 <= i < |r| && r[i].0 == k) &&
      (forall i :: 0 <= i < |r| ==> r[i].1 == multiset(keys)[r[i].0] && r[i].1 >= 1) &&
      SumCounts(r) == |keys| &&
      (forall i, j :: 0 <= i < j < |r| ==> r[i].1 >= r[j].1)
  {
    SortedTallySpec(keys, ByCountDesc());
    KeyOrdersArePreorders((e: Entry) => e.1 as int);
    SortBySorted(Tally.Tally(keys), ByCountDesc());
  }

  /** Every complaint has a row when every key has one. */
  lemma {:induction false} ComplaintsHaveRows(cs: seq<Complaint>, key: Complaint -> string, keys: seq<string>, r: seq<Entry>)
    requires |keys| == |cs| && forall m :: 0 <= m < |cs| ==> keys[m] == key(cs[m])
    requires forall k :: k in keys ==> exists i :: 0 <= i < |r| && r[i].0 == k
    ensures forall c :: c in cs ==> exists i :: 0 <= i < |r| && r[i].0 == key(c)
  {
    forall c | c in cs ensures exists i :: 0 <= i < |r| && r[i].0 == key(c) {
      var m :| 0 <= m < |cs| && cs[m] == c;
      assert keys[m] == key(c) && keys[m] in keys;
    }
  }

  /** Every row has a complaint when every row's key is a key. */
  lemma {:induction false} RowsHaveComplaints(cs: seq<Complaint>, key: Complaint -> string, keys: seq<string>, r: seq<Entry>)
    requires |keys| == |cs| && forall m :: 0 <= m < |cs| ==> keys[m] == key(cs[m])
    requires forall i :: 0 <= i < |r| ==> r[i].0 in keys
    ensures forall i :: 0 <= i < |r| ==> r[i].0 in keys && exists c :: c in cs && key(c) == r[i].0
  {
    forall i | 0 <= i < |r| ensures r[i].0 in keys && exists c :: c in cs && key(c) == r[i].0 {
      var m :| 0 <= m < |keys| && keys[m] == r[i].0;
      assert cs[m] in cs;
    }
  }

  /** Every complaint is counted once under its region, with a falsy region as '미분류'. */
  lemma {:induction false} RegionStatsSpec(cs: seq<Complaint>)
    ensures var r := RegionStatsOf(cs);
      SumCounts(r) == |cs| &&
      (forall i, j :: 0 <= i < j < |r| ==> r[i].0 != r[j].0 && r[i].1 >= r[j].1) &&
      (forall c :: c in cs ==> exists i :: 0 <= i < |r| && r[i].0 == RegionKey(c)) &&
      (forall i :: 0 <= i < |r| ==> r[i].1 >= 1 && exists c :: c in cs && RegionKey(c) == r[i].0)
  {
    var keys := RegionKeys(cs);
    GroupStatsSpec(keys);
    ComplaintsHaveRows(cs, RegionKey, keys, GroupStats(keys));
    RowsHaveComplaints(cs, RegionKey, keys, GroupStats(keys));
  }

  /** The same for time periods, with a null or empty period as '미분류'. */
  lemma {:induction false} PeriodStatsSpec(cs: seq<Complaint>)
    ensures var r := PeriodStatsOf(cs);
      SumCounts(r) == |cs| &&
      (forall i, j :: 0 <= i < j < |r| ==> r[i].0 != r[j].0 && r[i].1 >= r[j].1) &&
      (forall c :: c in cs ==> exists i :: 0 <= i < |r| && r[i].0 == PeriodKey(c)) &&
      (forall i :: 0 <= i < |r| ==> r[i].1 >= 1 && exists c :: c in cs && PeriodKey(c) == r[i].0)
  {
    var keys := PeriodKeys(cs);
    GroupStatsSpec(keys);
    ComplaintsHaveRows(cs, PeriodKey, keys, GroupStats(keys));
    RowsHaveComplaints(cs, PeriodKey, keys, GroupStats(keys));
  }

  /**
   * `getMonthStats`: with months in 1..12 every key is the decimal month
   * number, its count is at least 1, counts sum to the input length and the
   * rows are in strictly increasing month order.
   */
  lemma {:induction false} MonthStatsSpec(cs: seq<Complaint>, monthOf: string -> int)
    requires forall c :: c in cs ==> 1 <= monthOf(c.date) <= 12
    ensures var r := MonthStatsOf(cs, monthOf);
      SumCounts(r) == |cs| &&
      (forall i :: 0 <= i < |r| ==>
         r[i].1 >= 1 && 1 <= MonthNumber(r[i].0) <= 12 && r[i].0 == IntToString(MonthNumber(r[i].0))) &&
      (forall i, j :: 0 <= i < j < |r| ==> MonthNumber(r[i].0) < MonthNumber(r[j].0))
  {
    MonthTallied(cs, monthOf);
    MonthRows(cs, monthOf, MonthKeys(cs, monthOf), MonthStatsOf(cs, monthOf));
  }

  lemma {:induction false} MonthTallied(cs: seq<Complaint>, monthOf: string -> int)
    ensures var keys := MonthKeys(cs, monthOf); var r := MonthStatsOf(cs, monthOf);
      (forall i, j :: 0 <= i < j < |r| ==> r[i].0 != r[j].0) &&
      (forall i :: 0 <= i < |r| ==> r[i].0 in keys && r[i].1 == multiset(keys)[r[i].0] && r[i].1 >= 1) &&
      SumCounts(r) == |keys| && SortedBy(r, ByMonthAsc())
  {
    var keys := MonthKeys(cs, monthOf);
    SortedTallySpec(keys, ByMonthAsc());
    MonthRowsSorted(keys);
  }

  lemma {:induction false} MonthRows(cs: seq<Complaint>, monthOf: string -> int, keys: seq<string>, r: seq<Entry>)
    requires forall c :: c in cs ==> 1 <= monthOf(c.date) <= 12
    requires keys == MonthKeys(cs, monthOf)
    requires forall i, j :: 0 <= i < j < |r| ==> r[i].0 != r[j].0
    requires forall i :: 0 <= i < |r| ==> r[i].0 in keys && r[i].1 == multiset(keys)[r[i].0] && r[i].1 >= 1
    requires SumCounts(r) == |keys|
    requires SortedBy(r, ByMonthAsc())
    ensures SumCounts(r) == |cs|
    ensures forall i :: 0 <= i < |r| ==>
      r[i].1 >= 1 && 1 <= MonthNumber(r[i].0) <= 12 && r[i].0 == IntToString(MonthNumber(r[i].0))
    ensures forall i, j :: 0 <= i < j < |r| ==> MonthNumber(r[i].0) < MonthNumber(r[j].0)
  {
    MonthRowsAreMonths(cs, monthOf, r);
    MonthRowsIncreasing(r);
  }

  lemma {:induction false} MonthRowsSorted(keys: seq<string>)
    ensures SortedBy(SortBy(Tally.Tally(keys), ByMonthAsc()), ByMonthAsc())
  {
    KeyOrdersArePreorders((e: Entry) => MonthNumber(e.0));
    SortBySorted(Tally.Tally(keys), ByMonthAsc());
  }

  lemma {:induction false} MonthRowsAreMonths(cs: seq<Complaint>, monthOf: string -> int, r: seq<Entry>)
    requires forall c :: c in cs ==> 1 <= monthOf(c.date) <= 12
    requires forall i :: 0 <= i < |r| ==> r[i].0 in MonthKeys(cs, monthOf)
    ensures forall i :: 0 <= i < |r| ==> 1 <= MonthNumber(r[i].0) <= 12 && r[i].0 == IntToString(MonthNumber(r[i].0))
  {
    var keys := MonthKeys(cs, monthOf);
    forall i | 0 <= i < |r|
      ensures 1 <= MonthNumber(r[i].0) <= 12 && r[i].0 == IntToString(MonthNumber(r[i].0))
    {
      var m :| 0 <= m < |keys| && keys[m] == r[i].0;
      assert cs[m] in cs;
      IntToStringRoundTrip(monthOf(cs[m].date), 0);
    }
  }

  /** Distinct decimal keys sorted by their value are strictly increasing. */
  lemma {:induction false} MonthRowsIncreasing(r: seq<Entry>)
    requires forall i :: 0 <= i < |r| ==> r[i].0 == IntToString(MonthNumber(r[i].0))
    requires forall i, j :: 0 <= i < j < |r| ==> r[i].0 != r[j].0
    requires SortedBy(r, ByMonthAsc())
    ensures forall i, j :: 0 <= i < j < |r| ==> MonthNumber(r[i].0) < MonthNumber(r[j].0)
  {
    forall i, j | 0 <= i < j < |r| ensures MonthNumber(r[i].0) < MonthNumber(r[j].0) {
      var a, b := r[i].0, r[j].0;
      assert MonthNumber(a) <= MonthNumber(b) by {
        assert ByMonthAsc()(r[i], r[j]);
      }
      assert MonthNumber(a) == MonthNumber(b) ==> a == b;
    }
  }

  // ---------------------------------------------------------------- marker scale

  /** `getMarkerScale`: the marker size of a cluster of `count` complaints. */
  function MarkerScale(count: int): (r: int)
    ensures r in {8, 12, 16, 20, 24, 28}
    ensures r == 8 <==> count == 1
  {
    if count == 1 then 8
    else if count <= 5 then 12
    else if count <= 10 then 16
    else if count <= 20 then 20
    else if count <= 50 then 24
    else 28
  }

  /** Larger clusters never get smaller markers. */
  lemma {:induction false} MarkerScaleMonotone(a: int, b: int)
    requires 1 <= a <= b
    ensures MarkerScale(a) <= MarkerScale(b)
  {
  }

  /** The bands: 2-5, 6-10, 11-20, 21-50 and above 50; zero and negative counts fall in the 12 band. */
  lemma {:induction false} MarkerScaleBands(count: int)
    ensures count <= 5 && count != 1 ==> MarkerScale(count) == 12
    ensures 6 <= count <= 10 ==> MarkerScale(count) == 16
    ensures 11 <= count <= 20 ==> MarkerScale(count) == 20
    ensures 21 <= count <= 50 ==> MarkerScale(count) == 24
    ensures count > 50 ==> MarkerScale(count) == 28
  {
  }
}
