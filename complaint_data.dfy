/**
 * The complaint data hook: the loaded list, the client-side filter and the
 * statistics derived from it, and the filter-state merge.
 */
module ComplaintData {
  import opened Wrappers
  import opened Tally
  import opened ComplaintClustering
  import opened ComplaintStats

  datatype DateRange = DateRange(start: string, end: string)

  datatype FilterState = FilterState(dateRange: DateRange, selectedRegion: string, selectedTimePeriod: string)

  /** A `Partial<FilterState>`: the keys that are supplied. */
  datatype FilterPatch = FilterPatch(dateRange: Option<DateRange>, selectedRegion: Option<string>,
                                     selectedTimePeriod: Option<string>)

  const AllSelected: string := "all"

  const InitialFilters: FilterState := FilterState(DateRange("2025-01-01", "2025-12-31"), AllSelected, AllSelected)

  /** `new Date(s)` as a time value; None is an invalid date (NaN). */
  type DateValue = string -> Option<int>

  /** `<` on two dates: false as soon as either is NaN. */
  predicate DateLess(a: Option<int>, b: Option<int>) {
    a.Some? && b.Some? && a.value < b.value
  }

  predicate InDateRange(date: string, range: DateRange, time: DateValue) {
    !DateLess(time(date), time(range.start)) && !DateLess(time(range.end), time(date))
  }

  /** The filter callback. */
  predicate Keep(c: Complaint, f: FilterState, time: DateValue) {
    InDateRange(c.date, f.dateRange, time) &&
    (f.selectedRegion == AllSelected || c.region == f.selectedRegion) &&
    (f.selectedTimePeriod == AllSelected || c.period == Some(f.selectedTimePeriod))
  }

  predicate SubsequenceOf<T(==)>(a: seq<T>, b: seq<T>)
    decreases |b|
  {
    a == [] || (b != [] && ((a[0] == b[0] && SubsequenceOf(a[1..], b[1..])) || SubsequenceOf(a, b[1..])))
  }

  function FilterComplaints(all: seq<Complaint>, f: FilterState, time: DateValue): (r: seq<Complaint>)
    ensures forall c :: c in r <==> c in all && Keep(c, f, time)
    ensures |r| <= |all|
  {
    if all == [] then []
    else (if Keep(all[0], f, time) then [all[0]] else []) + FilterComplaints(all[1..], f, time)
  }

  /** The filtered list keeps the loaded order. */
  lemma {:induction false} FilterIsSubsequence(all: seq<Complaint>, f: FilterState, time: DateValue)
    ensures SubsequenceOf(FilterComplaints(all, f, time), all)
  {
    if all != [] {
      FilterIsSubsequence(all[1..], f, time);
      var rest := FilterComplaints(all[1..], f, time);
      if Keep(all[0], f, time) {
        assert FilterComplaints(all, f, time) == [all[0]] + rest;
        assert ([all[0]] + rest)[1..] == rest;
      } else {
        assert FilterComplaints(all, f, time) == rest;
      }
    }
  }

  /** `ComplaintStats` of the hook. */
  datatype Stats = Stats(total: int, byRegion: seq<Entry>, byMonth: seq<Entry>, byTimePeriod: seq<Entry>)

  /** The hook's state. */
  datatype DataState = DataState(all: seq<Complaint>, filtered: seq<Complaint>, stats: Option<Stats>,
                                 allRegions: seq<Entry>, filters: FilterState)

  const InitialState: DataState := DataState([], [], None, [], InitialFilters)

  /** The statistics of a filtered list. */
  function StatsOf(filtered: seq<Complaint>, monthOf: string -> int): (s: Stats)
    ensures s.total == |filtered|
  {
    Stats(|filtered|, RegionStatsOf(filtered), MonthStatsOf(filtered, monthOf), PeriodStatsOf(filtered))
  }

  /** What a successful load stores: the list and the region rows of the whole list. */
  function LoadComplaints(st: DataState, data: seq<Complaint>): (r: DataState)
    ensures r.all == data && r.allRegions == RegionStatsOf(data)
    ensures r.filtered == st.filtered && r.stats == st.stats && r.filters == st.filters
  {
    st.(all := data, allRegions := RegionStatsOf(data))
  }

  /** `applyFilters`: nothing happens while no complaint is loaded. */
  function ApplyFilters(st: DataState, time: DateValue, monthOf: string -> int): (r: DataState)
    ensures st.all == [] ==> r == st
    ensures st.all != [] ==> r.filtered == FilterComplaints(st.all, st.filters, time) &&
                             r.stats == Some(StatsOf(r.filtered, monthOf))
    ensures r.all == st.all && r.allRegions == st.allRegions && r.filters == st.filters
  {
    if |st.all| == 0 then st
    else
      var filtered := FilterComplaints(st.all, st.filters, time);
      st.(filtered := filtered, stats := Some(StatsOf(filtered, monthOf)))
  }

  /** `updateFilters`: the supplied keys replace the previous ones, a date range as a whole. */
  function UpdateFilters(prev: FilterState, patch: FilterPatch): (r: FilterState)
    ensures r.dateRange == patch.dateRange.GetOr(prev.dateRange)
    ensures r.selectedRegion == patch.selectedRegion.GetOr(prev.selectedRegion)
    ensures r.selectedTimePeriod == patch.selectedTimePeriod.GetOr(prev.selectedTimePeriod)
  {
    FilterState(
      if patch.dateRange.Some? then patch.dateRange.value else prev.dateRange,
      if patch.selectedRegion.Some? then patch.selectedRegion.value else prev.selectedRegion,
      if patch.selectedTimePeriod.Some? then patch.selectedTimePeriod.value else prev.selectedTimePeriod)
  }

  /** An empty patch changes nothing, and later patches win. */
  lemma {:induction false} UpdateFiltersLaws(prev: FilterState, p: FilterPatch, q: FilterPatch)
    ensures UpdateFilters(prev, FilterPatch(None, None, None)) == prev
    ensures UpdateFilters(UpdateFilters(prev, p), q).selectedRegion ==
              (if q.selectedRegion.Some? then q.selectedRegion.value else UpdateFilters(prev, p).selectedRegion)
    ensures q == p ==> UpdateFilters(UpdateFilters(prev, p), q) == UpdateFilters(prev, p)
  {
  }

  /**
   * After filtering, the kept complaints are exactly those matching the
   * filters, in loaded order, the total is their number and every
   * breakdown's counts sum to that total.
   */
  lemma {:induction false} ApplyFiltersSpec(st: DataState, time: DateValue, monthOf: string -> int)
    requires st.all != []
    requires forall c :: c in st.all ==> 1 <= monthOf(c.date) <= 12
    ensures var r := ApplyFilters(st, time, monthOf);
      (forall c :: c in r.filtered <==> c in st.all && Keep(c, st.filters, time)) &&
      SubsequenceOf(r.filtered, st.all) &&
      r.stats.Some? && r.stats.value.total == |r.filtered| &&
      SumCounts(r.stats.value.byRegion) == r.stats.value.total &&
      SumCounts(r.stats.value.byMonth) == r.stats.value.total &&
      SumCounts(r.stats.value.byTimePeriod) == r.stats.value.total
  {
    var r := ApplyFilters(st, time, monthOf);
    FilterIsSubsequence(st.all, st.filters, time);
    RegionStatsSpec(r.filtered);
    PeriodStatsSpec(r.filtered);
    MonthStatsSpec(r.filtered, monthOf);
  }

  /** Filtering twice is filtering once. */
  lemma {:induction false} ApplyFiltersIdempotent(st: DataState, time: DateValue, monthOf: string -> int)
    ensures ApplyFilters(ApplyFilters(st, time, monthOf), time, monthOf) == ApplyFilters(st, time, monthOf)
  {
  }

  /** The region list shown in the panel does not depend on the filters. */
  lemma {:induction false} AllRegionsIgnoreFilters(st: DataState, data: seq<Complaint>, patch: FilterPatch,
                                time: DateValue, monthOf: string -> int)
    ensures var loaded := LoadComplaints(st, data);
      ApplyFilters(loaded.(filters := UpdateFilters(loaded.filters, patch)), time, monthOf).allRegions == RegionStatsOf(data)
  {
  }

  /** A complaint whose date is invalid passes any date range, because comparisons with NaN are false. */
  lemma {:induction false} InvalidDatePasses(c: Complaint, f: FilterState, time: DateValue)
    requires time(c.date).None?
    requires f.selectedRegion == AllSelected && f.selectedTimePeriod == AllSelected
    ensures Keep(c, f, time)
  {
  }

  /** A selected time period excludes complaints without a period. */
  lemma {:induction false} NullPeriodExcluded(c: Complaint, f: FilterState, time: DateValue)
    requires f.selectedTimePeriod != AllSelected && c.period.None?
    ensures !Keep(c, f, time)
  {
  }
}
