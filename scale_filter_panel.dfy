/**
 * The livestock scale filter: each group of the scale table has a slider
 * over the indices of its buckets. The panel keeps the selected index pair
 * per group, and after every change of that map it notifies the parent of
 * the groups whose pair differs from the map it saw last time, sending the
 * lower bound of the low bucket and the upper bound of the high bucket.
 * The scale table itself is a parameter.
 */
module ScaleFilterPanel {
  import opened Wrappers

  /** One bucket of a group's scale: its lower bound and optional upper bound. */
  datatype Bucket = Bucket(min: int, max: Option<int>)

  /** `onScaleChange(group, { min, max })`. */
  datatype Report = Report(group: string, min: int, max: Option<int>)

  type Pair = (int, int)

  /** Every group has a non-empty list of buckets. */
  predicate ScaleTable(groups: seq<string>, ranges: map<string, seq<Bucket>>) {
    forall g :: g in groups ==> g in ranges && |ranges[g]| > 0
  }

  /** Every group has a pair of indices into its own buckets. */
  predicate Indexes(groups: seq<string>, ranges: map<string, seq<Bucket>>, m: map<string, Pair>) {
    forall g :: g in groups ==>
      g in ranges && g in m && 0 <= m[g].0 < |ranges[g]| && 0 <= m[g].1 < |ranges[g]|
  }

  /** `initialRangeMap`: every group spans its whole bucket list, `[0, len - 1]`. */
  function InitialRangeMap(groups: seq<string>, ranges: map<string, seq<Bucket>>): (m: map<string, Pair>)
    requires ScaleTable(groups, ranges)
    ensures Indexes(groups, ranges, m)
  {
    map g | g in groups :: (0, |ranges[g]| - 1)
  }

  /** The `reduce` that builds the initial map one group at a time. */
  method BuildInitialRangeMap(groups: seq<string>, ranges: map<string, seq<Bucket>>)
    returns (acc: map<string, Pair>)
    requires ScaleTable(groups, ranges)
    ensures acc == InitialRangeMap(groups, ranges)
  {
    acc := map[];
    var i := 0;
    while i < |groups|
      invariant 0 <= i <= |groups|
      invariant acc == map g | g in groups[..i] :: (0, |ranges[g]| - 1)
    {
      assert groups[..i + 1] == groups[..i] + [groups[i]];
      acc := acc[groups[i] := (0, |ranges[groups[i]]| - 1)];
      i := i + 1;
    }
    assert groups[..i] == groups;
  }

  /** `!prevVal || prevVal[0] !== currVal[0] || prevVal[1] !== currVal[1]`. */
  predicate Changed(prev: map<string, Pair>, curr: map<string, Pair>, g: string)
    requires g in curr
  {
    g !in prev || prev[g] != curr[g]
  }

  /** The report for a group: the low bucket's `min` and the high bucket's `max`. */
  function ReportFor(ranges: map<string, seq<Bucket>>, curr: map<string, Pair>, g: string): Report
    requires g in ranges && g in curr
    requires 0 <= curr[g].0 < |ranges[g]| && 0 <= curr[g].1 < |ranges[g]|
  {
    Report(g, ranges[g][curr[g].0].min, ranges[g][curr[g].1].max)
  }

  /** The reports of one effect run, in group order. */
  function ReportsOf(groups: seq<string>, ranges: map<string, seq<Bucket>>,
                     prev: map<string, Pair>, curr: map<string, Pair>): seq<Report>
    requires Indexes(groups, ranges, curr)
  {
    if groups == [] then []
    else
      var g := groups[|groups| - 1];
      ReportsOf(groups[..|groups| - 1], ranges, prev, curr) +
      (if Changed(prev, curr, g) then [ReportFor(ranges, curr, g)] else [])
  }

  /**
   * A run reports exactly the groups whose pair changed since the last
   * map seen, each with its buckets' bounds, at most once per listed group.
   */
  lemma {:induction false} ReportsExactlyChanged(groups: seq<string>, ranges: map<string, seq<Bucket>>,
                                                 prev: map<string, Pair>, curr: map<string, Pair>)
    requires Indexes(groups, ranges, curr)
    ensures var rs := ReportsOf(groups, ranges, prev, curr);
      |rs| <= |groups| &&
      (forall r :: r in rs ==> r.group in groups && Changed(prev, curr, r.group) && r == ReportFor(ranges, curr, r.group)) &&
      (forall g :: g in groups && Changed(prev, curr, g) ==> ReportFor(ranges, curr, g) in rs)
  {
    if groups != [] {
      var init := groups[..|groups| - 1];
      assert forall g :: g in init ==> g in groups;
      assert forall g :: g in groups ==> g in init || g == groups[|groups| - 1];
      ReportsExactlyChanged(init, ranges, prev, curr);
    }
  }

  /** Before the first run the remembered map is empty, so every group is reported, in order. */
  lemma {:induction false} FirstRunReportsAll(groups: seq<string>, ranges: map<string, seq<Bucket>>, curr: map<string, Pair>)
    requires Indexes(groups, ranges, curr)
    ensures var rs := ReportsOf(groups, ranges, map[], curr);
      |rs| == |groups| && forall i :: 0 <= i < |groups| ==> rs[i] == ReportFor(ranges, curr, groups[i])
  {
    if groups != [] {
      var init := groups[..|groups| - 1];
      assert forall g :: g in init ==> g in groups;
      FirstRunReportsAll(init, ranges, curr);
    }
  }

  /** A run after which nothing changed reports nothing. */
  lemma {:induction false} UnchangedReportsNothing(groups: seq<string>, ranges: map<string, seq<Bucket>>, curr: map<string, Pair>)
    requires Indexes(groups, ranges, curr)
    ensures ReportsOf(groups, ranges, curr, curr) == []
  {
    if groups != [] {
      var init := groups[..|groups| - 1];
      assert forall g :: g in init ==> g in groups;
      UnchangedReportsNothing(init, ranges, curr);
    }
  }

  /** The panel's state: the current index pairs and the map seen by the last notification. */
  class Panel {
    const groups: seq<string>
    const ranges: map<string, seq<Bucket>>
    const initial: map<string, Pair>
    var rangeMap: map<string, Pair>
    var prevRange: map<string, Pair>

    ghost predicate Valid()
      reads this
    {
      ScaleTable(groups, ranges) && initial == InitialRangeMap(groups, ranges) &&
      Indexes(groups, ranges, rangeMap)
    }

    /** The first render: the full ranges, and an empty remembered map. */
    constructor(groups: seq<string>, ranges: map<string, seq<Bucket>>)
      requires ScaleTable(groups, ranges)
      ensures Valid()
      ensures this.groups == groups && this.ranges == ranges
      ensures rangeMap == initial && prevRange == map[]
    {
      this.groups := groups;
      this.ranges := ranges;
      var m := BuildInitialRangeMap(groups, ranges);
      initial := m;
      rangeMap := m;
      prevRange := map[];
    }

    /**
     * `handleChange(group, vals)`: only the named group's pair is replaced;
     * the slider keeps both thumbs within `[0, len - 1]`.
     */
    method HandleChange(group: string, vals: Pair)
      requires Valid()
      requires group in groups && 0 <= vals.0 < |ranges[group]| && 0 <= vals.1 < |ranges[group]|
      modifies this
      ensures Valid()
      ensures rangeMap == old(rangeMap)[group := vals] && prevRange == old(prevRange)
    {
      rangeMap := rangeMap[group := vals];
    }

    /** `resetAll`: back to the initial map. */
    method ResetAll()
      requires Valid()
      modifies this
      ensures Valid()
      ensures rangeMap == initial == InitialRangeMap(groups, ranges) && prevRange == old(prevRange)
    {
      rangeMap := initial;
    }

    /**
     * The effect that runs after each commit of `rangeMap`: the reports,
     * in group order, and the remembered map set to the current one.
     */
    method NotifyChanges() returns (reports: seq<Report>)
      requires Valid()
      modifies this
      ensures Valid()
      ensures reports == ReportsOf(groups, ranges, old(prevRange), rangeMap)
      ensures rangeMap == old(rangeMap) && prevRange == rangeMap
    {
      var prev := prevRange;
      reports := [];
      var i := 0;
      while i < |groups|
        invariant 0 <= i <= |groups|
        invariant Indexes(groups[..i], ranges, rangeMap)
        invariant reports == ReportsOf(groups[..i], ranges, prev, rangeMap)
      {
        var g := groups[i];
        assert groups[..i + 1][..i] == groups[..i];
        var curr := rangeMap[g];
        var changed := g !in prev || prev[g].0 != curr.0 || prev[g].1 != curr.1;
        if changed {
          var rs := ranges[g];
          reports := reports + [Report(g, rs[curr.0].min, rs[curr.1].max)];
        }
        i := i + 1;
      }
      assert groups[..i] == groups;
      prevRange := rangeMap;
    }
  }
}
