/**
 * The livestock pie chart's data: farms are counted per chart group, where
 * the cattle types form one slice and the two chicken types another, and
 * every other type is a slice of its own. Slices appear in the order their
 * group is first met.
 */
module PieChartPanel {
  import opened Wrappers
  import Tally
  import Constants

  /** The group a farm's `livestock_type` is counted under. */
  function ChartGroup(livestockType: string): string {
    if livestockType in ["육우", "젖소", "한우"] then "소"
    else if livestockType in ["종계/산란계", "육계"] then "닭"
    else livestockType
  }

  /**
   * The chart's grouping agrees with the shared `typeToGroup` table for the
   * types it lists, and leaves every unlisted type as its own group.
   */
  lemma {:induction false} ChartGroupMatchesTable(livestockType: string)
    ensures Constants.TypeToGroup(livestockType).Some? ==>
      ChartGroup(livestockType) == Constants.TypeToGroup(livestockType).value
    ensures Constants.TypeToGroup(livestockType).None? ==> ChartGroup(livestockType) == livestockType
  {
  }

  datatype Slice = Slice(name: string, value: nat)

  /** The chart group of each farm's type, in farm order. */
  function Groups(types: seq<string>): (r: seq<string>)
    ensures |r| == |types| && forall i :: 0 <= i < |types| ==> r[i] == ChartGroup(types[i])
  {
    seq(|types|, i requires 0 <= i < |types| => ChartGroup(types[i]))
  }

  /** One `{ name, value }` slice per counted group, in entry order. */
  function Slices(entries: seq<(string, nat)>): (r: seq<Slice>)
    ensures |r| == |entries| && forall i :: 0 <= i < |entries| ==> r[i] == Slice(entries[i].0, entries[i].1)
  {
    seq(|entries|, i requires 0 <= i < |entries| => Slice(entries[i].0, entries[i].1))
  }

  /** The slice names, in slice order. */
  function Names(data: seq<Slice>): (r: seq<string>)
    ensures |r| == |data| && forall i :: 0 <= i < |data| ==> r[i] == data[i].name
  {
    seq(|data|, i requires 0 <= i < |data| => data[i].name)
  }

  function SliceTotal(data: seq<Slice>): nat {
    if data == [] then 0 else SliceTotal(data[..|data| - 1]) + data[|data| - 1].value
  }

  /** `chartData`: the `for…of` count into `groupedCount`, then `Object.entries`. */
  method ChartData(types: seq<string>) returns (data: seq<Slice>)
    ensures data == Slices(Tally.Tally(Groups(types)))
  {
    var counts := Tally.CountKeys(Groups(types));
    data := Slices(counts);
  }

  lemma {:induction false} SliceTotalIsSum(entries: seq<(string, nat)>)
    ensures SliceTotal(Slices(entries)) == Tally.SumCounts(entries)
  {
    if entries != [] {
      var init := entries[..|entries| - 1];
      assert Slices(entries)[..|entries| - 1] == Slices(init);
      SliceTotalIsSum(init);
      SumCountsSnoc(init, entries[|entries| - 1]);
      assert init + [entries[|entries| - 1]] == entries;
    }
  }

  lemma {:induction false} SumCountsSnoc(e: seq<(string, nat)>, entry: (string, nat))
    ensures Tally.SumCounts(e + [entry]) == Tally.SumCounts(e) + entry.1
  {
    Tally.SumCountsAppend(e, entry);
  }

  /**
   * The values add up to the number of farms (farms are counted, not
   * heads), each group of a listed farm appears exactly once with a value of
   * at least one, and no farms give no slices.
   */
  lemma {:induction false} ChartDataSpec(types: seq<string>)
    ensures var data := Slices(Tally.Tally(Groups(types)));
      SliceTotal(data) == |types| &&
      (forall i, j :: 0 <= i < j < |data| ==> data[i].name != data[j].name) &&
      (forall i :: 0 <= i < |data| ==> data[i].value >= 1) &&
      (forall g :: g in Names(data) <==> g in Groups(types)) &&
      (types == [] ==> data == [])
  {
    var gs := Groups(types);
    var entries := Tally.Tally(gs);
    var data := Slices(entries);
    Tally.TallySum(gs);
    SliceTotalIsSum(entries);
    Tally.TallyEntries(gs);
    forall g ensures g in Names(data) <==> g in gs {
      var keys := Tally.EntryKeys(entries);
      assert Names(data) == keys;
    }
  }
}
