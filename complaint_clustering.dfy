/**
 * Grid clustering of complaint markers: complaints with truthy coordinates
 * are bucketed into 0.0005-degree cells (each cell's list in input order,
 * cells in order of first appearance); then, cell by cell, each complaint
 * not yet taken seeds a cluster and collects every untaken complaint of the
 * 3x3 neighbourhood of its own cell lying within 100 m of the seed.
 * Distance is haversine, taken here as a parameter.
 */
module ComplaintClustering {
  import opened Wrappers
  import opened Tally
  import JsNumber

  datatype Complaint = Complaint(id: int, date: string, region: string,
                                 lat: Option<real>, lng: Option<real>, period: Option<string>)

  datatype Position = Position(lat: real, lng: real)

  datatype ClusteredMarker = ClusteredMarker(position: Position, count: int,
                                             complaints: seq<Complaint>, region: string)

  /** `calculateDistance(lat1, lng1, lat2, lng2)` in metres. */
  type Distance = (real, real, real, real) -> real

  const GridSize: real := 0.0005
  const ClusterRadius: real := 100.0

  /** `complaint.lat && complaint.lng`. */
  predicate HasCoords(c: Complaint) {
    JsNumber.Truthy(c.lat) && JsNumber.Truthy(c.lng)
  }

  function LatOf(c: Complaint): real { c.lat.GetOr(0.0) }
  function LngOf(c: Complaint): real { c.lng.GetOr(0.0) }

  function DistBetween(dist: Distance, a: Complaint, b: Complaint): real {
    dist(LatOf(a), LngOf(a), LatOf(b), LngOf(b))
  }

  /** `complaints.filter((c) => c.lat && c.lng)`. */
  function ValidComplaints(cs: seq<Complaint>): (r: seq<Complaint>)
    ensures forall c :: c in r <==> c in cs && HasCoords(c)
  {
    if cs == [] then []
    else (if HasCoords(cs[0]) then [cs[0]] else []) + ValidComplaints(cs[1..])
  }

  /** A grid cell; the source renders it as the key "x,y". */
  datatype Cell = Cell(x: int, y: int)

  function CellOf(c: Complaint): Cell {
    Cell((LatOf(c) / GridSize).Floor, (LngOf(c) / GridSize).Floor)
  }

  /** `c` is one of the nine cells around `base`. */
  predicate Near(base: Cell, c: Cell) {
    -1 <= c.x - base.x <= 1 && -1 <= c.y - base.y <= 1
  }

  function CellsOf(cs: seq<Complaint>): (r: seq<Cell>)
    ensures |r| == |cs|
  {
    if cs == [] then [] else CellsOf(cs[..|cs| - 1]) + [CellOf(cs[|cs| - 1])]
  }

  lemma {:induction false} CellsOfIndex(cs: seq<Complaint>, i: int)
    requires 0 <= i < |cs|
    ensures CellsOf(cs)[i] == CellOf(cs[i])
  {
    if i < |cs| - 1 {
      CellsOfIndex(cs[..|cs| - 1], i);
    }
  }

  /** The complaints of one cell, in input order. */
  function InCell(cs: seq<Complaint>, cell: Cell): seq<Complaint> {
    if cs == [] then []
    else
      var last := cs[|cs| - 1];
      InCell(cs[..|cs| - 1], cell) + (if CellOf(last) == cell then [last] else [])
  }

  /** A cell's list holds exactly the complaints of `cs` in that cell. */
  lemma {:induction false} InCellMembers(cs: seq<Complaint>, cell: Cell)
    ensures forall c :: c in InCell(cs, cell) <==> c in cs && CellOf(c) == cell
  {
    if cs != [] {
      var last := cs[|cs| - 1];
      assert cs == cs[..|cs| - 1] + [last];
      InCellMembers(cs[..|cs| - 1], cell);
    }
  }

  // ---------------------------------------------------------------- clusters

  function SumLat(cs: seq<Complaint>): real {
    if cs == [] then 0.0 else LatOf(cs[0]) + SumLat(cs[1..])
  }

  function SumLng(cs: seq<Complaint>): real {
    if cs == [] then 0.0 else LngOf(cs[0]) + SumLng(cs[1..])
  }

  /** The arithmetic mean of the members' coordinates. */
  function Mean(cs: seq<Complaint>): Position
    requires cs != []
  {
    Position(SumLat(cs) / |cs| as real, SumLng(cs) / |cs| as real)
  }

  function MarkerOf(cluster: seq<Complaint>): ClusteredMarker
    requires cluster != []
  {
    ClusteredMarker(Mean(cluster), |cluster|, cluster, cluster[0].region)
  }

  /** Member 0 is the seed; every other member has another id, lies around the seed's cell and within 100 m of it. */
  predicate StarAround(cluster: seq<Complaint>, dist: Distance) {
    cluster != [] &&
    forall i :: 1 <= i < |cluster| ==>
      cluster[i].id != cluster[0].id && Near(CellOf(cluster[0]), CellOf(cluster[i])) &&
      DistBetween(dist, cluster[0], cluster[i]) <= ClusterRadius
  }

  predicate WellFormed(m: ClusteredMarker, dist: Distance) {
    StarAround(m.complaints, dist) && m.count == |m.complaints| &&
    m.position == Mean(m.complaints) && m.region == m.complaints[0].region
  }

  function Seed(m: ClusteredMarker): Complaint
    requires m.complaints != []
  {
    m.complaints[0]
  }

  /** All members of all clusters, cluster by cluster. */
  function Members(ms: seq<ClusteredMarker>): seq<Complaint> {
    if ms == [] then [] else Members(ms[..|ms| - 1]) + ms[|ms| - 1].complaints
  }

  lemma {:induction false} MembersSnoc(ms: seq<ClusteredMarker>, m: ClusteredMarker)
    ensures Members(ms + [m]) == Members(ms) + m.complaints
  {
    assert (ms + [m])[..|ms|] == ms;
  }

  ghost function IdsOf(cs: seq<Complaint>): set<int> {
    set c | c in cs :: c.id
  }

  predicate DistinctIds(cs: seq<Complaint>) {
    forall i, j :: 0 <= i < j < |cs| ==> cs[i].id != cs[j].id
  }

  lemma {:induction false} IdsSnoc(cs: seq<Complaint>, c: Complaint)
    ensures IdsOf(cs + [c]) == IdsOf(cs) + {c.id}
  {
  }

  lemma {:induction false} DistinctSnoc(cs: seq<Complaint>, c: Complaint)
    requires DistinctIds(cs) && c.id !in IdsOf(cs)
    ensures DistinctIds(cs + [c])
  {
    forall i | 0 <= i < |cs| ensures (cs + [c])[i].id != c.id {
      assert cs[i] in cs;
    }
  }

  // ---------------------------------------------------------------- grid

  /**
   * The spatial hash of `valid`: `cells` lists the occupied cells in order of
   * first appearance (a `Map`'s insertion order) and `grid[cell]` holds the
   * complaints of that cell in input order.
   */
  ghost predicate GridOf(valid: seq<Complaint>, cells: seq<Cell>, grid: map<Cell, seq<Complaint>>) {
    cells == Keys(CellsOf(valid)) &&
    (forall c :: c in grid <==> c in cells) &&
    (forall c :: c in grid ==> grid[c] == InCell(valid, c))
  }

  /** The `forEach` that fills the spatial hash. */
  method BuildGrid(valid: seq<Complaint>) returns (cells: seq<Cell>, grid: map<Cell, seq<Complaint>>)
    ensures GridOf(valid, cells, grid)
  {
    cells := [];
    grid := map[];
    var i := 0;
    while i < |valid|
      invariant 0 <= i <= |valid|
      invariant GridOf(valid[..i], cells, grid)
    {
      var complaint := valid[i];
      var key := CellOf(complaint);
      assert valid[..i + 1] == valid[..i] + [complaint];
      GridStep(valid[..i], complaint, cells, grid);
      if key !in grid {
        grid := grid[key := []];
        cells := cells + [key];
      }
      grid := grid[key := grid[key] + [complaint]];
      i := i + 1;
    }
    assert valid[..i] == valid;
  }

  lemma {:induction false} GridStep(pre: seq<Complaint>, x: Complaint, cells: seq<Cell>, grid: map<Cell, seq<Complaint>>)
    requires GridOf(pre, cells, grid)
    ensures var key := CellOf(x);
      var cells' := if key in grid then cells else cells + [key];
      var g0 := if key in grid then grid else grid[key := []];
      GridOf(pre + [x], cells', g0[key := g0[key] + [x]])
  {
    if CellOf(x) in grid {
      GridStepOld(pre, x, cells, grid);
    } else {
      GridStepNew(pre, x, cells, grid);
    }
  }

  /** A complaint in an occupied cell is appended to that cell's list. */
  lemma {:induction false} GridStepOld(pre: seq<Complaint>, x: Complaint, cells: seq<Cell>, grid: map<Cell, seq<Complaint>>)
    requires GridOf(pre, cells, grid) && CellOf(x) in grid
    ensures GridOf(pre + [x], cells, grid[CellOf(x) := grid[CellOf(x)] + [x]])
  {
    CellKeysOld(pre, x);
    GridListsSnoc(pre, x, grid);
  }

  lemma {:induction false} CellKeysOld(pre: seq<Complaint>, x: Complaint)
    requires CellOf(x) in Keys(CellsOf(pre))
    ensures Keys(CellsOf(pre + [x])) == Keys(CellsOf(pre))
  {
    CellsSnoc(pre, x);
    KeysSnocOld(CellsOf(pre), CellOf(x));
  }

  /** A complaint in a new cell opens that cell at the end of the cell list. */
  lemma {:induction false} GridStepNew(pre: seq<Complaint>, x: Complaint, cells: seq<Cell>, grid: map<Cell, seq<Complaint>>)
    requires GridOf(pre, cells, grid) && CellOf(x) !in grid
    ensures GridOf(pre + [x], cells + [CellOf(x)], grid[CellOf(x) := [x]])
  {
    CellKeysNew(pre, x);
    InCellEmpty(pre, CellOf(x));
    GridListsSnoc(pre, x, grid);
  }

  lemma {:induction false} CellKeysNew(pre: seq<Complaint>, x: Complaint)
    requires CellOf(x) !in Keys(CellsOf(pre))
    ensures CellOf(x) !in CellsOf(pre)
    ensures Keys(CellsOf(pre + [x])) == Keys(CellsOf(pre)) + [CellOf(x)]
  {
    CellsSnoc(pre, x);
    KeysSnocNew(CellsOf(pre), CellOf(x));
  }

  /** Appending `x` to its cell's list (opened empty if new) keeps every list equal to its cell's complaints. */
  lemma {:induction false} GridListsSnoc(pre: seq<Complaint>, x: Complaint, grid: map<Cell, seq<Complaint>>)
    requires forall c :: c in grid ==> grid[c] == InCell(pre, c)
    requires CellOf(x) !in grid ==> InCell(pre, CellOf(x)) == []
    ensures var key := CellOf(x);
      var g1 := grid[key := (if key in grid then grid[key] else []) + [x]];
      forall c :: c in g1 ==> g1[c] == InCell(pre + [x], c)
  {
    var key := CellOf(x);
    var g1 := grid[key := (if key in grid then grid[key] else []) + [x]];
    forall c | c in g1 ensures g1[c] == InCell(pre + [x], c) {
      InCellSnoc(pre, x, c);
    }
  }

  lemma {:induction false} CellsSnoc(before: seq<Complaint>, c: Complaint)
    ensures CellsOf(before + [c]) == CellsOf(before) + [CellOf(c)]
  {
    assert (before + [c])[..|before|] == before;
  }

  lemma {:induction false} InCellSnoc(before: seq<Complaint>, c: Complaint, cell: Cell)
    ensures InCell(before + [c], cell) == InCell(before, cell) + (if CellOf(c) == cell then [c] else [])
  {
    assert (before + [c])[..|before|] == before;
  }

  lemma {:induction false} InCellEmpty(cs: seq<Complaint>, cell: Cell)
    requires cell !in CellsOf(cs)
    ensures InCell(cs, cell) == []
  {
    if cs != [] {
      assert CellsOf(cs) == CellsOf(cs[..|cs| - 1]) + [CellOf(cs[|cs| - 1])];
      InCellEmpty(cs[..|cs| - 1], cell);
    }
  }

  /** Every complaint of `cs` lies in a cell of `Keys(CellsOf(cs))`. */
  lemma {:induction false} CellListed(cs: seq<Complaint>, c: Complaint)
    requires c in cs
    ensures CellOf(c) in Keys(CellsOf(cs))
  {
    var i :| 0 <= i < |cs| && cs[i] == c;
    CellsOfIndex(cs, i);
  }

  // ---------------------------------------------------------------- scanning

  /**
   * The forEach over one neighbour list: an untaken complaint other than
   * the seed joins when within 100 m. Afterwards every complaint of the list
   * is taken or farther than 100 m from the seed.
   */
  method ScanCell(seed: Complaint, nb: seq<Complaint>, cluster: seq<Complaint>, processed: set<int>,
                  ghost done: seq<Complaint>, dist: Distance)
    returns (cluster': seq<Complaint>, processed': set<int>)
    requires StarAround(cluster, dist) && cluster[0] == seed
    requires forall w :: w in nb ==> Near(CellOf(seed), CellOf(w))
    requires DistinctIds(done + cluster) && processed == IdsOf(done + cluster)
    ensures StarAround(cluster', dist) && cluster'[0] == seed
    ensures DistinctIds(done + cluster') && processed' == IdsOf(done + cluster')
    ensures |cluster| <= |cluster'| && cluster'[..|cluster|] == cluster
    ensures forall i :: |cluster| <= i < |cluster'| ==> cluster'[i] in nb
    ensures processed <= processed'
    ensures forall t :: 0 <= t < |nb| ==> nb[t].id in processed' || DistBetween(dist, seed, nb[t]) > ClusterRadius
  {
    cluster', processed' := cluster, processed;
    var t := 0;
    while t < |nb|
      invariant 0 <= t <= |nb|
      invariant StarAround(cluster', dist) && cluster'[0] == seed
      invariant DistinctIds(done + cluster') && processed' == IdsOf(done + cluster')
      invariant |cluster| <= |cluster'| && cluster'[..|cluster|] == cluster
      invariant forall i :: |cluster| <= i < |cluster'| ==> cluster'[i] in nb
      invariant processed <= processed'
      invariant forall u :: 0 <= u < t ==> nb[u].id in processed' || DistBetween(dist, seed, nb[u]) > ClusterRadius
    {
      var other := nb[t];
      if other.id in processed' || other.id == seed.id {
        assert seed in done + cluster';
      } else if DistBetween(dist, seed, other) <= ClusterRadius {
        JoinCluster(seed, cluster', done, other, dist);
        assert (cluster' + [other])[..|cluster|] == cluster'[..|cluster|];
        cluster' := cluster' + [other];
        processed' := processed' + {other.id};
      }
      t := t + 1;
    }
  }

  /** An untaken complaint near the seed, within 100 m, joins the star with its id. */
  lemma {:induction false} JoinCluster(seed: Complaint, cluster: seq<Complaint>, done: seq<Complaint>,
                                       other: Complaint, dist: Distance)
    requires StarAround(cluster, dist) && cluster[0] == seed
    requires DistinctIds(done + cluster)
    requires other.id !in IdsOf(done + cluster) && other.id != seed.id
    requires Near(CellOf(seed), CellOf(other)) && DistBetween(dist, seed, other) <= ClusterRadius
    ensures StarAround(cluster + [other], dist) && (cluster + [other])[0] == seed
    ensures DistinctIds(done + (cluster + [other]))
    ensures IdsOf(done + (cluster + [other])) == IdsOf(done + cluster) + {other.id}
  {
    DistinctSnoc(done + cluster, other);
    IdsSnoc(done + cluster, other);
    assert (done + cluster) + [other] == done + (cluster + [other]);
  }

  /** `c` lies around `base` in a cell visited before offset (dx, dy) of the 3x3 scan. */
  predicate ScannedBefore(base: Cell, c: Cell, dx: int, dy: int) {
    Near(base, c) && (c.x - base.x < dx || (c.x - base.x == dx && c.y - base.y < dy))
  }

  /**
   * Grows the cluster of `seed` over the 3x3 neighbourhood of its cell.
   * Afterwards every valid complaint around the seed's cell is taken or
   * farther than 100 m from the seed.
   */
  method GrowCluster(seed: Complaint, valid: seq<Complaint>, cells: seq<Cell>, grid: map<Cell, seq<Complaint>>,
                     processed: set<int>, ghost done: seq<Complaint>, dist: Distance)
    returns (cluster: seq<Complaint>, processed': set<int>)
    requires GridOf(valid, cells, grid)
    requires seed.id !in processed
    requires DistinctIds(done) && processed == IdsOf(done)
    ensures StarAround(cluster, dist) && cluster[0] == seed
    ensures DistinctIds(done + cluster) && processed' == IdsOf(done + cluster)
    ensures forall c :: c in cluster[1..] ==> c in valid
    ensures processed <= processed'
    ensures forall w :: w in valid && Near(CellOf(seed), CellOf(w)) ==>
              w.id in processed' || DistBetween(dist, seed, w) > ClusterRadius
  {
    cluster := [seed];
    processed' := processed + {seed.id};
    DistinctSnoc(done, seed);
    IdsSnoc(done, seed);
    var base := CellOf(seed);
    var dx := -1;
    while dx <= 1
      invariant -1 <= dx <= 2
      invariant StarAround(cluster, dist) && cluster[0] == seed
      invariant DistinctIds(done + cluster) && processed' == IdsOf(done + cluster)
      invariant forall c :: c in cluster[1..] ==> c in valid
      invariant processed <= processed'
      invariant forall w :: w in valid && ScannedBefore(base, CellOf(w), dx, -1) ==>
                  w.id in processed' || DistBetween(dist, seed, w) > ClusterRadius
    {
      var dy := -1;
      while dy <= 1
        invariant -1 <= dy <= 2
        invariant StarAround(cluster, dist) && cluster[0] == seed
        invariant DistinctIds(done + cluster) && processed' == IdsOf(done + cluster)
        invariant forall c :: c in cluster[1..] ==> c in valid
        invariant processed <= processed'
        invariant forall w :: w in valid && ScannedBefore(base, CellOf(w), dx, dy) ==>
                    w.id in processed' || DistBetween(dist, seed, w) > ClusterRadius
      {
        var key := Cell(base.x + dx, base.y + dy);
        var nb := if key in grid then grid[key] else [];
        ghost var oldCluster := cluster;
        ghost var oldProcessed := processed';
        if key in grid {
          InCellMembers(valid, key);
        }
        cluster, processed' := ScanCell(seed, nb, cluster, processed', done, dist);
        GrownFromValid(valid, oldCluster, cluster, nb);
        ScannedNext(valid, cells, grid, base, dx, dy, oldProcessed, processed', seed, dist);
        dy := dy + 1;
      }
      dx := dx + 1;
    }
  }

  /** Members added from a neighbour list of valid complaints are valid. */
  lemma {:induction false} GrownFromValid(valid: seq<Complaint>, before: seq<Complaint>, after: seq<Complaint>,
                                          nb: seq<Complaint>)
    requires 1 <= |before| <= |after| && after[..|before|] == before
    requires forall c :: c in before[1..] ==> c in valid
    requires forall i :: |before| <= i < |after| ==> after[i] in nb
    requires forall w :: w in nb ==> w in valid
    ensures forall c :: c in after[1..] ==> c in valid
  {
    forall c | c in after[1..] ensures c in valid {
      var i :| 1 <= i < |after| && after[i] == c;
      if i < |before| {
        assert c == before[i];
        assert c in before[1..];
      }
    }
  }

  /** Scanning the cell at offset (dx, dy) extends the scanned region by that cell. */
  lemma {:induction false} ScannedNext(valid: seq<Complaint>, cells: seq<Cell>, grid: map<Cell, seq<Complaint>>,
                                       base: Cell, dx: int, dy: int, before: set<int>, after: set<int>,
                                       seed: Complaint, dist: Distance)
    requires GridOf(valid, cells, grid)
    requires before <= after
    requires forall w :: w in valid && ScannedBefore(base, CellOf(w), dx, dy) ==>
               w.id in before || DistBetween(dist, seed, w) > ClusterRadius
    requires var key := Cell(base.x + dx, base.y + dy);
      var nb := if key in grid then grid[key] else [];
      forall t :: 0 <= t < |nb| ==> nb[t].id in after || DistBetween(dist, seed, nb[t]) > ClusterRadius
    requires -1 <= dx <= 1 && -1 <= dy <= 1
    ensures forall w :: w in valid && ScannedBefore(base, CellOf(w), dx, dy + 1) ==>
              w.id in after || DistBetween(dist, seed, w) > ClusterRadius
  {
    var key := Cell(base.x + dx, base.y + dy);
    var nb := if key in grid then grid[key] else [];
    forall w | w in valid && ScannedBefore(base, CellOf(w), dx, dy + 1)
      ensures w.id in after || DistBetween(dist, seed, w) > ClusterRadius
    {
      if CellOf(w) == key {
        InOwnCell(valid, cells, grid, w);
        assert w in nb;
        var t :| 0 <= t < |nb| && nb[t] == w;
        assert nb[t].id in after || DistBetween(dist, seed, nb[t]) > ClusterRadius;
      } else {
        assert ScannedBefore(base, CellOf(w), dx, dy);
        assert w.id in before || DistBetween(dist, seed, w) > ClusterRadius;
      }
    }
  }

  /** Each valid complaint is listed under its own cell of the grid. */
  lemma {:induction false} InOwnCell(valid: seq<Complaint>, cells: seq<Cell>, grid: map<Cell, seq<Complaint>>,
                                     w: Complaint)
    requires GridOf(valid, cells, grid) && w in valid
    ensures CellOf(w) in grid && w in grid[CellOf(w)]
  {
    CellListed(valid, w);
    InCellMembers(valid, CellOf(w));
  }

  // ---------------------------------------------------------------- main loop

  /** Later seeds lying around an earlier seed's cell are more than 100 m from it. */
  predicate SeedsSeparated(ms: seq<ClusteredMarker>, dist: Distance) {
    forall j, k ::
      0 <= j < k < |ms| && ms[j].complaints != [] && ms[k].complaints != [] &&
      Near(CellOf(Seed(ms[j])), CellOf(Seed(ms[k]))) ==>
      DistBetween(dist, Seed(ms[j]), Seed(ms[k])) > ClusterRadius
  }

  /**
   * The state of the main loop: well-formed clusters of valid complaints,
   * `processed` the ids taken so far, and for each cluster the ids taken
   * when it was closed (`snaps`), which no later seed has and which cover
   * every complaint around the seed's cell within 100 m of the seed.
   */
  ghost predicate LoopState(valid: seq<Complaint>, ms: seq<ClusteredMarker>, processed: set<int>,
                            snaps: seq<set<int>>, dist: Distance)
  {
    |snaps| == |ms| &&
    (forall k :: 0 <= k < |ms| ==> WellFormed(ms[k], dist)) &&
    (forall c :: c in Members(ms) ==> c in valid) &&
    DistinctIds(Members(ms)) && processed == IdsOf(Members(ms)) &&
    (forall j :: 0 <= j < |snaps| ==> snaps[j] <= processed) &&
    (forall j, k :: 0 <= j < k < |ms| ==> Seed(ms[k]).id !in snaps[j]) &&
    (forall j, w :: 0 <= j < |ms| && w in valid && Near(CellOf(Seed(ms[j])), CellOf(w)) ==>
       w.id in snaps[j] || DistBetween(dist, Seed(ms[j]), w) > ClusterRadius)
  }

  lemma {:induction false} LoopStateSeparated(valid: seq<Complaint>, ms: seq<ClusteredMarker>, processed: set<int>,
                           snaps: seq<set<int>>, dist: Distance)
    requires LoopState(valid, ms, processed, snaps, dist)
    ensures SeedsSeparated(ms, dist)
  {
    forall j, k | 0 <= j < k < |ms| && ms[j].complaints != [] && ms[k].complaints != [] &&
                  Near(CellOf(Seed(ms[j])), CellOf(Seed(ms[k])))
      ensures DistBetween(dist, Seed(ms[j]), Seed(ms[k])) > ClusterRadius
    {
      var q := Seed(ms[k]);
      MembersPrefix(ms, k);
      assert q in Members(ms);
    }
  }

  /** The members of the first `k + 1` clusters come first, so each seed is a member. */
  lemma {:induction false} MembersPrefix(ms: seq<ClusteredMarker>, k: int)
    requires 0 <= k < |ms|
    ensures forall c :: c in ms[k].complaints ==> c in Members(ms)
  {
    if k < |ms| - 1 {
      MembersPrefix(ms[..|ms| - 1], k);
    }
  }

  lemma {:induction false} AddCluster(valid: seq<Complaint>, ms: seq<ClusteredMarker>, before: set<int>, processed: set<int>,
                   snaps: seq<set<int>>, cluster: seq<Complaint>, dist: Distance)
    requires LoopState(valid, ms, before, snaps, dist)
    requires StarAround(cluster, dist) && cluster[0] in valid && cluster[0].id !in before
    requires DistinctIds(Members(ms) + cluster) && processed == IdsOf(Members(ms) + cluster)
    requires forall c :: c in cluster[1..] ==> c in valid
    requires before <= processed
    requires forall w :: w in valid && Near(CellOf(cluster[0]), CellOf(w)) ==>
               w.id in processed || DistBetween(dist, cluster[0], w) > ClusterRadius
    ensures LoopState(valid, ms + [MarkerOf(cluster)], processed, snaps + [processed], dist)
  {
    var m := MarkerOf(cluster);
    MembersSnoc(ms, m);
    ClusterMembersValid(valid, ms, cluster);
    ClusterSeedUntaken(ms, snaps, before, processed, cluster);
    ClusterSnapsCover(valid, ms, snaps, processed, cluster, dist);
  }

  lemma {:induction false} ClusterMembersValid(valid: seq<Complaint>, ms: seq<ClusteredMarker>, cluster: seq<Complaint>)
    requires forall c :: c in Members(ms) ==> c in valid
    requires cluster != [] && cluster[0] in valid && forall c :: c in cluster[1..] ==> c in valid
    ensures forall c :: c in Members(ms + [MarkerOf(cluster)]) ==> c in valid
  {
    MembersSnoc(ms, MarkerOf(cluster));
    forall c | c in Members(ms) + cluster ensures c in valid {
      if c !in Members(ms) && c != cluster[0] {
        var i :| 0 <= i < |cluster| && cluster[i] == c;
        assert c == cluster[1..][i - 1];
      }
    }
  }

  lemma {:induction false} ClusterSeedUntaken(ms: seq<ClusteredMarker>, snaps: seq<set<int>>, before: set<int>,
                                              processed: set<int>, cluster: seq<Complaint>)
    requires |snaps| == |ms| && forall k :: 0 <= k < |ms| ==> ms[k].complaints != []
    requires forall j, k :: 0 <= j < k < |ms| ==> Seed(ms[k]).id !in snaps[j]
    requires forall j :: 0 <= j < |snaps| ==> snaps[j] <= before
    requires cluster != [] && cluster[0].id !in before
    ensures forall j, k :: 0 <= j < k < |ms| + 1 ==>
      Seed((ms + [MarkerOf(cluster)])[k]).id !in (snaps + [processed])[j]
  {
    var ms' := ms + [MarkerOf(cluster)];
    var snaps' := snaps + [processed];
    forall j, k | 0 <= j < k < |ms'| ensures Seed(ms'[k]).id !in snaps'[j] {
      if k == |ms| {
        assert Seed(ms'[k]) == cluster[0];
        assert snaps'[j] == snaps[j];
      } else {
        assert ms'[k] == ms[k] && snaps'[j] == snaps[j];
      }
    }
  }

  lemma {:induction false} ClusterSnapsCover(valid: seq<Complaint>, ms: seq<ClusteredMarker>, snaps: seq<set<int>>,
                                             processed: set<int>, cluster: seq<Complaint>, dist: Distance)
    requires |snaps| == |ms| && forall k :: 0 <= k < |ms| ==> ms[k].complaints != []
    requires forall j, w :: 0 <= j < |ms| && w in valid && Near(CellOf(Seed(ms[j])), CellOf(w)) ==>
               w.id in snaps[j] || DistBetween(dist, Seed(ms[j]), w) > ClusterRadius
    requires cluster != []
    requires forall w :: w in valid && Near(CellOf(cluster[0]), CellOf(w)) ==>
               w.id in processed || DistBetween(dist, cluster[0], w) > ClusterRadius
    ensures var ms', snaps' := ms + [MarkerOf(cluster)], snaps + [processed];
      forall j, w :: 0 <= j < |ms'| && w in valid && Near(CellOf(Seed(ms'[j])), CellOf(w)) ==>
        w.id in snaps'[j] || DistBetween(dist, Seed(ms'[j]), w) > ClusterRadius
  {
    var ms' := ms + [MarkerOf(cluster)];
    var snaps' := snaps + [processed];
    forall j, w | 0 <= j < |ms'| && w in valid && Near(CellOf(Seed(ms'[j])), CellOf(w))
      ensures w.id in snaps'[j] || DistBetween(dist, Seed(ms'[j]), w) > ClusterRadius
    {
      if j < |ms| {
        assert ms'[j] == ms[j] && snaps'[j] == snaps[j];
      }
    }
  }

  /** Every valid complaint of the first `ci` cells, and the first `li` of cell `ci`, is taken. */
  ghost predicate Covered(cells: seq<Cell>, grid: map<Cell, seq<Complaint>>, ci: int, li: int, processed: set<int>)
    requires 0 <= ci <= |cells| && forall c :: c in cells ==> c in grid
  {
    (forall k, w :: 0 <= k < ci && w in grid[cells[k]] ==> w.id in processed) &&
    (ci < |cells| ==> forall l :: 0 <= l < li && l < |grid[cells[ci]]| ==> grid[cells[ci]][l].id in processed)
  }

  lemma {:induction false} CoveredStep(cells: seq<Cell>, grid: map<Cell, seq<Complaint>>, ci: int, li: int,
                    before: set<int>, after: set<int>)
    requires 0 <= ci < |cells| && forall c :: c in cells ==> c in grid
    requires 0 <= li < |grid[cells[ci]]|
    requires Covered(cells, grid, ci, li, before) && before <= after
    requires grid[cells[ci]][li].id in after
    ensures Covered(cells, grid, ci, li + 1, after)
  {
  }

  lemma {:induction false} CoveredNextCell(cells: seq<Cell>, grid: map<Cell, seq<Complaint>>, ci: int, processed: set<int>)
    requires 0 <= ci < |cells| && forall c :: c in cells ==> c in grid
    requires Covered(cells, grid, ci, |grid[cells[ci]]|, processed)
    ensures Covered(cells, grid, ci + 1, 0, processed)
  {
    forall k, w | 0 <= k < ci + 1 && w in grid[cells[k]] ensures w.id in processed {
      if k == ci {
        var l :| 0 <= l < |grid[cells[ci]]| && grid[cells[ci]][l] == w;
      }
    }
  }

  /** Without repeated ids a list holds each complaint at most once. */
  lemma {:induction false} DistinctCount(s: seq<Complaint>, x: Complaint)
    requires DistinctIds(s)
    ensures multiset(s)[x] == if x in s then 1 else 0
  {
    if s != [] {
      assert s == [s[0]] + s[1..];
      assert DistinctIds(s[1..]) by {
        forall i, j | 0 <= i < j < |s[1..]| ensures s[1..][i].id != s[1..][j].id {
          assert s[1..][i] == s[i + 1] && s[1..][j] == s[j + 1];
        }
      }
      DistinctCount(s[1..], x);
    }
  }

  /**
   * Members drawn from `valid`, with distinct ids and covering every id of
   * `valid`, are a permutation of `valid` when its ids are distinct.
   */
  lemma {:induction false} Partition(valid: seq<Complaint>, members: seq<Complaint>)
    requires DistinctIds(valid) && DistinctIds(members)
    requires forall c :: c in members ==> c in valid
    requires forall v :: v in valid ==> exists m :: m in members && m.id == v.id
    ensures multiset(members) == multiset(valid)
  {
    forall x ensures multiset(members)[x] == multiset(valid)[x] {
      DistinctCount(members, x);
      DistinctCount(valid, x);
      if x in valid {
        MemberOfSameId(valid, members, x);
      }
    }
  }

  lemma {:induction false} MemberOfSameId(valid: seq<Complaint>, members: seq<Complaint>, x: Complaint)
    requires DistinctIds(valid) && x in valid
    requires forall c :: c in members ==> c in valid
    requires exists m :: m in members && m.id == x.id
    ensures x in members
  {
    var m :| m in members && m.id == x.id;
    assert m in valid;
    var i :| 0 <= i < |valid| && valid[i] == m;
    var j :| 0 <= j < |valid| && valid[j] == x;
    assert i == j;
  }

  /** Every cluster has a member, so there are no more clusters than members. */
  lemma {:induction false} ClustersAtMostMembers(ms: seq<ClusteredMarker>, dist: Distance)
    requires forall k :: 0 <= k < |ms| ==> WellFormed(ms[k], dist)
    ensures |ms| <= |Members(ms)|
  {
    if ms != [] {
      ClustersAtMostMembers(ms[..|ms| - 1], dist);
    }
  }

  /** `createClusteredMarkers`. */
  method CreateClusteredMarkers(complaints: seq<Complaint>, dist: Distance) returns (markers: seq<ClusteredMarker>)
    ensures ValidComplaints(complaints) == [] ==> markers == []
    ensures forall k :: 0 <= k < |markers| ==> WellFormed(markers[k], dist)
    ensures forall c :: c in Members(markers) ==> c in ValidComplaints(complaints)
    ensures DistinctIds(Members(markers))
    ensures forall v :: v in ValidComplaints(complaints) ==> exists m :: m in Members(markers) && m.id == v.id
    ensures SeedsSeparated(markers, dist)
    ensures DistinctIds(ValidComplaints(complaints)) ==>
              multiset(Members(markers)) == multiset(ValidComplaints(complaints)) &&
              |markers| <= |ValidComplaints(complaints)|
  {
    markers := [];
    var valid := ValidComplaints(complaints);
    if |valid| == 0 {
      return;
    }
    var cells, grid := BuildGrid(valid);
    var processed: set<int> := {};
    ghost var snaps: seq<set<int>> := [];
    var ci := 0;
    while ci < |cells|
      invariant 0 <= ci <= |cells|
      invariant LoopState(valid, markers, processed, snaps, dist)
      invariant Covered(cells, grid, ci, 0, processed)
    {
      var list := grid[cells[ci]];
      InCellMembers(valid, cells[ci]);
      var li := 0;
      while li < |list|
        invariant 0 <= li <= |list|
        invariant LoopState(valid, markers, processed, snaps, dist)
        invariant Covered(cells, grid, ci, li, processed)
      {
        var complaint := list[li];
        ghost var start := processed;
        if complaint.id !in processed {
          assert complaint in valid;
          ghost var before := processed;
          var cluster;
          cluster, processed := GrowCluster(complaint, valid, cells, grid, processed, Members(markers), dist);
          AddCluster(valid, markers, before, processed, snaps, cluster, dist);
          markers := markers + [MarkerOf(cluster)];
          snaps := snaps + [processed];
          assert complaint in Members(markers[..|markers| - 1]) + cluster;
        }
        CoveredStep(cells, grid, ci, li, start, processed);
        li := li + 1;
      }
      CoveredNextCell(cells, grid, ci, processed);
      ci := ci + 1;
    }
    ClusteringDone(valid, cells, grid, markers, processed, snaps, dist);
  }

  /** When every cell has been visited, the clusters partition the valid complaints. */
  lemma {:induction false} ClusteringDone(valid: seq<Complaint>, cells: seq<Cell>, grid: map<Cell, seq<Complaint>>,
                                          markers: seq<ClusteredMarker>, processed: set<int>,
                                          snaps: seq<set<int>>, dist: Distance)
    requires GridOf(valid, cells, grid)
    requires LoopState(valid, markers, processed, snaps, dist)
    requires Covered(cells, grid, |cells|, 0, processed)
    ensures forall v :: v in valid ==> exists m :: m in Members(markers) && m.id == v.id
    ensures SeedsSeparated(markers, dist)
    ensures DistinctIds(valid) ==>
              multiset(Members(markers)) == multiset(valid) && |markers| <= |valid|
  {
    LoopStateSeparated(valid, markers, processed, snaps, dist);
    forall v | v in valid ensures exists m :: m in Members(markers) && m.id == v.id {
      InOwnCell(valid, cells, grid, v);
      var k :| 0 <= k < |cells| && cells[k] == CellOf(v);
      assert v.id in IdsOf(Members(markers));
    }
    if DistinctIds(valid) {
      Partition(valid, Members(markers));
      ClustersAtMostMembers(markers, dist);
      assert |multiset(Members(markers))| == |Members(markers)|;
    }
  }
}
