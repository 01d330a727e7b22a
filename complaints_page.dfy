/**
 * The complaints page: its own all-pairs clustering (each unclustered
 * located complaint, in input order, seeds a cluster of the untaken
 * located complaints within 100 m of it) and the marker click that sorts a
 * cluster's complaints in place, newest first. Its filter and statistics
 * are the same as the data hook's (module ComplaintData).
 */
module ComplaintsPage {
  import opened Wrappers
  import opened ComplaintClustering

  /** Member 0 is the seed; every member is located, and every other one has another id and lies within 100 m of the seed. */
  predicate StarWithin(cluster: seq<Complaint>, dist: Distance) {
    cluster != [] && HasCoords(cluster[0]) &&
    forall i :: 1 <= i < |cluster| ==>
      cluster[i].id != cluster[0].id && HasCoords(cluster[i]) &&
      DistBetween(dist, cluster[0], cluster[i]) <= ClusterRadius
  }

  predicate PairMarker(m: ClusteredMarker, dist: Distance) {
    StarWithin(m.complaints, dist) && m.count == |m.complaints| &&
    m.position == Mean(m.complaints) && m.region == m.complaints[0].region
  }

  /**
   * The inner `forEach` over all complaints: a located, untaken complaint
   * other than the seed joins when within 100 m.
   */
  method ScanAll(seed: Complaint, complaints: seq<Complaint>, cluster: seq<Complaint>, processed: set<int>,
                 ghost done: seq<Complaint>, dist: Distance)
    returns (cluster': seq<Complaint>, processed': set<int>)
    requires StarWithin(cluster, dist) && cluster[0] == seed
    requires DistinctIds(done + cluster) && processed == IdsOf(done + cluster)
    ensures StarWithin(cluster', dist) && cluster'[0] == seed
    ensures DistinctIds(done + cluster') && processed' == IdsOf(done + cluster')
    ensures |cluster| <= |cluster'| && cluster'[..|cluster|] == cluster
    ensures forall i :: |cluster| <= i < |cluster'| ==> cluster'[i] in complaints
    ensures processed <= processed'
    ensures forall t :: 0 <= t < |complaints| && HasCoords(complaints[t]) ==>
              complaints[t].id in processed' || DistBetween(dist, seed, complaints[t]) > ClusterRadius
  {
    cluster', processed' := cluster, processed;
    var t := 0;
    while t < |complaints|
      invariant 0 <= t <= |complaints|
      invariant StarWithin(cluster', dist) && cluster'[0] == seed
      invariant DistinctIds(done + cluster') && processed' == IdsOf(done + cluster')
      invariant |cluster| <= |cluster'| && cluster'[..|cluster|] == cluster
      invariant forall i :: |cluster| <= i < |cluster'| ==> cluster'[i] in complaints
      invariant processed <= processed'
      invariant forall u :: 0 <= u < t && HasCoords(complaints[u]) ==>
                  complaints[u].id in processed' || DistBetween(dist, seed, complaints[u]) > ClusterRadius
    {
      var other := complaints[t];
      assert seed in done + cluster';
      if other.id in processed' || !HasCoords(other) || other.id == seed.id {
      } else if DistBetween(dist, seed, other) <= ClusterRadius {
        DistinctSnoc(done + cluster', other);
        IdsSnoc(done + cluster', other);
        assert (done + cluster') + [other] == done + (cluster' + [other]);
        cluster' := cluster' + [other];
        processed' := processed' + {other.id};
      }
      t := t + 1;
    }
  }

  /** Any two seeds, the earlier one first, are more than 100 m apart. */
  predicate SeedsApart(ms: seq<ClusteredMarker>, dist: Distance) {
    forall j, k ::
      0 <= j < k < |ms| && ms[j].complaints != [] && ms[k].complaints != [] ==>
      DistBetween(dist, Seed(ms[j]), Seed(ms[k])) > ClusterRadius
  }

  /** The main loop's state, as for the grid variant but without cells. */
  ghost predicate PairState(complaints: seq<Complaint>, ms: seq<ClusteredMarker>, processed: set<int>,
                            snaps: seq<set<int>>, dist: Distance)
  {
    |snaps| == |ms| &&
    (forall k :: 0 <= k < |ms| ==> PairMarker(ms[k], dist)) &&
    (forall c :: c in Members(ms) ==> c in complaints && HasCoords(c)) &&
    DistinctIds(Members(ms)) && processed == IdsOf(Members(ms)) &&
    (forall j :: 0 <= j < |snaps| ==> snaps[j] <= processed) &&
    (forall j, k :: 0 <= j < k < |ms| ==> Seed(ms[k]).id !in snaps[j]) &&
    (forall j, w :: 0 <= j < |ms| && w in complaints && HasCoords(w) ==>
       w.id in snaps[j] || DistBetween(dist, Seed(ms[j]), w) > ClusterRadius)
  }

  /** Seed `k` is the complaint at input position `seedAt[k]`, and these positions increase. */
  ghost predicate SeedOrder(complaints: seq<Complaint>, ms: seq<ClusteredMarker>, seedAt: seq<int>, i: int) {
    0 <= i <= |complaints| && |seedAt| == |ms| &&
    (forall k :: 0 <= k < |ms| ==> 0 <= seedAt[k] < i && ms[k].complaints != [] && complaints[seedAt[k]] == Seed(ms[k])) &&
    (forall j, k :: 0 <= j < k < |ms| ==> seedAt[j] < seedAt[k])
  }

  lemma {:induction false} SeedOrderSnoc(complaints: seq<Complaint>, ms: seq<ClusteredMarker>, seedAt: seq<int>, i: int, m: ClusteredMarker)
    requires SeedOrder(complaints, ms, seedAt, i) && i < |complaints|
    requires m.complaints != [] && Seed(m) == complaints[i]
    ensures SeedOrder(complaints, ms + [m], seedAt + [i], i + 1)
  {
  }

  lemma {:induction false} PairStateSeparated(complaints: seq<Complaint>, ms: seq<ClusteredMarker>, processed: set<int>,
                           snaps: seq<set<int>>, dist: Distance)
    requires PairState(complaints, ms, processed, snaps, dist)
    ensures SeedsApart(ms, dist)
  {
    forall j, k | 0 <= j < k < |ms| && ms[j].complaints != [] && ms[k].complaints != []
      ensures DistBetween(dist, Seed(ms[j]), Seed(ms[k])) > ClusterRadius
    {
      MembersPrefix(ms, k);
      assert Seed(ms[k]) in Members(ms);
    }
  }

  lemma {:induction false} AddPairCluster(complaints: seq<Complaint>, ms: seq<ClusteredMarker>, before: set<int>, processed: set<int>,
                       snaps: seq<set<int>>, cluster: seq<Complaint>, dist: Distance)
    requires PairState(complaints, ms, before, snaps, dist)
    requires StarWithin(cluster, dist) && cluster[0] in complaints && cluster[0].id !in before
    requires DistinctIds(Members(ms) + cluster) && processed == IdsOf(Members(ms) + cluster)
    requires forall c :: c in cluster[1..] ==> c in complaints
    requires before <= processed
    requires forall w :: w in complaints && HasCoords(w) ==>
               w.id in processed || DistBetween(dist, cluster[0], w) > ClusterRadius
    ensures PairState(complaints, ms + [MarkerOf(cluster)], processed, snaps + [processed], dist)
  {
    var m := MarkerOf(cluster);
    MembersSnoc(ms, m);
    PairMembersLocated(complaints, ms, cluster, dist);
    PairSeedsUntaken(ms, snaps, before, processed, cluster);
    PairCovered(complaints, ms, snaps, processed, cluster, dist);
  }

  lemma {:induction false} PairMembersLocated(complaints: seq<Complaint>, ms: seq<ClusteredMarker>, cluster: seq<Complaint>, dist: Distance)
    requires forall c :: c in Members(ms) ==> c in complaints && HasCoords(c)
    requires StarWithin(cluster, dist) && cluster[0] in complaints
    requires forall c :: c in cluster[1..] ==> c in complaints
    ensures forall c :: c in Members(ms + [MarkerOf(cluster)]) ==> c in complaints && HasCoords(c)
  {
    MembersSnoc(ms, MarkerOf(cluster));
    forall c | c in cluster ensures c in complaints && HasCoords(c) {
      var t :| 0 <= t < |cluster| && cluster[t] == c;
      if t > 0 {
        assert c == cluster[1..][t - 1];
      }
    }
  }

  lemma {:induction false} PairSeedsUntaken(ms: seq<ClusteredMarker>, snaps: seq<set<int>>, before: set<int>, processed: set<int>,
                         cluster: seq<Complaint>)
    requires |snaps| == |ms| && cluster != []
    requires forall k :: 0 <= k < |ms| ==> ms[k].complaints != []
    requires forall j, k :: 0 <= j < k < |ms| ==> Seed(ms[k]).id !in snaps[j]
    requires forall j :: 0 <= j < |snaps| ==> snaps[j] <= before
    requires cluster[0].id !in before
    ensures forall j, k :: 0 <= j < k < |ms| + 1 ==>
      Seed((ms + [MarkerOf(cluster)])[k]).id !in (snaps + [processed])[j]
  {
  }

  lemma {:induction false} PairCovered(complaints: seq<Complaint>, ms: seq<ClusteredMarker>, snaps: seq<set<int>>, processed: set<int>,
                    cluster: seq<Complaint>, dist: Distance)
    requires |snaps| == |ms| && cluster != []
    requires forall k :: 0 <= k < |ms| ==> ms[k].complaints != []
    requires forall j, w :: 0 <= j < |ms| && w in complaints && HasCoords(w) ==>
       w.id in snaps[j] || DistBetween(dist, Seed(ms[j]), w) > ClusterRadius
    requires forall w :: w in complaints && HasCoords(w) ==>
               w.id in processed || DistBetween(dist, cluster[0], w) > ClusterRadius
    ensures forall j, w :: 0 <= j < |ms| + 1 && w in complaints && HasCoords(w) ==>
       w.id in (snaps + [processed])[j] || DistBetween(dist, Seed((ms + [MarkerOf(cluster)])[j]), w) > ClusterRadius
  {
  }

  /** Every located complaint before position `i` is taken. */
  ghost predicate CoveredUpTo(complaints: seq<Complaint>, i: int, processed: set<int>)
    requires 0 <= i <= |complaints|
  {
    forall u :: 0 <= u < i && HasCoords(complaints[u]) ==> complaints[u].id in processed
  }

  lemma {:induction false} CoveredStep(complaints: seq<Complaint>, i: int, before: set<int>, after: set<int>)
    requires 0 <= i < |complaints| && CoveredUpTo(complaints, i, before) && before <= after
    requires HasCoords(complaints[i]) ==> complaints[i].id in after
    ensures CoveredUpTo(complaints, i + 1, after)
  {
  }

  /** One seed's cluster: the seed, then the scan over all complaints. */
  method SeedCluster(seed: Complaint, complaints: seq<Complaint>, processed: set<int>,
                     ghost done: seq<Complaint>, dist: Distance)
    returns (cluster: seq<Complaint>, processed': set<int>)
    requires HasCoords(seed) && seed.id !in processed
    requires DistinctIds(done) && processed == IdsOf(done)
    ensures StarWithin(cluster, dist) && cluster[0] == seed
    ensures DistinctIds(done + cluster) && processed' == IdsOf(done + cluster)
    ensures forall c :: c in cluster[1..] ==> c in complaints
    ensures processed <= processed'
    ensures forall w :: w in complaints && HasCoords(w) ==>
              w.id in processed' || DistBetween(dist, seed, w) > ClusterRadius
  {
    cluster := [seed];
    processed' := processed + {seed.id};
    DistinctSnoc(done, seed);
    IdsSnoc(done, seed);
    cluster, processed' := ScanAll(seed, complaints, cluster, processed', done, dist);
    forall c | c in cluster[1..] ensures c in complaints {
      var t :| 0 <= t < |cluster[1..]| && cluster[1..][t] == c;
      assert cluster[t + 1] == c;
    }
    forall w | w in complaints && HasCoords(w)
      ensures w.id in processed' || DistBetween(dist, seed, w) > ClusterRadius
    {
      var t :| 0 <= t < |complaints| && complaints[t] == w;
    }
  }

  /** One iteration of the outer `forEach`: complaint `i` seeds a cluster unless taken or unlocated. */
  method Visit(complaints: seq<Complaint>, i: int, markers: seq<ClusteredMarker>, processed: set<int>,
               ghost snaps: seq<set<int>>, ghost seedAt: seq<int>, dist: Distance)
    returns (markers': seq<ClusteredMarker>, processed': set<int>, ghost snaps': seq<set<int>>, ghost seedAt': seq<int>)
    requires 0 <= i < |complaints|
    requires PairState(complaints, markers, processed, snaps, dist)
    requires SeedOrder(complaints, markers, seedAt, i)
    requires CoveredUpTo(complaints, i, processed)
    ensures PairState(complaints, markers', processed', snaps', dist)
    ensures SeedOrder(complaints, markers', seedAt', i + 1)
    ensures CoveredUpTo(complaints, i + 1, processed')
  {
    markers', processed', snaps', seedAt' := markers, processed, snaps, seedAt;
    var complaint := complaints[i];
    if complaint.id !in processed && HasCoords(complaint) {
      var cluster;
      cluster, processed' := SeedCluster(complaint, complaints, processed, Members(markers), dist);
      AddPairCluster(complaints, markers, processed, processed', snaps, cluster, dist);
      SeedOrderSnoc(complaints, markers, seedAt, i, MarkerOf(cluster));
      markers' := markers + [MarkerOf(cluster)];
      snaps' := snaps + [processed'];
      seedAt' := seedAt + [i];
      assert complaint in Members(markers) + cluster;
    }
    CoveredStep(complaints, i, processed, processed');
  }

  /** `createClusteredMarkers` of the page; `seedAt` gives each seed's input position. */
  method CreateClusteredMarkers(complaints: seq<Complaint>, dist: Distance)
    returns (markers: seq<ClusteredMarker>, ghost seedAt: seq<int>)
    ensures forall k :: 0 <= k < |markers| ==> PairMarker(markers[k], dist)
    ensures forall c :: c in Members(markers) ==> c in complaints && HasCoords(c)
    ensures DistinctIds(Members(markers))
    ensures forall v :: v in complaints && HasCoords(v) ==> exists m :: m in Members(markers) && m.id == v.id
    ensures SeedsApart(markers, dist)
    ensures SeedOrder(complaints, markers, seedAt, |complaints|)
    ensures DistinctIds(ValidComplaints(complaints)) ==>
              multiset(Members(markers)) == multiset(ValidComplaints(complaints)) &&
              |markers| <= |ValidComplaints(complaints)|
  {
    markers := [];
    seedAt := [];
    var processed: set<int> := {};
    ghost var snaps: seq<set<int>> := [];
    var i := 0;
    while i < |complaints|
      invariant 0 <= i <= |complaints|
      invariant PairState(complaints, markers, processed, snaps, dist)
      invariant SeedOrder(complaints, markers, seedAt, i)
      invariant CoveredUpTo(complaints, i, processed)
    {
      markers, processed, snaps, seedAt := Visit(complaints, i, markers, processed, snaps, seedAt, dist);
      i := i + 1;
    }
    PairFinish(complaints, markers, processed, snaps, dist);
  }

  /** What the loop's state gives once every complaint has been visited. */
  lemma {:induction false} PairFinish(complaints: seq<Complaint>, markers: seq<ClusteredMarker>, processed: set<int>,
                   snaps: seq<set<int>>, dist: Distance)
    requires PairState(complaints, markers, processed, snaps, dist)
    requires CoveredUpTo(complaints, |complaints|, processed)
    ensures forall v :: v in complaints && HasCoords(v) ==> exists m :: m in Members(markers) && m.id == v.id
    ensures SeedsApart(markers, dist)
    ensures DistinctIds(ValidComplaints(complaints)) ==>
              multiset(Members(markers)) == multiset(ValidComplaints(complaints)) &&
              |markers| <= |ValidComplaints(complaints)|
  {
    PairStateSeparated(complaints, markers, processed, snaps, dist);
    forall v | v in complaints && HasCoords(v) ensures exists m :: m in Members(markers) && m.id == v.id {
      var u :| 0 <= u < |complaints| && complaints[u] == v;
      assert v.id in IdsOf(Members(markers));
    }
    if DistinctIds(ValidComplaints(complaints)) {
      Partition(ValidComplaints(complaints), Members(markers));
      ClustersAtMostPairMembers(markers, dist);
      assert |multiset(Members(markers))| == |Members(markers)|;
    }
  }

  lemma {:induction false} ClustersAtMostPairMembers(ms: seq<ClusteredMarker>, dist: Distance)
    requires forall k :: 0 <= k < |ms| ==> PairMarker(ms[k], dist)
    ensures |ms| <= |Members(ms)|
  {
    if ms != [] {
      ClustersAtMostPairMembers(ms[..|ms| - 1], dist);
    }
  }

  // ---------------------------------------------------------------- marker click

  /** Newest first by `new Date(receivedDate).getTime()`. */
  predicate NewestFirst(s: seq<Complaint>, time: string -> int) {
    forall i, j :: 0 <= i < j < |s| ==> time(s[i].date) >= time(s[j].date)
  }

  /**
   * `handleMarkerClick`: sorts the cluster's own array in place, newest
   * first, and selects its element 0 (undefined for an empty array).
   */
  method HandleMarkerClick(cluster: array<Complaint>, time: string -> int) returns (latest: Option<Complaint>)
    modifies cluster
    ensures multiset(cluster[..]) == multiset(old(cluster[..]))
    ensures NewestFirst(cluster[..], time)
    ensures cluster.Length == 0 ==> latest.None?
    ensures cluster.Length > 0 ==> latest == Some(cluster[0])
  {
    SortNewestFirst(cluster, time);
    latest := if cluster.Length == 0 then None else Some(cluster[0]);
  }

  /** The selected complaint is at least as recent as every complaint of the cluster. */
  lemma {:induction false} LatestIsNewest(s: seq<Complaint>, time: string -> int)
    requires s != [] && NewestFirst(s, time)
    ensures forall c :: c in s ==> time(c.date) <= time(s[0].date)
  {
  }

  /** Exchanges `a[j - 1]` and `a[j]`. */
  method SwapDown(a: array<Complaint>, j: int)
    requires 0 < j < a.Length
    modifies a
    ensures a[j - 1] == old(a[j]) && a[j] == old(a[j - 1])
    ensures forall m :: 0 <= m < a.Length && m != j - 1 && m != j ==> a[m] == old(a[m])
    ensures multiset(a[..]) == old(multiset(a[..]))
  {
    a[j - 1], a[j] := a[j], a[j - 1];
  }

  /** Insertion sort by adjacent swaps. */
  method SortNewestFirst(a: array<Complaint>, time: string -> int)
    modifies a
    ensures multiset(a[..]) == multiset(old(a[..]))
    ensures NewestFirst(a[..], time)
  {
    if a.Length == 0 {
      return;
    }
    var i := 1;
    while i < a.Length
      invariant 1 <= i <= a.Length
      invariant multiset(a[..]) == multiset(old(a[..]))
      invariant forall p, q :: 0 <= p < q < i ==> time(a[p].date) >= time(a[q].date)
    {
      var j := i;
      while j > 0 && time(a[j - 1].date) < time(a[j].date)
        invariant 0 <= j <= i
        invariant multiset(a[..]) == multiset(old(a[..]))
        invariant forall p, q :: 0 <= p < q <= i && p != j && q != j ==> time(a[p].date) >= time(a[q].date)
        invariant forall q :: j < q <= i ==> time(a[j].date) > time(a[q].date)
      {
        SwapDown(a, j);
        j := j - 1;
      }
      i := i + 1;
    }
  }
}
