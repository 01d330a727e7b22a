/**
 * `GET /api/asan-farm-test`: farms from the bundled data set, filtered and
 * sorted, each with the fan computed against the global maximum head count.
 */
module AsanFarmTestRoute {
  import opened Wrappers
  import opened Sorting
  import opened OdorWorker
  import opened FarmRouteCommon

  /** One entry of the bundled farm data set. */
  datatype SourceFarm = SourceFarm(livestockType: string, livestockCount: int, lat: Option<real>, lng: Option<real>)

  /** The data set with ids `index + 1`. */
  function AllFarms(src: seq<SourceFarm>): (r: seq<DbFarm>)
    ensures |r| == |src|
    ensures forall i :: 0 <= i < |r| ==>
      r[i] == DbFarm(i + 1, src[i].livestockType, src[i].livestockCount, src[i].lat, src[i].lng)
  {
    seq(|src|, i requires 0 <= i < |src| => DbFarm(i + 1, src[i].livestockType, src[i].livestockCount, src[i].lat, src[i].lng))
  }

  lemma {:induction false} AllFarmsIdsIdentify(src: seq<SourceFarm>)
    ensures IdsIdentify(AllFarms(src))
  {
  }

  predicate CountsForMax(f: DbFarm) {
    Located(f) && f.livestockCount > 0
  }

  function ForMax(farms: seq<DbFarm>): (r: seq<int>)
    ensures forall i :: 0 <= i < |farms| && CountsForMax(farms[i]) ==> farms[i].livestockCount in r
    ensures forall x :: x in r ==> exists i :: 0 <= i < |farms| && CountsForMax(farms[i]) && farms[i].livestockCount == x
  {
    if farms == [] then []
    else
      var rest := ForMax(farms[1..]);
      assert forall x :: x in rest ==> exists i :: 0 <= i < |farms| && CountsForMax(farms[i]) && farms[i].livestockCount == x by {
        forall x | x in rest ensures exists i :: 0 <= i < |farms| && CountsForMax(farms[i]) && farms[i].livestockCount == x {
          var j :| 0 <= j < |farms[1..]| && CountsForMax(farms[1..][j]) && farms[1..][j].livestockCount == x;
          assert farms[j + 1] == farms[1..][j];
        }
      }
      assert forall i :: 1 <= i < |farms| && CountsForMax(farms[i]) ==> farms[i].livestockCount in rest by {
        forall i | 1 <= i < |farms| && CountsForMax(farms[i]) ensures farms[i].livestockCount in rest {
          assert farms[1..][i - 1] == farms[i];
        }
      }
      (if CountsForMax(farms[0]) then [farms[0].livestockCount] else []) + rest
  }

  /**
   * `Math.max(...located positive counts, 1)`: at least 1, at least every
   * located positive count, and one of them unless it is 1.
   */
  function GlobalMaxCount(all: seq<DbFarm>): (r: int)
    ensures r >= 1
    ensures forall i :: 0 <= i < |all| && CountsForMax(all[i]) ==> all[i].livestockCount <= r
    ensures r == 1 || exists i :: 0 <= i < |all| && CountsForMax(all[i]) && all[i].livestockCount == r
  {
    var xs := ForMax(all);
    var m := MaxWithOne(xs);
    assert forall x :: x in xs ==> x <= m;
    assert m != 1 ==> m in xs by {
      if m != 1 {
        var k :| 0 <= k < |xs| && xs[k] == m;
      }
    }
    m
  }

  /** The route's filter: located, positive count and, when types are given, one of them. */
  predicate Selected(f: DbFarm, types: seq<string>) {
    Located(f) && f.livestockCount > 0 && (types == [] || f.livestockType in types)
  }

  function FilterSelected(farms: seq<DbFarm>, types: seq<string>): (r: seq<DbFarm>)
    ensures forall f :: f in r <==> f in farms && Selected(f, types)
  {
    if farms == [] then []
    else (if Selected(farms[0], types) then [farms[0]] else []) + FilterSelected(farms[1..], types)
  }

  /** `(a, b) => b.livestockCount - a.livestockCount`, biggest farm first. */
  function CountDesc(): (DbFarm, DbFarm) -> bool {
    (a: DbFarm, b: DbFarm) => a.livestockCount >= b.livestockCount
  }

  lemma {:induction false} CountDescPreorder()
    ensures TotalPreorder(CountDesc())
  {
  }

  function SelectFarms(all: seq<DbFarm>, types: seq<string>): seq<DbFarm> {
    SortBy(FilterSelected(all, types), CountDesc())
  }

  /** The returned farms are exactly the selected ones, biggest first. */
  lemma {:induction false} SelectFarmsSpec(all: seq<DbFarm>, types: seq<string>)
    ensures forall f :: f in SelectFarms(all, types) <==> f in all && Selected(f, types)
    ensures multiset(SelectFarms(all, types)) == multiset(FilterSelected(all, types))
    ensures forall i, j :: 0 <= i < j < |SelectFarms(all, types)| ==>
      SelectFarms(all, types)[i].livestockCount >= SelectFarms(all, types)[j].livestockCount
  {
    var sel := SelectFarms(all, types);
    forall f ensures f in sel <==> f in all && Selected(f, types) {
      assert f in sel <==> f in multiset(sel);
      assert f in FilterSelected(all, types) <==> f in multiset(FilterSelected(all, types));
    }
    CountDescPreorder();
    SortBySorted(FilterSelected(all, types), CountDesc());
  }

  /** This route's `calculateWindDirection`: located farms only, normalised by the global maximum. */
  function CalculateWindDirection(farms: seq<DbFarm>, env: Env, globalMaxCount: int): seq<Fan> {
    LocatedFans(farms, SafeMax(globalMaxCount as real), env)
  }

  function Get(src: seq<SourceFarm>, q: FarmQuery): seq<FarmRecord> {
    var all := AllFarms(src);
    var farms := SelectFarms(all, ParseTypes(q.types));
    Merge(farms, CalculateWindDirection(farms, QueryEnv(q), GlobalMaxCount(all)))
  }

  /**
   * Record `i` describes the `i`-th selected farm and carries non-null wind
   * data: that farm's fan against the global maximum, which does not depend
   * on the types filter.
   */
  lemma {:induction false} GetRecord(src: seq<SourceFarm>, q: FarmQuery, i: int)
    requires 0 <= i < |Get(src, q)|
    ensures var all := AllFarms(src);
      var farm := SelectFarms(all, ParseTypes(q.types))[i];
      Located(farm) && Get(src, q)[i].id == farm.id &&
      Get(src, q)[i].windData == Some(WindOf(FanFor(ToLite(farm), SafeMax(GlobalMaxCount(all) as real), QueryEnv(q))))
  {
    var all := AllFarms(src);
    var farms := SelectFarms(all, ParseTypes(q.types));
    SelectFarmsSpec(all, ParseTypes(q.types));
    assert farms[i] in farms;
    assert IdsIdentify(farms) by {
      forall a, b | 0 <= a < |farms| && 0 <= b < |farms| && farms[a].id == farms[b].id ensures farms[a] == farms[b] {
        assert farms[a] in farms && farms[b] in farms;
        AllFarmsIdsIdentify(src);
        SameIdSameFarm(all, farms[a], farms[b]);
      }
    }
    MergeOwnFan(farms, SafeMax(GlobalMaxCount(all) as real), QueryEnv(q), i);
  }

  /** Changing only the types filter never changes a returned farm's wind data. */
  lemma {:induction false} TypesDoNotChangeWindData(src: seq<SourceFarm>, q1: FarmQuery, q2: FarmQuery, i: int, j: int)
    requires QueryEnv(q1) == QueryEnv(q2)
    requires 0 <= i < |Get(src, q1)| && 0 <= j < |Get(src, q2)|
    requires Get(src, q1)[i].id == Get(src, q2)[j].id
    ensures Get(src, q1)[i].windData == Get(src, q2)[j].windData
  {
    var all := AllFarms(src);
    GetRecord(src, q1, i);
    GetRecord(src, q2, j);
    var f1 := SelectFarms(all, ParseTypes(q1.types))[i];
    var f2 := SelectFarms(all, ParseTypes(q2.types))[j];
    SelectFarmsSpec(all, ParseTypes(q1.types));
    SelectFarmsSpec(all, ParseTypes(q2.types));
    assert f1 in SelectFarms(all, ParseTypes(q1.types));
    assert f2 in SelectFarms(all, ParseTypes(q2.types));
    AllFarmsIdsIdentify(src);
    SameIdSameFarm(all, f1, f2);
  }

  /** With no query parameters every located farm with a positive count is returned. */
  lemma {:induction false} NoTypesKeepsAllValid(src: seq<SourceFarm>)
    ensures var q := FarmQuery(None, None, None, None, None);
      QueryEnv(q) == Env(1.0, 50.0, "neutral", 0.0) &&
      forall f :: f in SelectFarms(AllFarms(src), ParseTypes(q.types)) <==>
        f in AllFarms(src) && Located(f) && f.livestockCount > 0
  {
    SelectFarmsSpec(AllFarms(src), []);
  }
}
