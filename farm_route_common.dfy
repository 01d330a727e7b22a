/**
 * What the two farm routes share: the query defaults, the `types` list, the
 * located-farm fan computation (`calculateWindDirection` after its
 * normaliser) and the merge of each farm with its fan.
 */
module FarmRouteCommon {
  import opened Wrappers
  import opened JsText
  import opened OdorWorker

  /**
   * The query string after `parseFloat`: a numeric parameter is None when it is
   * absent or empty (so its default applies), otherwise its parsed value.
   */
  datatype FarmQuery = FarmQuery(
    windDir: Option<real>, windSpeed: Option<real>, humidity: Option<real>,
    stability: Option<string>, types: Option<string>)

  /** A farm row as the routes see it; coordinates may be null. */
  datatype DbFarm = DbFarm(id: int, livestockType: string, livestockCount: int,
                           latitude: Option<real>, longitude: Option<real>)

  datatype WindData = WindData(radius: real, startAngle: real, endAngle: real)

  /** One record of the JSON response. */
  datatype FarmRecord = FarmRecord(id: int, livestockType: string, livestockCount: int,
                                   lat: Option<real>, lng: Option<real>, windData: Option<WindData>)

  /** `x || default` on a query value. */
  function StringOr(v: Option<string>, default: string): string {
    if v.None? || v.value == "" then default else v.value
  }

  /** windDir 0, windSpeed 1, humidity 50 and stability 'neutral' when absent. */
  function QueryEnv(q: FarmQuery): (env: Env)
    ensures env.windSpeed == q.windSpeed.GetOr(1.0) && env.humidity == q.humidity.GetOr(50.0)
    ensures env.windDir == q.windDir.GetOr(0.0)
    ensures env.stability == StringOr(q.stability, "neutral")
  {
    Env(q.windSpeed.GetOr(1.0), q.humidity.GetOr(50.0), StringOr(q.stability, "neutral"), q.windDir.GetOr(0.0))
  }

  /** `.filter((t) => t.trim().length > 0)`: the kept entries are not trimmed. */
  function KeepNonBlank(xs: seq<string>): (r: seq<string>)
    ensures forall t :: t in r <==> t in xs && !IsBlank(t)
    ensures |r| <= |xs|
  {
    if xs == [] then []
    else (if IsBlank(xs[0]) then [] else [xs[0]]) + KeepNonBlank(xs[1..])
  }

  /** `typesParam ? typesParam.split(',').filter(...) : []`. */
  function ParseTypes(typesParam: Option<string>): (r: seq<string>)
    ensures typesParam.None? || typesParam == Some("") ==> r == []
    ensures forall t :: t in r ==> !IsBlank(t) && ',' !in t
  {
    if typesParam.None? || typesParam.value == "" then []
    else KeepNonBlank(Split(typesParam.value, ','))
  }

  lemma {:induction false} KeepNonBlankIdentity(xs: seq<string>)
    requires forall i :: 0 <= i < |xs| ==> !IsBlank(xs[i])
    ensures KeepNonBlank(xs) == xs
  {
    if xs != [] {
      KeepNonBlankIdentity(xs[1..]);
      assert [xs[0]] + xs[1..] == xs;
    }
  }

  /** A comma-joined list of non-blank, comma-free names parses back to itself, spaces included. */
  lemma {:induction false} ParseTypesJoin(ts: seq<string>)
    requires |ts| >= 1
    requires forall i :: 0 <= i < |ts| ==> !IsBlank(ts[i]) && ',' !in ts[i]
    ensures ParseTypes(Some(Join(ts, ","))) == ts
  {
    SplitJoin(ts, ',');
    KeepNonBlankIdentity(ts);
    assert Join(ts, ",") != "" by {
      assert ts[0] != "";
      if |ts| > 1 {
        assert Join(ts, ",") == ts[0] + "," + Join(ts[1..], ",");
      }
    }
  }

  /** Blank entries are dropped but a kept entry keeps its surrounding spaces. */
  lemma {:induction false} ParseTypesKeepsSpaces()
    ensures ParseTypes(Some(" a,, ,b")) == [" a", "b"]
  {
    SplitExample();
    KeepExample();
  }

  lemma {:induction false} KeepExample()
    ensures KeepNonBlank([" a", "", " ", "b"]) == [" a", "b"]
  {
    var pieces := [" a", "", " ", "b"];
    assert !IsBlank(" a") by {
      assert !IsJsWhitespace(" a"[1]);
    }
    assert !IsBlank("b") by {
      assert !IsJsWhitespace("b"[0]);
    }
    assert KeepNonBlank(pieces[3..]) == ["b"];
    assert KeepNonBlank(pieces[2..]) == ["b"];
    assert KeepNonBlank(pieces[1..]) == ["b"];
    assert KeepNonBlank(pieces) == [" a", "b"];
  }

  lemma {:induction false} SplitExample()
    ensures Split(" a,, ,b", ',') == [" a", "", " ", "b"]
  {
    SplitNoSeparator("b", ',');
    SplitAfterPiece(" ", ',', "b");
    assert " " + [','] + "b" == " ,b";
    SplitAfterPiece("", ',', " ,b");
    assert "" + [','] + " ,b" == ", ,b";
    SplitAfterPiece(" a", ',', ", ,b");
    assert " a" + [','] + ", ,b" == " a,, ,b";
  }

  predicate Located(f: DbFarm) {
    f.latitude.Some? && f.longitude.Some?
  }

  /** `.filter((farm) => farm.latitude !== null && farm.longitude !== null)`. */
  function LocatedOnly(farms: seq<DbFarm>): (r: seq<DbFarm>)
    ensures forall f :: f in r <==> f in farms && Located(f)
    ensures |r| <= |farms|
  {
    if farms == [] then []
    else (if Located(farms[0]) then [farms[0]] else []) + LocatedOnly(farms[1..])
  }

  /** The location filter keeps the input order: it distributes over concatenation. */
  lemma {:induction false} LocatedOnlyAppend(a: seq<DbFarm>, b: seq<DbFarm>)
    ensures LocatedOnly(a + b) == LocatedOnly(a) + LocatedOnly(b)
  {
    if a != [] {
      assert (a + b)[0] == a[0];
      assert (a + b)[1..] == a[1..] + b;
      LocatedOnlyAppend(a[1..], b);
    } else {
      assert a + b == b;
    }
  }

  lemma {:induction false} LocatedOnlyAll(farms: seq<DbFarm>)
    requires forall i :: 0 <= i < |farms| ==> Located(farms[i])
    ensures LocatedOnly(farms) == farms
  {
    if farms != [] {
      LocatedOnlyAll(farms[1..]);
      assert [farms[0]] + farms[1..] == farms;
    }
  }

  function ToLite(f: DbFarm): FarmLite
    requires Located(f)
  {
    FarmLite(f.id, f.latitude.value, f.longitude.value, f.livestockType, f.livestockCount)
  }

  /** `calculateWindDirection` once its normaliser is fixed: the worker's fan for each located farm. */
  function LocatedFans(farms: seq<DbFarm>, safeMax: real, env: Env): (fans: seq<Fan>)
    requires safeMax >= 1.0
    ensures var located := LocatedOnly(farms);
      |fans| == |located| &&
      forall i :: 0 <= i < |fans| ==> fans[i] == FanFor(ToLite(located[i]), safeMax, env)
  {
    var located := LocatedOnly(farms);
    seq(|located|, i requires 0 <= i < |located| => FanFor(ToLite(located[i]), safeMax, env))
  }

  /** `Math.max(...xs, 1)`. */
  function MaxWithOne(xs: seq<int>): (r: int)
    ensures r >= 1
    ensures forall i :: 0 <= i < |xs| ==> xs[i] <= r
    ensures r == 1 || exists i :: 0 <= i < |xs| && xs[i] == r
  {
    if xs == [] then 1
    else
      var rest := MaxWithOne(xs[1..]);
      if xs[0] >= rest then xs[0]
      else
        assert rest == 1 || exists i :: 1 <= i < |xs| && xs[i] == rest by {
          if rest != 1 {
            var j :| 0 <= j < |xs[1..]| && xs[1..][j] == rest;
            assert xs[j + 1] == rest;
          }
        }
        rest
  }

  /** `fans.find((w) => w.farmId === id)`. */
  function FindFan(fans: seq<Fan>, id: int): (r: Option<Fan>)
    ensures r.None? <==> forall i :: 0 <= i < |fans| ==> fans[i].farmId != id
    ensures r.Some? ==> exists i :: 0 <= i < |fans| && fans[i] == r.value && r.value.farmId == id &&
                                    forall j :: 0 <= j < i ==> fans[j].farmId != id
  {
    if fans == [] then None
    else if fans[0].farmId == id then Some(fans[0])
    else
      var r := FindFan(fans[1..], id);
      assert r.Some? ==> exists i :: 0 <= i < |fans| && fans[i] == r.value && r.value.farmId == id &&
                                     forall j :: 0 <= j < i ==> fans[j].farmId != id by {
        if r.Some? {
          var i :| 0 <= i < |fans[1..]| && fans[1..][i] == r.value && r.value.farmId == id &&
                   forall j :: 0 <= j < i ==> fans[1..][j].farmId != id;
          assert fans[i + 1] == r.value;
          assert forall j :: 0 <= j < i + 1 ==> fans[j].farmId != id by {
            forall j | 0 <= j < i + 1 ensures fans[j].farmId != id {
              if j > 0 {
                assert fans[j] == fans[1..][j - 1];
              }
            }
          }
        }
      }
      r
  }

  /** When every fan carrying `id` is the same fan, `find` returns it. */
  lemma {:induction false} FindFanUnique(fans: seq<Fan>, id: int, fan: Fan)
    requires fan in fans && fan.farmId == id
    requires forall i :: 0 <= i < |fans| && fans[i].farmId == id ==> fans[i] == fan
    ensures FindFan(fans, id) == Some(fan)
  {
  }

  function WindOf(fan: Fan): WindData {
    WindData(fan.radius, fan.startA, fan.endA)
  }

  function RecordOf(f: DbFarm, fans: seq<Fan>): FarmRecord {
    var found := FindFan(fans, f.id);
    FarmRecord(f.id, f.livestockType, f.livestockCount, f.latitude, f.longitude,
               if found.Some? then Some(WindOf(found.value)) else None)
  }

  /** `farms.map(...)` attaching to each farm the wind data of the fan with its id, or null. */
  function Merge(farms: seq<DbFarm>, fans: seq<Fan>): (r: seq<FarmRecord>)
    ensures |r| == |farms|
    ensures forall i :: 0 <= i < |r| ==>
      r[i].id == farms[i].id && r[i].livestockType == farms[i].livestockType &&
      r[i].livestockCount == farms[i].livestockCount && r[i].lat == farms[i].latitude && r[i].lng == farms[i].longitude
    ensures forall i :: 0 <= i < |r| ==>
      (r[i].windData.None? <==> forall k :: 0 <= k < |fans| ==> fans[k].farmId != farms[i].id)
  {
    seq(|farms|, i requires 0 <= i < |farms| => RecordOf(farms[i], fans))
  }

  /** No two different farms of the list carry the same id. */
  predicate IdsIdentify(farms: seq<DbFarm>) {
    forall a, b :: 0 <= a < |farms| && 0 <= b < |farms| && farms[a].id == farms[b].id ==> farms[a] == farms[b]
  }

  /**
   * When ids identify farms, each located farm's record carries its own
   * fan's wind data and every unlocated farm's record has none.
   */
  lemma {:induction false} MergeOwnFan(farms: seq<DbFarm>, safeMax: real, env: Env, i: int)
    requires safeMax >= 1.0 && 0 <= i < |farms|
    requires IdsIdentify(farms)
    ensures var r := Merge(farms, LocatedFans(farms, safeMax, env));
      if Located(farms[i]) then r[i].windData == Some(WindOf(FanFor(ToLite(farms[i]), safeMax, env)))
      else r[i].windData.None?
  {
    var fans := LocatedFans(farms, safeMax, env);
    var located := LocatedOnly(farms);
    var r := Merge(farms, fans);
    assert r[i] == RecordOf(farms[i], fans);
    if Located(farms[i]) {
      var own := FanFor(ToLite(farms[i]), safeMax, env);
      var k :| 0 <= k < |located| && located[k] == farms[i];
      assert fans[k] == own;
      forall m | 0 <= m < |fans| && fans[m].farmId == farms[i].id ensures fans[m] == own {
        SameIdSameFarm(farms, located[m], farms[i]);
      }
      FindFanUnique(fans, farms[i].id, own);
    } else {
      forall k | 0 <= k < |fans| ensures fans[k].farmId != farms[i].id {
        assert fans[k].farmId == located[k].id;
        if located[k].id == farms[i].id {
          SameIdSameFarm(farms, located[k], farms[i]);
        }
      }
    }
  }

  lemma {:induction false} SameIdSameFarm(farms: seq<DbFarm>, f: DbFarm, g: DbFarm)
    requires IdsIdentify(farms)
    requires f in farms && g in farms && f.id == g.id
    ensures f == g
  {
  }
}
