/**
 * `GET /api/asan-farm`: farm rows from the database, each with the fan
 * computed against the largest head count of the rows returned.
 */
module AsanFarmRoute {
  import opened Wrappers
  import opened JsNumber
  import opened OdorWorker
  import opened FarmRouteCommon

  function Counts(farms: seq<DbFarm>): (r: seq<int>)
    ensures |r| == |farms| && forall i :: 0 <= i < |farms| ==> r[i] == farms[i].livestockCount
  {
    seq(|farms|, i requires 0 <= i < |farms| => farms[i].livestockCount)
  }

  /** `Math.max(...farms.map((f) => f.livestockCount), 1)` over the batch passed in. */
  function BatchMaxCount(farms: seq<DbFarm>): (r: int)
    ensures r >= 1
    ensures forall i :: 0 <= i < |farms| ==> farms[i].livestockCount <= r
    ensures r == 1 || exists i :: 0 <= i < |farms| && farms[i].livestockCount == r
  {
    MaxWithOne(Counts(farms))
  }

  /** This route's `calculateWindDirection`: located farms only, normalised by the batch maximum. */
  function CalculateWindDirection(farms: seq<DbFarm>, env: Env): seq<Fan> {
    LocatedFans(farms, SafeMax(BatchMaxCount(farms) as real), env)
  }

  /**
   * The handler; `findMany` stands for the database query, given the parsed
   * types list (it selects located rows with a positive count, of those
   * types when any are given, biggest first).
   */
  function Get(findMany: seq<string> -> seq<DbFarm>, q: FarmQuery): seq<FarmRecord> {
    var farms := findMany(ParseTypes(q.types));
    Merge(farms, CalculateWindDirection(farms, QueryEnv(q)))
  }

  /** No farms: the normaliser is 1 and there are no fans. */
  lemma {:induction false} EmptyBatch(env: Env)
    ensures BatchMaxCount([]) == 1 && CalculateWindDirection([], env) == []
  {
  }

  /** The largest farm of the batch gets the full 5000 m before multipliers. */
  lemma {:induction false} LargestFarmFullExtent(farms: seq<DbFarm>, env: Env, i: int)
    requires 0 <= i < |farms| && Located(farms[i])
    requires farms[i].livestockCount == BatchMaxCount(farms)
    ensures BaseExtent(farms[i].livestockCount as real, SafeMax(BatchMaxCount(farms) as real)) == MaxRadius
    ensures FanFor(ToLite(farms[i]), SafeMax(BatchMaxCount(farms) as real), env).radius ==
      RoundTenth(Max(0.0, MaxRadius * Multiplier(farms[i].livestockType, env)))
  {
    BaseExtentBounds(farms[i].livestockCount as real, BatchMaxCount(farms) as real);
    RadiusUnfold(farms[i].livestockCount as real, SafeMax(BatchMaxCount(farms) as real), Multiplier(farms[i].livestockType, env));
  }

  /** The same farm gets a different radius once a bigger farm joins its batch. */
  lemma {:induction false} RadiusDependsOnBatch(env: Env)
    requires env.humidity >= 0.0
    ensures var f := DbFarm(1, "돼지", 100, Some(36.8), Some(127.0));
      var g := DbFarm(2, "돼지", 200, Some(36.8), Some(127.1));
      CalculateWindDirection([f], env)[0].radius != CalculateWindDirection([f, g], env)[0].radius
  {
    var f := DbFarm(1, "돼지", 100, Some(36.8), Some(127.0));
    var g := DbFarm(2, "돼지", 200, Some(36.8), Some(127.1));
    var m := Multiplier("돼지", env);
    FirstFanRadius([f], env);
    FirstFanRadius([f, g], env);
    BatchMaxExamples(f, g);
    PigMultiplierAtLeast(env);
    RadiusDiffers(m);
  }

  lemma {:induction false} FirstFanRadius(farms: seq<DbFarm>, env: Env)
    requires |farms| >= 1 && forall i :: 0 <= i < |farms| ==> Located(farms[i])
    ensures |CalculateWindDirection(farms, env)| == |farms|
    ensures CalculateWindDirection(farms, env)[0].radius ==
      Radius(farms[0].livestockCount as real, SafeMax(BatchMaxCount(farms) as real), Multiplier(farms[0].livestockType, env))
  {
    LocatedOnlyAll(farms);
  }

  lemma {:induction false} BatchMaxExamples(f: DbFarm, g: DbFarm)
    requires f.livestockCount == 100 && g.livestockCount == 200
    ensures BatchMaxCount([f]) == 100 && BatchMaxCount([f, g]) == 200
  {
    assert Counts([f]) == [100];
    assert Counts([f, g]) == [100, 200];
    assert [100, 200][1..] == [200];
    assert MaxWithOne([200]) == 200;
  }

  lemma {:induction false} RadiusDiffers(m: real)
    requires m >= 1.68
    ensures Radius(100.0, SafeMax(100.0), m) != Radius(100.0, SafeMax(200.0), m)
  {
    RadiusUnfold(100.0, 100.0, m);
    RadiusUnfold(100.0, 200.0, m);
    assert BaseExtent(100.0, 100.0) == 5000.0;
    assert BaseExtent(100.0, 200.0) == 2750.0;
    RoundTenthGap(2750.0 * m, 5000.0 * m);
  }

  lemma {:induction false} PigMultiplierAtLeast(env: Env)
    requires env.humidity >= 0.0
    ensures Multiplier("돼지", env) >= 1.68
  {
    var w := WindMul(env.windSpeed);
    var st := StabilityMul(env.stability);
    var h := HumidityMul(env.humidity);
    MulAtLeast(3.0 * w, 2.1, st, 0.8);
    MulAtLeast(3.0 * w * st, 1.68, h, 1.0);
  }

  lemma {:induction false} MulAtLeast(a: real, lowA: real, b: real, lowB: real)
    requires a >= lowA >= 0.0 && b >= lowB >= 0.0
    ensures a * b >= lowA * lowB
  {
    assert a * b - lowA * lowB == (a - lowA) * b + lowA * (b - lowB);
  }

  lemma {:induction false} RoundTenthGap(x: real, y: real)
    requires 0.0 < x && y - x > 0.1
    ensures RoundTenth(Max(0.0, x)) != RoundTenth(Max(0.0, y))
  {
  }

  /**
   * With database ids unique, each record of a located row carries that
   * row's fan and a row without coordinates gets null wind data.
   */
  lemma {:induction false} GetRecord(findMany: seq<string> -> seq<DbFarm>, q: FarmQuery, i: int)
    requires var farms := findMany(ParseTypes(q.types)); 0 <= i < |farms| && IdsIdentify(farms)
    ensures var farms := findMany(ParseTypes(q.types));
      var r := Get(findMany, q)[i];
      r.id == farms[i].id &&
      if Located(farms[i]) then r.windData == Some(WindOf(FanFor(ToLite(farms[i]), SafeMax(BatchMaxCount(farms) as real), QueryEnv(q))))
      else r.windData.None?
  {
    var farms := findMany(ParseTypes(q.types));
    MergeOwnFan(farms, SafeMax(BatchMaxCount(farms) as real), QueryEnv(q), i);
  }
}
