/**
 * The odor worker: from one weather tuple and a batch of farms it computes,
 * per farm, a radius and a 60 degree downwind sector.
 */
module OdorWorker {
  import opened JsNumber

  datatype LatLng = LatLng(lat: real, lng: real)

  /** One farm as posted to the worker. */
  datatype FarmLite = FarmLite(id: int, lat: real, lng: real, livestockType: string, livestockCount: int)

  /** The environment part of the payload. */
  datatype Env = Env(windSpeed: real, humidity: real, stability: string, windDir: real)

  datatype Payload = Payload(farms: seq<FarmLite>, maxCount: int, env: Env)

  datatype Fan = Fan(farmId: int, livestockType: string, center: LatLng, radius: real, startA: real, endA: real)

  const HalfAngle: real := 30.0
  const BaseRadius: real := 500.0
  const MaxRadius: real := 5000.0

  /**
   * `typeMultiplier[type] || 1`: the table is keyed by the raw type string,
   * read as a plain map (no names inherited from `Object.prototype`).
   */
  function TypeMultiplier(t: string): (m: real)
    ensures m > 0.0
    ensures t == "돼지" ==> m == 3.0
    ensures t == "육계" || t == "종계/산란계" ==> m == 1.4
    ensures t == "소" ==> m == 2.0
    ensures t !in {"돼지", "육계", "종계/산란계", "소"} ==> m == 1.0
  {
    if t == "돼지" then 3.0
    else if t == "육계" then 1.4
    else if t == "종계/산란계" then 1.4
    else if t == "소" then 2.0
    else if t == "사슴" then 1.0
    else 1.0
  }

  function WindMul(speed: real): (m: real)
    ensures speed <= 0.5 ==> m == 1.5
    ensures speed >= 1.5 ==> m == 0.7
    ensures 0.5 < speed < 1.5 ==> m == 1.0
  {
    if speed <= 0.5 then 1.5 else if speed >= 1.5 then 0.7 else 1.0
  }

  function StabilityMul(stability: string): (m: real)
    ensures stability == "stable" ==> m == 1.4
    ensures stability == "unstable" ==> m == 0.8
    ensures stability != "stable" && stability != "unstable" ==> m == 1.0
  {
    if stability == "stable" then 1.4 else if stability == "unstable" then 0.8 else 1.0
  }

  function HumidityMul(humidity: real): (m: real)
    ensures 0.0 <= humidity <= 100.0 ==> 1.0 <= m <= 1.3
    ensures humidity >= 0.0 ==> m >= 1.0
  {
    1.0 + (humidity / 100.0) * 0.3
  }

  function Multiplier(t: string, env: Env): real {
    TypeMultiplier(t) * WindMul(env.windSpeed) * StabilityMul(env.stability) * HumidityMul(env.humidity)
  }

  lemma {:induction false} MultiplierPositive(t: string, env: Env)
    requires env.humidity >= 0.0
    ensures Multiplier(t, env) > 0.0
  {
    var a := TypeMultiplier(t) * WindMul(env.windSpeed);
    assert a > 0.0;
    var b := a * StabilityMul(env.stability);
    assert b > 0.0;
  }

  /** `Math.max(maxCount, 1)`. */
  function SafeMax(maxCount: real): (r: real)
    ensures r >= 1.0 && r >= maxCount
  {
    Max(maxCount, 1.0)
  }

  /** The radius before multipliers: `500 + count / safeMax * 4500`. */
  function BaseExtent(count: real, safeMax: real): real
    requires safeMax >= 1.0
  {
    BaseRadius + (count / safeMax) * (MaxRadius - BaseRadius)
  }

  function Radius(count: real, safeMax: real, mult: real): (r: real)
    requires safeMax >= 1.0
    ensures r >= 0.0
  {
    RoundTenth(Max(0.0, BaseExtent(count, safeMax) * mult))
  }

  function StartA(windDir: real): real {
    JsRem360ShiftedDown(NormalizeDeg(windDir))
  }

  function EndA(windDir: real): real {
    JsRem360NonNeg(NormalizeDeg(windDir) + HalfAngle + 360.0)
  }

  /** `(t - 30 + 360) % 360` for a normalised direction `t` (the dividend is positive). */
  function JsRem360ShiftedDown(t: real): real
    requires 0.0 <= t < 360.0
  {
    JsRem360NonNeg(t - HalfAngle + 360.0)
  }

  function JsRem360NonNeg(x: real): (r: real)
    requires x >= 0.0
    ensures r == Mod360(x)
  {
    JsRemNonNegative(x);
    JsRem360(x)
  }

  /** One farm's fan. */
  function FanFor(farm: FarmLite, safeMax: real, env: Env): Fan
    requires safeMax >= 1.0
  {
    Fan(farm.id, farm.livestockType, LatLng(farm.lat, farm.lng),
        Radius(farm.livestockCount as real, safeMax, Multiplier(farm.livestockType, env)),
        StartA(env.windDir), EndA(env.windDir))
  }

  /** The worker's `onmessage` body: `farms.map(...)`. */
  function ComputeFans(p: Payload): (fans: seq<Fan>)
    ensures |fans| == |p.farms|
    ensures forall i :: 0 <= i < |fans| ==>
      fans[i].farmId == p.farms[i].id && fans[i].livestockType == p.farms[i].livestockType &&
      fans[i].center == LatLng(p.farms[i].lat, p.farms[i].lng) && fans[i].radius >= 0.0 &&
      fans[i].startA == StartA(p.env.windDir) && fans[i].endA == EndA(p.env.windDir)
  {
    seq(|p.farms|, i requires 0 <= i < |p.farms| => FanFor(p.farms[i], SafeMax(p.maxCount as real), p.env))
  }

  // ---------------------------------------------------------------- properties

  /** For 0 <= count <= maxCount the pre-multiplier radius lies in [500, 5000], reaching 5000 at the maximum. */
  lemma {:induction false} BaseExtentBounds(count: real, maxCount: real)
    requires 0.0 <= count <= maxCount
    ensures BaseRadius <= BaseExtent(count, SafeMax(maxCount)) <= MaxRadius
    ensures maxCount >= 1.0 && count == maxCount ==> BaseExtent(count, SafeMax(maxCount)) == MaxRadius
  {
    var s := SafeMax(maxCount);
    var q := count / s;
    FractionBounds(count, s);
    if maxCount >= 1.0 && count == maxCount {
      assert s == count;
      assert q == 1.0;
    }
  }

  lemma {:induction false} FractionBounds(a: real, b: real)
    requires 0.0 <= a <= b && b > 0.0
    ensures 0.0 <= a / b <= 1.0
  {
    var q := a / b;
    assert q * b == a;
    assert (1.0 - q) * b == b - a;
  }

  /** With the other inputs fixed, a larger head count never gives a smaller radius. */
  lemma {:induction false} RadiusMonotone(c1: real, c2: real, safeMax: real, mult: real)
    requires safeMax >= 1.0 && mult >= 0.0 && c1 <= c2
    ensures Radius(c1, safeMax, mult) <= Radius(c2, safeMax, mult)
  {
    BaseExtentMonotone(c1, c2, safeMax);
    ScaleMonotone(BaseExtent(c1, safeMax), BaseExtent(c2, safeMax), mult);
    ClampRoundMonotone(BaseExtent(c1, safeMax) * mult, BaseExtent(c2, safeMax) * mult);
  }

  lemma {:induction false} RadiusUnfold(count: real, safeMax: real, mult: real)
    requires safeMax >= 1.0
    ensures Radius(count, safeMax, mult) == RoundTenth(Max(0.0, BaseExtent(count, safeMax) * mult))
  {
  }

  lemma {:induction false} ScaleMonotone(x1: real, x2: real, m: real)
    requires x1 <= x2 && m >= 0.0
    ensures x1 * m <= x2 * m
  {
    var d := x2 - x1;
    assert d * m >= 0.0;
    assert x2 * m == x1 * m + d * m;
  }

  lemma {:induction false} ClampRoundMonotone(a1: real, a2: real)
    requires a1 <= a2
    ensures RoundTenth(Max(0.0, a1)) <= RoundTenth(Max(0.0, a2))
  {
    RoundTenthMonotone(Max(0.0, a1), Max(0.0, a2));
  }

  lemma {:induction false} BaseExtentMonotone(c1: real, c2: real, safeMax: real)
    requires safeMax >= 1.0 && c1 <= c2
    ensures BaseExtent(c1, safeMax) <= BaseExtent(c2, safeMax)
  {
    var q1 := c1 / safeMax;
    var q2 := c2 / safeMax;
    assert q1 * safeMax == c1 && q2 * safeMax == c2;
    assert (q2 - q1) * safeMax == c2 - c1;
  }

  /**
   * Both sector bounds are in [0, 360): the sector starts 30 degrees before the
   * normalised wind direction, ends 30 after it, and spans 60 degrees.
   */
  lemma {:induction false} SectorShape(windDir: real)
    ensures 0.0 <= StartA(windDir) < 360.0 && 0.0 <= EndA(windDir) < 360.0
    ensures StartA(windDir) == Mod360(Mod360(windDir) - HalfAngle)
    ensures EndA(windDir) == Mod360(Mod360(windDir) + HalfAngle)
    ensures Mod360(EndA(windDir) - StartA(windDir)) == 60.0
  {
    var t := NormalizeDeg(windDir);
    Mod360Shift(t - HalfAngle, 1);
    Mod360Shift(t + HalfAngle, 1);
    var s := StartA(windDir);
    var e := EndA(windDir);
    var ks := ((t - HalfAngle) / 360.0).Floor;
    var ke := ((t + HalfAngle) / 360.0).Floor;
    assert s == (t - HalfAngle) - 360.0 * (ks as real);
    assert e == (t + HalfAngle) - 360.0 * (ke as real);
    Mod360Unique(e - s, 60.0, ks - ke);
  }

  /** Every fan of a batch has the same sector. */
  lemma {:induction false} SectorSharedByBatch(p: Payload, i: int, j: int)
    requires 0 <= i < |p.farms| && 0 <= j < |p.farms|
    ensures ComputeFans(p)[i].startA == ComputeFans(p)[j].startA
    ensures ComputeFans(p)[i].endA == ComputeFans(p)[j].endA
  {
  }

  /** Cattle breeds are not keys of the species table, so they fall back to multiplier 1. */
  lemma {:induction false} CattleBreedsUseDefault()
    ensures TypeMultiplier("한우") == 1.0 && TypeMultiplier("육우") == 1.0 && TypeMultiplier("젖소") == 1.0
    ensures TypeMultiplier("사슴") == 1.0 && TypeMultiplier("오리") == 1.0
  {
  }

  /** A pig farm at the batch maximum under slow, humid, stable air from 90 degrees. */
  lemma {:induction false} PigFarmExample(lat: real, lng: real, maxCount: int)
    requires maxCount >= 1
    ensures var fans := ComputeFans(Payload([FarmLite(7, lat, lng, "돼지", maxCount)], maxCount, Env(0.3, 80.0, "stable", 90.0)));
      fans == [Fan(7, "돼지", LatLng(lat, lng), 39060.0, 60.0, 120.0)]
  {
    var env := Env(0.3, 80.0, "stable", 90.0);
    assert Multiplier("돼지", env) == 3.0 * 1.5 * 1.4 * 1.24;
    var m := maxCount as real;
    assert SafeMax(m) == m;
    assert m / m == 1.0;
    assert BaseExtent(m, SafeMax(m)) == 5000.0;
    RoundTenthExact(390600);
    assert Radius(m, SafeMax(m), Multiplier("돼지", env)) == 39060.0;
    assert NormalizeDeg(90.0) == 90.0 by {
      Mod360Unique(90.0, 90.0, 0);
    }
    Mod360Unique(420.0, 60.0, 1);
    Mod360Unique(480.0, 120.0, 1);
  }
}
