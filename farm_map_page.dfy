/**
 * The farm map page: the memoised derivations (normaliser, type list,
 * visible farms, applied environment), the type toggles, the weather
 * polling thresholds, the worker-result dedup, the change-detection effect
 * that posts to the worker, and the colour category of a fan.
 */
module FarmMapPage {
  import opened Wrappers
  import opened JsNumber
  import opened JsText
  import opened Constants
  import opened Tally
  import opened OdorWorker
  import opened RecomputeUtil

  // ---------------------------------------------------------------- derivations

  function MaxCount(farms: seq<FarmLite>): (r: int)
    requires farms != []
    ensures forall i :: 0 <= i < |farms| ==> farms[i].livestockCount <= r
    ensures exists i :: 0 <= i < |farms| && farms[i].livestockCount == r
  {
    if |farms| == 1 then farms[0].livestockCount
    else
      var rest := MaxCount(farms[1..]);
      assert exists i :: 1 <= i < |farms| && farms[i].livestockCount == rest by {
        var j :| 0 <= j < |farms[1..]| && farms[1..][j].livestockCount == rest;
        assert farms[j + 1] == farms[1..][j];
      }
      if farms[0].livestockCount >= rest then farms[0].livestockCount else rest
  }

  /**
   * `farms.length ? Math.max(...counts) : 1`: the largest count over all
   * loaded farms whatever the filters, or 1 when none are loaded.
   */
  function GlobalMaxCount(farms: seq<FarmLite>): (r: int)
    ensures farms == [] ==> r == 1
    ensures farms != [] ==> (forall i :: 0 <= i < |farms| ==> farms[i].livestockCount <= r) &&
                            exists i :: 0 <= i < |farms| && farms[i].livestockCount == r
  {
    if farms == [] then 1 else MaxCount(farms)
  }

  function TypesOf(farms: seq<FarmLite>): (r: seq<string>)
    ensures |r| == |farms| && forall i :: 0 <= i < |farms| ==> r[i] == farms[i].livestockType
  {
    seq(|farms|, i requires 0 <= i < |farms| => farms[i].livestockType)
  }

  /** `Array.from(new Set(farms.map((f) => f.livestock_type)))`. */
  function AllTypes(farms: seq<FarmLite>): (r: seq<string>)
    ensures forall i, j :: 0 <= i < j < |r| ==> r[i] != r[j]
    ensures forall t :: t in r <==> exists i :: 0 <= i < |farms| && farms[i].livestockType == t
  {
    var ts := TypesOf(farms);
    assert forall t :: t in ts <==> exists i :: 0 <= i < |farms| && farms[i].livestockType == t by {
      forall t | t in ts ensures exists i :: 0 <= i < |farms| && farms[i].livestockType == t {
        var i :| 0 <= i < |ts| && ts[i] == t;
      }
    }
    Keys(ts)
  }

  /** A head-count range of the scale filter; `max == None` is unbounded. */
  datatype ScaleRange = ScaleRange(min: int, max: Option<int>)

  /** `typeToGroup[type]` used as an object key: a type missing from the table gives the key "undefined". */
  function GroupKey(t: string): string {
    TypeToGroup(t).GetOr("undefined")
  }

  /** `selectedScales[grp] || { min: 0, max: null }`. */
  function RangeFor(scales: map<string, ScaleRange>, t: string): ScaleRange {
    var key := GroupKey(t);
    if key in scales then scales[key] else ScaleRange(0, None)
  }

  predicate InRange(count: int, range: ScaleRange) {
    count >= range.min && (range.max.None? || count < range.max.value)
  }

  predicate Visible(f: FarmLite, selectedTypes: seq<string>, scales: map<string, ScaleRange>) {
    f.livestockType in selectedTypes && InRange(f.livestockCount, RangeFor(scales, f.livestockType))
  }

  /** `visibleFarms`: the two chained filters. */
  function VisibleFarms(farms: seq<FarmLite>, selectedTypes: seq<string>, scales: map<string, ScaleRange>): (r: seq<FarmLite>)
    ensures forall f :: f in r <==> f in farms && Visible(f, selectedTypes, scales)
  {
    if farms == [] then []
    else (if Visible(farms[0], selectedTypes, scales) then [farms[0]] else []) + VisibleFarms(farms[1..], selectedTypes, scales)
  }

  /** The filter keeps the input order: it distributes over concatenation. */
  lemma {:induction false} VisibleFarmsAppend(a: seq<FarmLite>, b: seq<FarmLite>, selectedTypes: seq<string>, scales: map<string, ScaleRange>)
    ensures VisibleFarms(a + b, selectedTypes, scales) == VisibleFarms(a, selectedTypes, scales) + VisibleFarms(b, selectedTypes, scales)
  {
    if a == [] {
      assert a + b == b;
    } else {
      assert (a + b)[0] == a[0];
      assert (a + b)[1..] == a[1..] + b;
      VisibleFarmsAppend(a[1..], b, selectedTypes, scales);
    }
  }

  /** Without a range for its group a farm of a selected type is visible whenever its count is not negative. */
  lemma {:induction false} MissingRangeIsOpen(f: FarmLite, selectedTypes: seq<string>, scales: map<string, ScaleRange>)
    requires f.livestockType in selectedTypes && GroupKey(f.livestockType) !in scales
    ensures Visible(f, selectedTypes, scales) <==> f.livestockCount >= 0
  {
  }

  /** `handleScaleChange`: sets the range of one group and keeps the others. */
  function ScaleChange(prev: map<string, ScaleRange>, grp: string, range: ScaleRange): (r: map<string, ScaleRange>)
    ensures grp in r && r[grp] == range
    ensures forall g :: g != grp ==> (g in r <==> g in prev) && (g in prev ==> r[g] == prev[g])
  {
    prev[grp := range]
  }

  /** After a scale change, visibility of farms in that group follows the new range, and other groups are unaffected. */
  lemma {:induction false} ScaleChangeVisibility(f: FarmLite, selectedTypes: seq<string>, prev: map<string, ScaleRange>, grp: string, range: ScaleRange)
    ensures GroupKey(f.livestockType) == grp ==>
      (Visible(f, selectedTypes, ScaleChange(prev, grp, range)) <==> f.livestockType in selectedTypes && InRange(f.livestockCount, range))
    ensures GroupKey(f.livestockType) != grp ==>
      (Visible(f, selectedTypes, ScaleChange(prev, grp, range)) <==> Visible(f, selectedTypes, prev))
  {
  }

  datatype Scenario = Worst | Average | Best

  /** A weather reading: direction, speed, humidity. */
  datatype Weather = Weather(dir: real, speed: real, humidity: real)

  /** `envApplied`: the fixed scenarios override; otherwise the forecast when one is selected, else live values. */
  function EnvApplied(scenario: Scenario, live: Weather, forecast: Weather, selFcIndex: int): (env: Env)
    ensures scenario == Worst ==> env == Env(1.0, 98.0, "stable", live.dir)
    ensures scenario == Best ==> env == Env(3.6, 0.0, "unstable", live.dir)
    ensures scenario == Average && selFcIndex > 0 ==> env == Env(forecast.speed, forecast.humidity, "neutral", forecast.dir)
    ensures scenario == Average && selFcIndex <= 0 ==> env == Env(live.speed, live.humidity, "neutral", live.dir)
  {
    match scenario
    case Worst => Env(1.0, 98.0, "stable", live.dir)
    case Best => Env(3.6, 0.0, "unstable", live.dir)
    case Average =>
      if selFcIndex > 0 then Env(forecast.speed, forecast.humidity, "neutral", forecast.dir)
      else Env(live.speed, live.humidity, "neutral", live.dir)
  }

  // ---------------------------------------------------------------- toggles

  function Without(xs: seq<string>, t: string): (r: seq<string>)
    ensures forall x :: x in r <==> x in xs && x != t
  {
    if xs == [] then []
    else (if xs[0] == t then [] else [xs[0]]) + Without(xs[1..], t)
  }

  /** `handleToggleType`: removes every copy of `t` when present, appends it otherwise. */
  function ToggleType(prev: seq<string>, t: string): (r: seq<string>)
    ensures t in r <==> t !in prev
    ensures forall x :: x != t ==> (x in r <==> x in prev)
  {
    if t in prev then Without(prev, t) else prev + [t]
  }

  lemma {:induction false} WithoutAbsent(xs: seq<string>, t: string)
    requires t !in xs
    ensures Without(xs, t) == xs
  {
    if xs != [] {
      WithoutAbsent(xs[1..], t);
      assert [xs[0]] + xs[1..] == xs;
    }
  }

  lemma {:induction false} WithoutAppendSelf(xs: seq<string>, t: string)
    ensures Without(xs + [t], t) == Without(xs, t)
  {
    if xs == [] {
      assert Without([t], t) == [] + Without([], t);
    } else {
      assert (xs + [t])[0] == xs[0];
      assert (xs + [t])[1..] == xs[1..] + [t];
      WithoutAppendSelf(xs[1..], t);
    }
  }

  /** Toggling an unselected type twice gives the original selection back. */
  lemma {:induction false} ToggleTwice(prev: seq<string>, t: string)
    requires t !in prev
    ensures ToggleType(ToggleType(prev, t), t) == prev
  {
    WithoutAppendSelf(prev, t);
    WithoutAbsent(prev, t);
  }

  /** `handleToggleAll`: compares lengths, not contents. */
  function ToggleAll(prev: seq<string>, allTypes: seq<string>): (r: seq<string>)
    ensures |prev| == |allTypes| ==> r == []
    ensures |prev| != |allTypes| ==> r == allTypes
  {
    if |prev| == |allTypes| then [] else allTypes
  }

  /** A selection of the right length but other types still counts as "all selected". */
  lemma {:induction false} ToggleAllComparesLengths()
    ensures ToggleAll(["오리"], ["돼지"]) == []
  {
  }

  // ---------------------------------------------------------------- weather polling

  /**
   * The polling effect: the live values shown by the page, and the last
   * accepted reading (`lastRef`) they always equal.
   */
  class WeatherPoller {
    var windDir: real
    var humidity: real
    var windSpeed: real
    var lastDir: real
    var lastHum: real
    var lastSpd: real

    predicate Valid()
      reads this
    {
      windDir == lastDir && humidity == lastHum && windSpeed == lastSpd
    }

    constructor ()
      ensures Valid()
      ensures lastDir == 0.0 && lastHum == 50.0 && lastSpd == 1.0
    {
      windDir, humidity, windSpeed := 0.0, 50.0, 1.0;
      lastDir, lastHum, lastSpd := 0.0, 50.0, 1.0;
    }

    /**
     * One poll with the reading's fields (None where the response lacks one,
     * which `??` turns into 0, 50 and 1): each value moves only when it
     * differs from its last accepted value by more than 3 degrees, 3 or 0.2.
     */
    method Poll(deg: Option<real>, hum: Option<real>, speed: Option<real>)
      requires Valid()
      modifies this
      ensures Valid()
      ensures var nd := deg.GetOr(0.0);
        lastDir == (if AngleDiffDeg(nd, old(lastDir)) > 3.0 then nd else old(lastDir))
      ensures var nh := hum.GetOr(50.0);
        lastHum == (if Abs(nh - old(lastHum)) > 3.0 then nh else old(lastHum))
      ensures var ns := speed.GetOr(1.0);
        lastSpd == (if Abs(ns - old(lastSpd)) > 0.2 then ns else old(lastSpd))
    {
      var ndir := deg.GetOr(0.0);
      var nhum := hum.GetOr(50.0);
      var nspd := speed.GetOr(1.0);
      if AngleDiffDeg(ndir, lastDir) > 3.0 {
        windDir := ndir;
        lastDir := ndir;
      }
      if Abs(nhum - lastHum) > 3.0 {
        humidity := nhum;
        lastHum := nhum;
      }
      if Abs(nspd - lastSpd) > 0.2 {
        windSpeed := nspd;
        lastSpd := nspd;
      }
    }
  }

  // ---------------------------------------------------------------- worker results

  /** `setOdorFans((prev) => (sameFans(prev, next) ? prev : next))`. */
  function AcceptFans(prev: seq<Fan>, next: seq<Fan>): (r: seq<Fan>)
    ensures SameFans(r, next)
    ensures r == prev || r == next
    ensures !SameFans(prev, next) ==> r == next
  {
    SameFansEquivalence(next, next, next);
    if SameFans(prev, next) then prev else next
  }

  /** Accepting the same result twice changes nothing the second time. */
  lemma {:induction false} AcceptFansIdempotent(prev: seq<Fan>, next: seq<Fan>)
    ensures AcceptFans(AcceptFans(prev, next), next) == AcceptFans(prev, next)
  {
  }

  // ---------------------------------------------------------------- dispatch effect

  /** The environment last sent to the worker (`lastEnvRef`). */
  datatype LastEnv = LastEnv(spd: real, hum: real, dir: real, stab: string)

  predicate EnvDidChange(last: LastEnv, env: Env) {
    Abs(env.windSpeed - last.spd) > 0.2 || Abs(env.humidity - last.hum) > 3.0 ||
    AngleDiffDeg(env.windDir, last.dir) > 3.0 || env.stability != last.stab
  }

  /** The outcome of one run of the effect: what is posted, and the recorded state afterwards. */
  datatype Decision = Decision(post: Option<Payload>, last: LastEnv, hash: string)

  /**
   * One run of the effect: nothing without a worker or when neither the
   * environment nor the farm hash changed; otherwise the full payload, with
   * the environment recorded (stability as 'neutral') and the new hash.
   */
  function Decide(last: LastEnv, hash: string, workerPresent: bool,
                  farms: seq<FarmLite>, maxCount: int, env: Env): (d: Decision)
    ensures d.post.Some? <==> workerPresent && (EnvDidChange(last, env) || HashFarmsLite(farms) != hash)
    ensures d.post.Some? ==>
              d.post.value == Payload(farms, maxCount, env) &&
              d.last == LastEnv(env.windSpeed, env.humidity, env.windDir, "neutral") &&
              d.hash == HashFarmsLite(farms)
    ensures d.post.None? ==> d.last == last && d.hash == hash
  {
    if !workerPresent then Decision(None, last, hash)
    else
      var nextHash := HashFarmsLite(farms);
      if !EnvDidChange(last, env) && nextHash == hash then Decision(None, last, hash)
      else Decision(Some(Payload(farms, maxCount, env)), LastEnv(env.windSpeed, env.humidity, env.windDir, "neutral"), nextHash)
  }

  lemma {:induction false} AngleDiffSelf(d: real)
    ensures AngleDiffDeg(d, d) == 0.0
  {
    assert d - d + 540.0 == 540.0;
    assert Trunc(540.0 / 360.0) == 1;
  }

  /** Right after a post, the same inputs post nothing when the stability is 'neutral'. */
  lemma {:induction false} DecideSettles(last: LastEnv, hash: string, farms: seq<FarmLite>, maxCount: int, env: Env)
    requires env.stability == "neutral"
    ensures var d := Decide(last, hash, true, farms, maxCount, env);
      Decide(d.last, d.hash, true, farms, maxCount, env).post.None?
  {
    AngleDiffSelf(env.windDir);
  }

  /** Because the recorded stability is always 'neutral', any other stability posts on every run. */
  lemma {:induction false} NonNeutralAlwaysPosts(last: LastEnv, hash: string, farms: seq<FarmLite>, maxCount: int, env: Env)
    requires env.stability != "neutral" && last.stab == "neutral"
    ensures var d := Decide(last, hash, true, farms, maxCount, env);
      d.post.Some? && d.last.stab == "neutral"
  {
  }

  /** Small drifts below every threshold, with the same farms, post nothing. */
  lemma {:induction false} BelowThresholdsQuiet(last: LastEnv, hash: string, farms: seq<FarmLite>, maxCount: int, env: Env)
    requires Abs(env.windSpeed - last.spd) <= 0.2 && Abs(env.humidity - last.hum) <= 3.0
    requires AngleDiffDeg(env.windDir, last.dir) <= 3.0 && env.stability == last.stab
    requires HashFarmsLite(farms) == hash
    ensures Decide(last, hash, true, farms, maxCount, env).post.None?
  {
  }

  /** The effect's refs: initially all zero with stability 'neutral' and an empty hash. */
  class OdorDispatcher {
    var last: LastEnv
    var farmsHash: string

    predicate Valid()
      reads this
    {
      last.stab == "neutral"
    }

    constructor ()
      ensures Valid()
      ensures last == LastEnv(0.0, 0.0, 0.0, "neutral") && farmsHash == ""
    {
      last := LastEnv(0.0, 0.0, 0.0, "neutral");
      farmsHash := "";
    }

    /** Runs the effect once; the result is the payload handed to the throttle, if any. */
    method Evaluate(workerPresent: bool, farms: seq<FarmLite>, maxCount: int, env: Env) returns (post: Option<Payload>)
      requires Valid()
      modifies this
      ensures Valid()
      ensures var d := Decide(old(last), old(farmsHash), workerPresent, farms, maxCount, env);
        post == d.post && last == d.last && farmsHash == d.hash
    {
      if !workerPresent {
        return None;
      }
      var nextHash := HashFarmsLite(farms);
      var envDidChange := EnvDidChange(last, env);
      var farmsDidChange := nextHash != farmsHash;
      if !envDidChange && !farmsDidChange {
        return None;
      }
      last := LastEnv(env.windSpeed, env.humidity, env.windDir, "neutral");
      farmsHash := nextHash;
      post := Some(Payload(farms, maxCount, env));
    }
  }

  /** The effect followed by `postThrottled(payload)` when it decides to post. */
  method Dispatch<F>(d: OdorDispatcher, t: Throttle<F, Payload>, now: int, workerPresent: bool,
                     farms: seq<FarmLite>, maxCount: int, env: Env)
    requires d.Valid() && t.Valid()
    modifies d, t
    ensures d.Valid() && t.Valid()
    ensures var dec := Decide(old(d.last), old(d.farmsHash), workerPresent, farms, maxCount, env);
      d.last == dec.last && d.farmsHash == dec.hash &&
      (dec.post.None? ==> t.pending == old(t.pending) && t.delivered == old(t.delivered) && t.lastTs == old(t.lastTs))
    ensures t.fn == old(t.fn)
    ensures var dec := Decide(old(d.last), old(d.farmsHash), workerPresent, farms, maxCount, env);
      dec.post.Some? && now - old(t.lastTs) >= t.wait ==>
        t.pending == None && t.lastTs == now &&
        t.delivered == old(t.delivered) + [Delivery(now, t.fn, dec.post.value)]
    ensures var dec := Decide(old(d.last), old(d.farmsHash), workerPresent, farms, maxCount, env);
      dec.post.Some? && now - old(t.lastTs) < t.wait ==>
        t.pending == Some(Timer(old(t.lastTs) + t.wait, dec.post.value)) &&
        t.lastTs == old(t.lastTs) && t.delivered == old(t.delivered)
  {
    var post := d.Evaluate(workerPresent, farms, maxCount, env);
    if post.Some? {
      t.Call(now, post.value);
    }
  }

  // ---------------------------------------------------------------- fan colour

  /** The colour category of a fan's livestock type. */
  function OdorCategory(t: string): (c: string)
    ensures c in {"소", "돼지", "닭", "사슴", "기타"}
    ensures c == "소" <==> t in {"한우", "육우", "젖소"}
    ensures c == "닭" <==> t in {"종계/산란계", "육계"}
    ensures c == "돼지" <==> t == "돼지"
    ensures c == "사슴" <==> t == "사슴"
  {
    if t in ["한우", "육우", "젖소"] then "소"
    else if t == "돼지" then "돼지"
    else if t in ["종계/산란계", "육계"] then "닭"
    else if t == "사슴" then "사슴"
    else "기타"
  }

  /** Every category has a colour, so `odorColorMap[cat]` never fails. */
  function StrokeColor(t: string): (color: string)
    ensures Some(color) == OdorColor(OdorCategory(t))
  {
    OdorColor(OdorCategory(t)).value
  }
}
