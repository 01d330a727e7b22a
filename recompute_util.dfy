/**
 * The helpers that gate recomputation of odor fans on the farm map: the
 * angular difference of two bearings, the farm-list hash, the fan-list
 * equality and the trailing-edge throttle.
 */
module RecomputeUtil {
  import opened Wrappers
  import opened JsNumber
  import opened JsText
  import opened OdorWorker

  // ---------------------------------------------------------------- angleDiffDeg

  /** `Math.abs(((a - b + 540) % 360) - 180)` with JavaScript's truncated `%`. */
  function AngleDiffDeg(a: real, b: real): real {
    Abs(JsRem360(a - b + 540.0) - 180.0)
  }

  /** The shorter arc between two bearings, the quantity the helper is meant to compute. */
  function ShortArc(a: real, b: real): (r: real)
    ensures 0.0 <= r <= 180.0
  {
    var d := Mod360(a - b);
    if d <= 180.0 then d else 360.0 - d
  }

  /** Whenever the dividend is not negative (a - b >= -540) the helper is the shorter arc. */
  lemma {:induction false} AngleDiffIsShortArc(a: real, b: real)
    requires a - b >= -540.0
    ensures AngleDiffDeg(a, b) == ShortArc(a, b)
  {
    var x := a - b + 540.0;
    JsRemNonNegative(x);
    var d := Mod360(a - b);
    var k := ((a - b) / 360.0).Floor;
    assert a - b == d + 360.0 * (k as real);
    if d < 180.0 {
      Mod360Unique(x, d + 180.0, k + 1);
    } else {
      Mod360Unique(x, d - 180.0, k + 2);
    }
  }

  /** On bearings in [0, 360] the result is in [0, 180], symmetric, and 0 on equal bearings. */
  lemma {:induction false} AngleDiffOnBearings(a: real, b: real)
    requires 0.0 <= a <= 360.0 && 0.0 <= b <= 360.0
    ensures 0.0 <= AngleDiffDeg(a, b) <= 180.0
    ensures AngleDiffDeg(a, b) == AngleDiffDeg(b, a)
    ensures a == b ==> AngleDiffDeg(a, b) == 0.0
  {
    AngleDiffIsShortArc(a, b);
    AngleDiffIsShortArc(b, a);
    ShortArcSymmetric(a, b);
    if a == b {
      Mod360Unique(0.0, 0.0, 0);
    }
  }

  lemma {:induction false} ShortArcSymmetric(a: real, b: real)
    ensures ShortArc(a, b) == ShortArc(b, a)
  {
    var d := Mod360(a - b);
    var k := ((a - b) / 360.0).Floor;
    assert a - b == d + 360.0 * (k as real);
    if d == 0.0 {
      Mod360Unique(b - a, 0.0, -k);
    } else {
      Mod360Unique(b - a, 360.0 - d, -k - 1);
    }
  }

  /** Below -540 the truncated remainder goes negative and the result leaves [0, 180]. */
  lemma {:induction false} AngleDiffLargeNegative()
    ensures AngleDiffDeg(0.0, 720.0) == 360.0
    ensures ShortArc(0.0, 720.0) == 0.0
  {
    assert Trunc(-180.0 / 360.0) == 0;
    Mod360Unique(-720.0, 0.0, -2);
  }

  // ---------------------------------------------------------------- hashFarmsLite

  function HashEntry(f: FarmLite): string {
    IntToString(f.id) + ":" + f.livestockType + ":" + IntToString(f.livestockCount)
  }

  function HashEntries(arr: seq<FarmLite>): (r: seq<string>)
    ensures |r| == |arr| && forall i :: 0 <= i < |arr| ==> r[i] == HashEntry(arr[i])
  {
    seq(|arr|, i requires 0 <= i < |arr| => HashEntry(arr[i]))
  }

  /** `arr.map((f) => `${id}:${type}:${count}`).join('|')`. */
  function HashFarmsLite(arr: seq<FarmLite>): string {
    Join(HashEntries(arr), "|")
  }

  /** The fields the hash covers. */
  function HashKey(f: FarmLite): (int, string, int) {
    (f.id, f.livestockType, f.livestockCount)
  }

  /** Livestock type names never contain the two separators. */
  predicate PlainTypes(arr: seq<FarmLite>) {
    forall i :: 0 <= i < |arr| ==> ':' !in arr[i].livestockType && '|' !in arr[i].livestockType
  }

  lemma {:induction false} HashEmpty()
    ensures HashFarmsLite([]) == ""
  {
  }

  lemma {:induction false} NoSeparatorInNumber(n: int, c: char)
    requires c == ':' || c == '|'
    ensures c !in IntToString(n)
  {
    var m: nat := if n < 0 then -n else n;
    assert forall i :: 0 <= i < |NatToString(m)| ==> '0' <= NatToString(m)[i] <= '9';
    if n < 0 {
      assert IntToString(n) == "-" + NatToString(m);
    }
  }

  lemma {:induction false} EntrySplit(f: FarmLite)
    requires ':' !in f.livestockType
    ensures '|' !in HashEntry(f) <==> '|' !in f.livestockType
    ensures Split(HashEntry(f), ':') == [IntToString(f.id), f.livestockType, IntToString(f.livestockCount)]
  {
    NoSeparatorInNumber(f.id, ':');
    NoSeparatorInNumber(f.livestockCount, ':');
    NoSeparatorInNumber(f.id, '|');
    NoSeparatorInNumber(f.livestockCount, '|');
    var parts := [IntToString(f.id), f.livestockType, IntToString(f.livestockCount)];
    assert Join(parts, ":") == HashEntry(f) by {
      assert parts[1..] == [f.livestockType, IntToString(f.livestockCount)];
      assert parts[1..][1..] == [IntToString(f.livestockCount)];
    }
    SplitJoin(parts, ':');
  }

  lemma {:induction false} IntToStringInjective(m: int, n: int)
    requires IntToString(m) == IntToString(n)
    ensures m == n
  {
    IntToStringRoundTrip(m, 10);
    IntToStringRoundTrip(n, 10);
  }

  lemma {:induction false} EntryInjective(f: FarmLite, g: FarmLite)
    requires ':' !in f.livestockType && ':' !in g.livestockType
    requires HashEntry(f) == HashEntry(g)
    ensures HashKey(f) == HashKey(g)
  {
    EntrySplit(f);
    EntrySplit(g);
    IntToStringInjective(f.id, g.id);
    IntToStringInjective(f.livestockCount, g.livestockCount);
  }

  /**
   * When type names avoid ':' and '|', equal hashes mean the same ids, types
   * and counts in the same order (coordinates are not part of the hash).
   */
  lemma {:induction false} HashDeterminesKeys(a: seq<FarmLite>, b: seq<FarmLite>)
    requires PlainTypes(a) && PlainTypes(b)
    requires HashFarmsLite(a) == HashFarmsLite(b)
    ensures |a| == |b| && forall i :: 0 <= i < |a| ==> HashKey(a[i]) == HashKey(b[i])
  {
    if a == [] || b == [] {
      NonEmptyHash(a);
      NonEmptyHash(b);
    } else {
      var ea := HashEntries(a);
      var eb := HashEntries(b);
      forall i | 0 <= i < |a| ensures '|' !in ea[i] {
        EntrySplit(a[i]);
      }
      forall i | 0 <= i < |b| ensures '|' !in eb[i] {
        EntrySplit(b[i]);
      }
      SplitJoin(ea, '|');
      SplitJoin(eb, '|');
      assert ea == eb;
      forall i | 0 <= i < |a| ensures HashKey(a[i]) == HashKey(b[i]) {
        assert ea[i] == eb[i];
        EntryInjective(a[i], b[i]);
      }
    }
  }

  lemma {:induction false} NonEmptyHash(a: seq<FarmLite>)
    ensures a == [] <==> HashFarmsLite(a) == ""
  {
    if a != [] {
      var e := HashEntries(a);
      assert |e[0]| >= 1;
      if |a| > 1 {
        assert Join(e, "|") == e[0] + "|" + Join(e[1..], "|");
      }
    }
  }

  /** With a separator inside a type name two different lists can hash alike. */
  lemma {:induction false} HashCollision()
    ensures var one := [FarmLite(1, 0.0, 0.0, "a:1|2:b", 3)];
      var two := [FarmLite(1, 0.0, 0.0, "a", 1), FarmLite(2, 0.0, 0.0, "b", 3)];
      HashFarmsLite(one) == HashFarmsLite(two) && |one| != |two|
  {
    var two := [FarmLite(1, 0.0, 0.0, "a", 1), FarmLite(2, 0.0, 0.0, "b", 3)];
    assert IntToString(1) == "1" && IntToString(2) == "2" && IntToString(3) == "3";
    assert HashEntries(two)[1..] == [HashEntry(two[1])];
  }

  // ---------------------------------------------------------------- sameFans

  predicate SameFan(x: Fan, y: Fan) {
    x.farmId == y.farmId && x.livestockType == y.livestockType && x.radius == y.radius &&
    x.startA == y.startA && x.endA == y.endA
  }

  /** `sameFans`: equal lengths and index-wise agreement on the compared fields. */
  predicate SameFans(a: seq<Fan>, b: seq<Fan>) {
    |a| == |b| && forall i :: 0 <= i < |a| ==> SameFan(a[i], b[i])
  }

  /** The fields `sameFans` compares; `center` is not one of them. */
  function FanKey(f: Fan): (int, string, real, real, real) {
    (f.farmId, f.livestockType, f.radius, f.startA, f.endA)
  }

  function FanKeys(a: seq<Fan>): (r: seq<(int, string, real, real, real)>)
    ensures |r| == |a| && forall i :: 0 <= i < |a| ==> r[i] == FanKey(a[i])
  {
    seq(|a|, i requires 0 <= i < |a| => FanKey(a[i]))
  }

  /** `sameFans` is exactly equality of the compared fields, list by list. */
  lemma {:induction false} SameFansIffKeys(a: seq<Fan>, b: seq<Fan>)
    ensures SameFans(a, b) <==> FanKeys(a) == FanKeys(b)
  {
    if FanKeys(a) == FanKeys(b) {
      assert |a| == |b|;
      forall i | 0 <= i < |a| ensures SameFan(a[i], b[i]) {
        assert FanKeys(a)[i] == FanKeys(b)[i];
      }
    }
  }

  /** Reflexive, symmetric and transitive. */
  lemma {:induction false} SameFansEquivalence(a: seq<Fan>, b: seq<Fan>, c: seq<Fan>)
    ensures SameFans(a, a)
    ensures SameFans(a, b) ==> SameFans(b, a)
    ensures SameFans(a, b) && SameFans(b, c) ==> SameFans(a, c)
  {
  }

  /** Moving the centres does not make two fan lists differ. */
  lemma {:induction false} SameFansIgnoresCenter(a: seq<Fan>, centers: seq<LatLng>)
    requires |centers| == |a|
    ensures SameFans(a, seq(|a|, i requires 0 <= i < |a| => a[i].(center := centers[i])))
  {
  }

  // ---------------------------------------------------------------- useThrottleCallback

  /** One delivery of the throttled callback: when, through which function, with what. */
  datatype Delivery<F, A> = Delivery(time: int, fn: F, args: A)

  /** An armed timer: when it fires and the arguments it will deliver. */
  datatype Timer<A> = Timer(fireAt: int, args: A)

  /**
   * The throttle state: the latest function, the time of the last run
   * (initially 0), the armed timer if any, and the deliveries made so far.
   * Time is an explicit parameter instead of `Date.now()`.
   */
  class Throttle<F, A> {
    const wait: int
    var fn: F
    var lastTs: int
    var pending: Option<Timer<A>>
    var delivered: seq<Delivery<F, A>>

    /** Runs are at least `wait` apart, `lastTs` is the last run, and an armed timer fires `wait` after it. */
    predicate Valid()
      reads this
    {
      wait >= 0 &&
      (delivered == [] ==> lastTs == 0) &&
      (delivered != [] ==> lastTs == delivered[|delivered| - 1].time) &&
      (forall i :: 0 <= i < |delivered| - 1 ==> delivered[i + 1].time - delivered[i].time >= wait) &&
      (pending.Some? ==> pending.value.fireAt == lastTs + wait)
    }

    constructor (f: F, wait: int)
      requires wait >= 0
      ensures Valid()
      ensures this.wait == wait && fn == f && lastTs == 0 && pending == None && delivered == []
    {
      this.wait := wait;
      fn := f;
      lastTs := 0;
      pending := None;
      delivered := [];
    }

    /** The effect that keeps `fnRef` on the latest function. */
    method SetFn(f: F)
      requires Valid()
      modifies this
      ensures Valid()
      ensures fn == f && lastTs == old(lastTs) && pending == old(pending) && delivered == old(delivered)
    {
      fn := f;
    }

    /**
     * A call at time `now`: once `wait` has passed since the last run it
     * cancels the timer and runs at once; otherwise it replaces any armed
     * timer with one firing at `lastTs + wait` carrying these arguments.
     */
    method Call(now: int, args: A)
      requires Valid()
      modifies this
      ensures Valid()
      ensures fn == old(fn)
      ensures now - old(lastTs) >= wait ==>
        pending == None && lastTs == now && delivered == old(delivered) + [Delivery(now, fn, args)]
      ensures now - old(lastTs) < wait ==>
        pending == Some(Timer(old(lastTs) + wait, args)) && lastTs == old(lastTs) && delivered == old(delivered)
    {
      var remain := wait - (now - lastTs);
      if remain <= 0 {
        pending := None;
        lastTs := now;
        delivered := delivered + [Delivery(now, fn, args)];
      } else {
        pending := Some(Timer(now + remain, args));
      }
    }

    /** The armed timer firing at `now` (no earlier than its deadline): it runs with the latest function. */
    method Fire(now: int)
      requires Valid() && pending.Some? && now >= pending.value.fireAt
      modifies this
      ensures Valid()
      ensures fn == old(fn) && pending == None && lastTs == now
      ensures delivered == old(delivered) + [Delivery(now, fn, old(pending).value.args)]
    {
      var args := pending.value.args;
      pending := None;
      lastTs := now;
      delivered := delivered + [Delivery(now, fn, args)];
    }
  }
}
