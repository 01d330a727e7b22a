/**
 * JavaScript number operations over mathematical reals: the truncated
 * remainder `%`, the `((d % 360) + 360) % 360` angle normalisation and
 * `Math.round(x * 10) / 10`.
 */
module JsNumber {
  import opened Wrappers

  /** JavaScript truthiness of a nullable number: null and 0 are falsy. */
  predicate Truthy(x: Option<real>) {
    x.Some? && x.value != 0.0
  }

  /** Truncation toward zero, as `%` uses it. */
  function Trunc(x: real): (r: int)
    ensures x >= 0.0 ==> (r as real) <= x < (r as real) + 1.0
    ensures x < 0.0 ==> (r as real) - 1.0 < x <= (r as real)
  {
    if x >= 0.0 then x.Floor else -((-x).Floor)
  }

  /** The mathematical (Euclidean) remainder modulo 360, always in [0, 360). */
  function Mod360(x: real): (r: real)
    ensures 0.0 <= r < 360.0
  {
    x - 360.0 * ((x / 360.0).Floor as real)
  }

  /** `x % 360` in JavaScript: the sign of a non-zero result follows the dividend. */
  function JsRem360(x: real): (r: real)
    ensures x >= 0.0 ==> 0.0 <= r < 360.0
    ensures x < 0.0 ==> -360.0 < r <= 0.0
  {
    x - 360.0 * (Trunc(x / 360.0) as real)
  }

  /** The remainder is the unique representative in [0, 360). */
  lemma {:induction false} Mod360Unique(x: real, r: real, k: int)
    requires 0.0 <= r < 360.0
    requires x == r + 360.0 * (k as real)
    ensures Mod360(x) == r
  {
    var f := (x / 360.0).Floor;
    assert (f as real) <= x / 360.0 < (f as real) + 1.0;
    assert (k as real) <= x / 360.0 < (k as real) + 1.0;
    assert f == k;
  }

  /** Adding whole turns does not change the remainder. */
  lemma {:induction false} Mod360Shift(x: real, k: int)
    ensures Mod360(x + 360.0 * (k as real)) == Mod360(x)
  {
    var f := (x / 360.0).Floor;
    Mod360Unique(x + 360.0 * (k as real), Mod360(x), f + k);
  }

  /** On a non-negative dividend JavaScript's `%` is the Euclidean remainder. */
  lemma {:induction false} JsRemNonNegative(x: real)
    requires x >= 0.0
    ensures JsRem360(x) == Mod360(x)
  {
    Mod360Unique(x, JsRem360(x), Trunc(x / 360.0));
  }

  /** `((d % 360) + 360) % 360`, the normalisation the odor sector uses. */
  function NormalizeDeg(d: real): (r: real)
    ensures 0.0 <= r < 360.0
    ensures r == Mod360(d)
  {
    var once := JsRem360(d);
    assert once + 360.0 >= 0.0;
    JsRemNonNegative(once + 360.0);
    Mod360Unique(d, Mod360(once + 360.0), (d / 360.0).Floor);
    JsRem360(once + 360.0)
  }

  /** `Math.round(x * 10) / 10`: round half up to one decimal. */
  function RoundTenth(x: real): (r: real)
    ensures x - 0.05 < r <= x + 0.05
    ensures x >= 0.0 ==> r >= 0.0
  {
    ((10.0 * x + 0.5).Floor as real) / 10.0
  }

  lemma {:induction false} RoundTenthMonotone(x: real, y: real)
    requires x <= y
    ensures RoundTenth(x) <= RoundTenth(y)
  {
    var fx := (10.0 * x + 0.5).Floor;
    var fy := (10.0 * y + 0.5).Floor;
    assert (fx as real) <= 10.0 * x + 0.5 <= 10.0 * y + 0.5 < (fy as real) + 1.0;
    assert fx <= fy;
  }

  /** A value that is already a whole number of tenths is unchanged. */
  lemma {:induction false} RoundTenthExact(n: int)
    ensures RoundTenth((n as real) / 10.0) == (n as real) / 10.0
  {
    assert 10.0 * ((n as real) / 10.0) + 0.5 == (n as real) + 0.5;
    assert ((n as real) + 0.5).Floor == n;
  }

  function Max(a: real, b: real): (r: real)
    ensures r >= a && r >= b && (r == a || r == b)
  {
    if a >= b then a else b
  }

  function Abs(x: real): (r: real)
    ensures r >= 0.0 && (r == x || r == -x)
  {
    if x >= 0.0 then x else -x
  }
}
