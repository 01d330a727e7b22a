/**
 * The JavaScript string operations the source relies on: `trim` (as a
 * blankness test), `split` on one character, `join`, `startsWith`,
 * ASCII `toLowerCase`, number-to-string conversion, `parseInt` and the
 * `<` order on strings.
 */
module JsText {
  import opened Wrappers

  /** The characters `String.prototype.trim` removes (WhiteSpace and LineTerminator). */
  predicate IsJsWhitespace(c: char) {
    var n := c as int;
    n == 0x09 || n == 0x0A || n == 0x0B || n == 0x0C || n == 0x0D || n == 0x20 ||
    n == 0xA0 || n == 0x1680 || (0x2000 <= n <= 0x200A) || n == 0x2028 || n == 0x2029 ||
    n == 0x202F || n == 0x205F || n == 0x3000 || n == 0xFEFF
  }

  /** `s.trim().length === 0`. */
  predicate IsBlank(s: string) {
    forall i :: 0 <= i < |s| ==> IsJsWhitespace(s[i])
  }

  /** `s.trimStart()`. */
  function TrimStart(s: string): (r: string)
    ensures |r| <= |s| && r == s[|s| - |r|..]
    ensures r == [] || !IsJsWhitespace(r[0])
    ensures forall i :: 0 <= i < |s| - |r| ==> IsJsWhitespace(s[i])
  {
    if s == [] || !IsJsWhitespace(s[0]) then s else TrimStart(s[1..])
  }

  predicate StartsWith(s: string, prefix: string) {
    |prefix| <= |s| && s[..|prefix|] == prefix
  }

  /** `parts.join(sep)`. */
  function Join(parts: seq<string>, sep: string): (r: string)
    ensures parts == [] ==> r == []
    ensures |parts| == 1 ==> r == parts[0]
  {
    if parts == [] then []
    else if |parts| == 1 then parts[0]
    else parts[0] + sep + Join(parts[1..], sep)
  }

  /** `s.split(sep)` for a one-character separator. */
  function Split(s: string, sep: char): (r: seq<string>)
    ensures |r| >= 1
    ensures forall i :: 0 <= i < |r| ==> sep !in r[i]
    ensures |r| == 1 ==> r[0] == s
  {
    if s == [] then [[]]
    else
      var rest := Split(s[1..], sep);
      if s[0] == sep then [[]] + rest
      else [[s[0]] + rest[0]] + rest[1..]
  }

  lemma {:induction false} SplitAfterPiece(a: string, sep: char, rest: string)
    requires sep !in a
    ensures Split(a + [sep] + rest, sep) == [a] + Split(rest, sep)
  {
    if a == [] {
      assert a + [sep] + rest == [sep] + rest;
    } else {
      assert (a + [sep] + rest)[1..] == a[1..] + [sep] + rest;
      SplitAfterPiece(a[1..], sep, rest);
      assert [a[0]] + a[1..] == a;
    }
  }

  lemma {:induction false} SplitNoSeparator(a: string, sep: char)
    requires sep !in a
    ensures Split(a, sep) == [a]
  {
    if a != [] {
      SplitNoSeparator(a[1..], sep);
      assert [a[0]] + a[1..] == a;
    }
  }

  /** Splitting a join on a separator that no part contains gives the parts back. */
  lemma {:induction false} SplitJoin(parts: seq<string>, sep: char)
    requires |parts| >= 1
    requires forall i :: 0 <= i < |parts| ==> sep !in parts[i]
    ensures Split(Join(parts, [sep]), sep) == parts
  {
    if |parts| == 1 {
      SplitNoSeparator(parts[0], sep);
    } else {
      SplitJoin(parts[1..], sep);
      SplitAfterPiece(parts[0], sep, Join(parts[1..], [sep]));
      assert [parts[0]] + parts[1..] == parts;
    }
  }

  /** `s.split(sep)[1]`, or None when `sep` does not occur. */
  function SplitSecond(s: string, sep: char): (r: Option<string>)
    ensures (sep in s) == r.Some?
  {
    var parts := Split(s, sep);
    SplitLengthOne(s, sep);
    if |parts| >= 2 then Some(parts[1]) else None
  }

  lemma {:induction false} SplitLengthOne(s: string, sep: char)
    ensures (|Split(s, sep)| == 1) <==> sep !in s
  {
    if s != [] {
      SplitLengthOne(s[1..], sep);
    }
  }

  /** The text before the first occurrence of `sep`: `s.split(sep)[0]`. */
  function Before(s: string, sep: char): (r: string)
    ensures |r| <= |s| && r == s[..|r|] && sep !in r
    ensures |r| < |s| ==> s[|r|] == sep
  {
    if s == [] || s[0] == sep then [] else [s[0]] + Before(s[1..], sep)
  }

  lemma {:induction false} BeforeIsFirstPiece(s: string, sep: char)
    ensures Split(s, sep)[0] == Before(s, sep)
  {
    if s != [] {
      BeforeIsFirstPiece(s[1..], sep);
    }
  }

  /** ASCII part of `toLowerCase`. */
  function LowerChar(c: char): (r: char)
    ensures 'A' <= c <= 'Z' ==> r as int == c as int + 32
    ensures !('A' <= c <= 'Z') ==> r == c
  {
    if 'A' <= c <= 'Z' then (c as int + 32) as char else c
  }

  function ToLower(s: string): (r: string)
    ensures |r| == |s| && forall i :: 0 <= i < |s| ==> r[i] == LowerChar(s[i])
  {
    if s == [] then [] else [LowerChar(s[0])] + ToLower(s[1..])
  }

  // ---------------------------------------------------------------- numbers as text

  function DigitChar(d: int): (c: char)
    requires 0 <= d < 10
    ensures '0' <= c <= '9' && c as int - '0' as int == d
  {
    ('0' as int + d) as char
  }

  /** Decimal rendering of a natural number, as template literals print it. */
  function NatToString(n: nat): (r: string)
    ensures |r| >= 1
    ensures forall i :: 0 <= i < |r| ==> '0' <= r[i] <= '9'
    ensures n >= 10 ==> r[0] != '0'
  {
    if n < 10 then [DigitChar(n)] else NatToString(n / 10) + [DigitChar(n % 10)]
  }

  /** `String(n)` / `${n}` for an integer. */
  function IntToString(n: int): (r: string)
    ensures |r| >= 1
    ensures n < 0 <==> r[0] == '-'
  {
    if n < 0 then "-" + NatToString(-n) else NatToString(n)
  }

  /** Value of an alphanumeric digit, or -1. */
  function DigitValue(c: char): (v: int)
    ensures -1 <= v < 36
    ensures '0' <= c <= '9' ==> v == c as int - '0' as int
  {
    if '0' <= c <= '9' then c as int - '0' as int
    else if 'a' <= c <= 'z' then c as int - 'a' as int + 10
    else if 'A' <= c <= 'Z' then c as int - 'A' as int + 10
    else -1
  }

  predicate IsDigit(c: char, radix: int) {
    0 <= DigitValue(c) < radix
  }

  /** The longest prefix of `s` made of digits of the radix. */
  function LeadingDigits(s: string, radix: int): (r: string)
    ensures |r| <= |s| && r == s[..|r|]
    ensures forall i :: 0 <= i < |r| ==> IsDigit(r[i], radix)
    ensures |r| < |s| ==> !IsDigit(s[|r|], radix)
  {
    if s == [] || !IsDigit(s[0], radix) then [] else [s[0]] + LeadingDigits(s[1..], radix)
  }

  /** Positional value of a digit string. */
  function DigitsValue(ds: string, radix: int): (v: nat)
    requires radix >= 2
    requires forall i :: 0 <= i < |ds| ==> IsDigit(ds[i], radix)
  {
    if ds == [] then 0
    else
      var init := ds[..|ds| - 1];
      assert forall i :: 0 <= i < |init| ==> init[i] == ds[i];
      var d := DigitValue(ds[|ds| - 1]);
      assert IsDigit(ds[|ds| - 1], radix);
      var p: nat := DigitsValue(init, radix);
      assert p * radix >= 0 by { ProductNonNegative(p, radix); }
      p * radix + d
  }

  lemma {:induction false} ProductNonNegative(p: nat, radix: int)
    requires radix >= 2
    ensures p * radix >= 0
  {
  }


  /**
   * `parseInt(s, radix)`, with radix 0 standing for an omitted radix:
   * leading whitespace and one sign are skipped, a `0x`/`0X` prefix switches
   * to hexadecimal when the radix is omitted or 16, and the longest digit
   * prefix is read. None is NaN.
   */
  function ParseInt(s: string, radix: int): (r: Option<int>)
    requires radix == 0 || radix == 10 || radix == 16
    ensures r.None? <==> LeadingDigits(AfterSignAndPrefix(s, radix), EffectiveRadix(s, radix)) == []
  {
    var body := AfterSignAndPrefix(s, radix);
    var rad := EffectiveRadix(s, radix);
    var ds := LeadingDigits(body, rad);
    if ds == [] then None
    else
      var magnitude: int := DigitsValue(ds, rad);
      Some(if IsNegative(s) then -magnitude else magnitude)
  }

  function AfterSign(s: string): string {
    var t := TrimStart(s);
    if t != [] && (t[0] == '-' || t[0] == '+') then t[1..] else t
  }

  predicate IsNegative(s: string) {
    var t := TrimStart(s);
    t != [] && t[0] == '-'
  }

  predicate HasHexPrefix(s: string, radix: int) {
    var t := AfterSign(s);
    (radix == 0 || radix == 16) && |t| >= 2 && t[0] == '0' && (t[1] == 'x' || t[1] == 'X')
  }

  function EffectiveRadix(s: string, radix: int): (r: int)
    requires radix == 0 || radix == 10 || radix == 16
    ensures r == 10 || r == 16
  {
    if HasHexPrefix(s, radix) then 16 else if radix == 0 then 10 else radix
  }

  function AfterSignAndPrefix(s: string, radix: int): string {
    var t := AfterSign(s);
    if HasHexPrefix(s, radix) then t[2..] else t
  }

  lemma {:induction false} DigitsValueOfNat(n: nat)
    ensures forall i :: 0 <= i < |NatToString(n)| ==> IsDigit(NatToString(n)[i], 10)
    ensures DigitsValue(NatToString(n), 10) == n
  {
    var s := NatToString(n);
    if n >= 10 {
      DigitsValueOfNat(n / 10);
      assert s[..|s| - 1] == NatToString(n / 10);
    }
  }

  lemma {:induction false} LeadingDigitsAll(s: string, radix: int)
    requires forall i :: 0 <= i < |s| ==> IsDigit(s[i], radix)
    ensures LeadingDigits(s, radix) == s
  {
    if s != [] {
      LeadingDigitsAll(s[1..], radix);
    }
  }

  lemma {:induction false} LeadingDigitsThen(ds: string, tail: string, radix: int)
    requires forall i :: 0 <= i < |ds| ==> IsDigit(ds[i], radix)
    requires tail == [] || !IsDigit(tail[0], radix)
    ensures LeadingDigits(ds + tail, radix) == ds
  {
    if ds != [] {
      assert (ds + tail)[1..] == ds[1..] + tail;
      LeadingDigitsThen(ds[1..], tail, radix);
    }
  }

  /**
   * `parseInt` stops at the first character that is not a decimal digit:
   * a positive number followed by such text reads as the number.
   */
  lemma {:induction false} ParseIntPrefix(n: nat, tail: string, radix: int)
    requires radix == 0 || radix == 10
    requires n > 0 && (tail == [] || !IsDigit(tail[0], 10))
    ensures ParseInt(NatToString(n) + tail, radix) == Some(n)
  {
    var digits := NatToString(n);
    var s := digits + tail;
    assert s[0] == digits[0];
    assert !IsJsWhitespace(s[0]);
    assert TrimStart(s) == s;
    assert AfterSign(s) == s;
    assert !HasHexPrefix(s, radix) by {
      if |digits| >= 2 {
        assert digits[0] != '0';
      } else {
        assert digits == [DigitChar(n)];
      }
    }
    assert EffectiveRadix(s, radix) == 10;
    DigitsValueOfNat(n);
    LeadingDigitsThen(digits, tail, 10);
  }

  /** `String(n)` is a sign for a negative `n`, then the digits of its magnitude, with no leading space. */
  lemma {:induction false} IntToStringSign(n: int)
    ensures TrimStart(IntToString(n)) == IntToString(n)
    ensures AfterSign(IntToString(n)) == NatToString(if n < 0 then -n else n)
    ensures IsNegative(IntToString(n)) <==> n < 0
  {
    var s := IntToString(n);
    SignOrDigitNotSpace(s[0]);
    TrimStartUnchanged(s);
    if n < 0 {
      assert s[1..] == NatToString(-n);
    } else {
      assert s[0] != '+';
    }
  }

  lemma {:induction false} SignOrDigitNotSpace(c: char)
    requires c == '-' || '0' <= c <= '9'
    ensures !IsJsWhitespace(c)
  {
  }

  lemma {:induction false} TrimStartUnchanged(s: string)
    requires s != [] && !IsJsWhitespace(s[0])
    ensures TrimStart(s) == s
  {
  }

  /** The digits of a natural number never start with `0x`. */
  lemma {:induction false} NoHexPrefix(n: int, radix: int)
    ensures !HasHexPrefix(IntToString(n), radix)
  {
    IntToStringSign(n);
    var m: nat := if n < 0 then -n else n;
    var digits := NatToString(m);
    if |digits| >= 2 {
      assert m >= 10;
      assert digits[0] != '0';
    }
  }

  /** After the sign, `String(n)` is read as the decimal digits of its magnitude. */
  lemma {:induction false} DecimalBody(n: int, radix: int)
    requires radix == 0 || radix == 10
    ensures AfterSignAndPrefix(IntToString(n), radix) == NatToString(if n < 0 then -n else n)
    ensures EffectiveRadix(IntToString(n), radix) == 10
    ensures IsNegative(IntToString(n)) <==> n < 0
  {
    IntToStringSign(n);
    NoHexPrefix(n, radix);
  }

  /** `parseInt` of a string whose decimal digit prefix after the sign is `digits`. */
  lemma {:induction false} ParseDecimal(s: string, radix: int, digits: string)
    requires radix == 0 || radix == 10
    requires EffectiveRadix(s, radix) == 10 && LeadingDigits(AfterSignAndPrefix(s, radix), 10) == digits && digits != []
    ensures var v: int := DigitsValue(digits, 10); ParseInt(s, radix) == Some(if IsNegative(s) then -v else v)
  {
  }

  /** Printing an integer and reading it back with `parseInt` gives the integer. */
  lemma {:induction false} IntToStringRoundTrip(n: int, radix: int)
    requires radix == 0 || radix == 10
    ensures ParseInt(IntToString(n), radix) == Some(n)
  {
    var m: nat := if n < 0 then -n else n;
    DecimalBody(n, radix);
    DigitsValueOfNat(m);
    LeadingDigitsAll(NatToString(m), 10);
    ParseDecimal(IntToString(n), radix, NatToString(m));
  }

  // ---------------------------------------------------------------- numbers in exponent form

  /** 10 to the power `k`. */
  function Pow10(k: nat): (r: nat)
    ensures r >= 1
  {
    if k == 0 then 1 else 10 * Pow10(k - 1)
  }

  /** 10^21, the smallest magnitude `String` writes in exponent form. */
  const ExponentFrom: int := Pow10(21)

  lemma {:induction false} Pow10Monotone(j: nat, k: nat)
    requires j <= k
    ensures Pow10(j) <= Pow10(k)
  {
    if j < k {
      Pow10Monotone(j, k - 1);
    }
  }

  /** `s` without its trailing `'0'` characters. */
  function TrimTrailingZeros(s: string): (r: string)
    ensures |r| <= |s| && r == s[..|r|]
    ensures r == [] || r[|r| - 1] != '0'
    ensures forall i :: |r| <= i < |s| ==> s[i] == '0'
  {
    if s == [] || s[|s| - 1] != '0' then s else TrimTrailingZeros(s[..|s| - 1])
  }

  lemma {:induction false} TrimZeros(s: string)
    requires forall i :: 0 <= i < |s| ==> s[i] == '0'
    ensures TrimTrailingZeros(s) == []
  {
  }

  /**
   * The exponent form of the decimal digits `ds`: the first digit, then a
   * point and the other digits up to the last non-zero one (when there is
   * one), then `e+` and the exponent.
   */
  function ExponentDigits(ds: string): string
    requires |ds| >= 1
  {
    [ds[0]] + ExponentTail(ds)
  }

  /** What follows the first digit in the exponent form. */
  function ExponentTail(ds: string): string
    requires |ds| >= 1
  {
    var frac := TrimTrailingZeros(ds[1..]);
    (if frac == [] then "" else "." + frac) + "e+" + NatToString(|ds| - 1)
  }

  lemma {:induction false} ExponentTailStart(ds: string)
    requires |ds| >= 1
    ensures ExponentTail(ds) != [] && !IsDigit(ExponentTail(ds)[0], 10)
  {
    var t := ExponentTail(ds);
    assert t[0] == '.' || t[0] == 'e';
  }

  /**
   * `String(v)` for a number whose value is the integer `n`, as
   * Number::toString of ECMA-262 writes it: the decimal digits while the
   * magnitude is below 10^21, the exponent form from 10^21 on.
   */
  function NumberToString(n: int): string {
    var m: nat := if n < 0 then -n else n;
    if m < ExponentFrom then IntToString(n)
    else (if n < 0 then "-" else "") + ExponentDigits(NatToString(m))
  }

  /** Below 10^21 in magnitude, `parseInt` reads the text back as the number. */
  lemma {:induction false} NumberToStringRoundTrip(n: int)
    requires -ExponentFrom < n < ExponentFrom
    ensures ParseInt(NumberToString(n), 10) == Some(n)
  {
    IntToStringRoundTrip(n, 10);
  }

  /** `parseInt("0", 10)` is 0. */
  lemma {:induction false} ParseZero()
    ensures ParseInt("0", 10) == Some(0)
  {
    var s := "0";
    assert TrimStart(s) == s;
    assert AfterSign(s) == s;
    assert !HasHexPrefix(s, 10);
    assert LeadingDigits(s[1..], 10) == [];
    assert LeadingDigits(s, 10) == s;
    assert DigitsValue(s, 10) == 0;
  }

  /** `parseInt` of an optional minus, one non-zero digit and a tail that does not start with a digit. */
  lemma {:induction false} ReadsOneDigit(s: string, sign: string, c: char, tail: string)
    requires sign == "" || sign == "-"
    requires '1' <= c <= '9' && tail != [] && !IsDigit(tail[0], 10)
    requires s == sign + [c] + tail
    ensures ParseInt(s, 10) == Some(if sign == "-" then -DigitValue(c) else DigitValue(c))
  {
    var body := [c] + tail;
    assert s == sign + body;
    SignOrDigitNotSpace(s[0]);
    TrimStartUnchanged(s);
    assert AfterSign(s) == body;
    assert IsNegative(s) <==> sign == "-";
    assert !HasHexPrefix(s, 10);
    LeadingDigitsThen([c], tail, 10);
    assert DigitsValue([c], 10) == DigitValue(c);
    ParseDecimal(s, 10, [c]);
  }

  /** In the exponent form a point or `e` follows the first digit, so `parseInt` reads that digit alone. */
  lemma {:induction false} ExponentDigitsReadsFirst(sign: string, ds: string)
    requires sign == "" || sign == "-"
    requires |ds| >= 1 && '1' <= ds[0] <= '9'
    ensures ParseInt(sign + ExponentDigits(ds), 10) ==
      Some(if sign == "-" then -DigitValue(ds[0]) else DigitValue(ds[0]))
  {
    var s := sign + ExponentDigits(ds);
    assert s == sign + [ds[0]] + ExponentTail(ds) by {
      assert ExponentDigits(ds) == [ds[0]] + ExponentTail(ds);
    }
    ExponentTailStart(ds);
    ReadsOneDigit(s, sign, ds[0], ExponentTail(ds));
  }

  /**
   * From 10^21 on, `parseInt` reads only the first digit, with the number's
   * sign: a point or the `e` of the exponent follows it.
   */
  lemma {:induction false} ExponentReadsLeadingDigit(n: int)
    requires n <= -ExponentFrom || n >= ExponentFrom
    ensures var m: nat := if n < 0 then -n else n;
      var d := DigitValue(NatToString(m)[0]);
      1 <= d <= 9 && ParseInt(NumberToString(n), 10) == Some(if n < 0 then -d else d)
  {
    var m: nat := if n < 0 then -n else n;
    var ds := NatToString(m);
    assert ds[0] != '0' by {
      Pow10Monotone(1, 21);
      assert Pow10(1) == 10;
    }
    var sign := if n < 0 then "-" else "";
    assert NumberToString(n) == sign + ExponentDigits(ds) by {
      Pow10Monotone(1, 21);
    }
    ExponentDigitsReadsFirst(sign, ds);
  }

  /** The digits of `d·10^k` are `d` followed by `k` zeros. */
  lemma {:induction false} ScaledDigits(d: nat, k: nat)
    requires 1 <= d <= 9
    ensures NatToString(d * Pow10(k)) == [DigitChar(d)] + seq(k, _ => '0')
  {
    if k > 0 {
      var x := d * Pow10(k - 1);
      assert d * Pow10(k) == 10 * x;
      assert (10 * x) / 10 == x && (10 * x) % 10 == 0;
      ScaledDigits(d, k - 1);
      assert seq(k, _ => '0') == seq(k - 1, _ => '0') + ['0'];
    }
  }

  lemma {:induction false} ExponentDigitsOfRound(c: char, k: nat)
    ensures ExponentTail([c] + seq(k, _ => '0')) == "e+" + NatToString(k)
  {
    var ds := [c] + seq(k, _ => '0');
    assert ds[1..] == seq(k, _ => '0');
    TrimZeros(ds[1..]);
  }

  lemma {:induction false} ScaledAtLeast(d: nat, p: nat)
    requires d >= 1
    ensures d * p >= p
  {
  }

  lemma {:induction false} RoundNumberText(m: nat, c: char, k: nat)
    requires m >= ExponentFrom && NatToString(m) == [c] + seq(k, _ => '0')
    ensures NumberToString(m) == [c] + "e+" + NatToString(k)
  {
    assert NumberToString(m) == ExponentDigits(NatToString(m));
    ExponentDigitsOfRound(c, k);
  }

  /** `String(d·10^k)` for `k >= 21` is `d`, `e+` and `k`: `String(3e21)` is `"3e+21"`. */
  lemma {:induction false} ExponentForm(d: nat, k: nat)
    requires 1 <= d <= 9 && k >= 21
    ensures NumberToString(d * Pow10(k)) == [DigitChar(d)] + "e+" + NatToString(k)
  {
    Pow10Monotone(21, k);
    ScaledAtLeast(d, Pow10(k));
    ScaledDigits(d, k);
    RoundNumberText(d * Pow10(k), DigitChar(d), k);
  }

  /** `parseInt` reads a digit followed by `e+` and an exponent, such as `"3e+21"`, as that digit. */
  lemma {:induction false} ExponentFormReads(c: char, e: string)
    requires '1' <= c <= '9'
    ensures ParseInt([c] + "e+" + e, 10) == Some(DigitValue(c))
  {
    var s := [c] + "e+" + e;
    var tail := "e+" + e;
    assert s == "" + [c] + tail;
    assert tail[0] == 'e';
    ReadsOneDigit(s, "", c, tail);
  }

  // ---------------------------------------------------------------- ordering

  /** JavaScript's `<` on strings: lexicographic order of the characters. */
  predicate StrLess(a: string, b: string) {
    if a == [] then b != []
    else if b == [] then false
    else if a[0] != b[0] then a[0] < b[0]
    else StrLess(a[1..], b[1..])
  }

  predicate StrLe(a: string, b: string) {
    a == b || StrLess(a, b)
  }

  lemma {:induction false} StrLessTrichotomy(a: string, b: string)
    ensures StrLess(a, b) || a == b || StrLess(b, a)
    ensures !(StrLess(a, b) && StrLess(b, a))
    ensures !StrLess(a, a)
  {
    if a != [] && b != [] && a[0] == b[0] {
      StrLessTrichotomy(a[1..], b[1..]);
      if a[1..] == b[1..] {
        assert a == [a[0]] + a[1..] && b == [b[0]] + b[1..];
      }
    }
    if a != [] {
      StrLessTrichotomy(a[1..], a[1..]);
    }
  }

  lemma {:induction false} StrLessTransitive(a: string, b: string, c: string)
    requires StrLess(a, b) && StrLess(b, c)
    ensures StrLess(a, c)
  {
    if a != [] && b != [] && c != [] && a[0] == b[0] && b[0] == c[0] {
      StrLessTransitive(a[1..], b[1..], c[1..]);
    }
  }

  lemma {:induction false} StrLeTotalPreorder()
    ensures forall a, b :: StrLe(a, b) || StrLe(b, a)
    ensures forall a, b, c :: StrLe(a, b) && StrLe(b, c) ==> StrLe(a, c)
    ensures forall a, b :: StrLe(a, b) && StrLe(b, a) ==> a == b
  {
    forall a, b ensures StrLe(a, b) || StrLe(b, a) {
      StrLessTrichotomy(a, b);
    }
    forall a, b, c | StrLe(a, b) && StrLe(b, c) ensures StrLe(a, c) {
      if StrLess(a, b) && StrLess(b, c) {
        StrLessTransitive(a, b, c);
      }
    }
    forall a, b | StrLe(a, b) && StrLe(b, a) ensures a == b {
      StrLessTrichotomy(a, b);
    }
  }
}
