/**
 * The odour overlay component outside its canvas drawing: the colour
 * parser that turns a hex string into red, green and blue, the prop
 * defaults, and the comparator `React.memo` uses to skip re-rendering.
 */
module OdorOverlay {
  import opened Wrappers
  import JsText

  datatype Rgb = Rgb(r: int, g: int, b: int)

  /** `hex.replace(/^#/, '')`: at most one leading `#` is removed. */
  function StripHash(hex: string): (r: string)
    ensures hex != [] && hex[0] == '#' ==> r == hex[1..]
    ensures !(hex != [] && hex[0] == '#') ==> r == hex
  {
    if hex != [] && hex[0] == '#' then hex[1..] else hex
  }

  /** ECMAScript ToInt32: the value modulo 2^32, read as a signed 32-bit integer. */
  function ToInt32(n: int): (r: int)
    ensures -0x8000_0000 <= r < 0x8000_0000
    ensures (r - n) % 0x1_0000_0000 == 0
  {
    var m := n % 0x1_0000_0000;
    if m >= 0x8000_0000 then m - 0x1_0000_0000 else m
  }

  /**
   * `hexToRgb`: `parseInt(clean, 16)`, then `(n >> 16) & 255`,
   * `(n >> 8) & 255` and `n & 255`. The shifts act on ToInt32 of the value,
   * and a NaN (nothing parsed) becomes 0. `>>` on a 32-bit value is floor
   * division by a power of two and `& 255` is the remainder modulo 256.
   */
  function HexToRgb(hex: string): (c: Rgb)
    ensures 0 <= c.r < 256 && 0 <= c.g < 256 && 0 <= c.b < 256
  {
    var n := JsText.ParseInt(StripHash(hex), 16);
    Channels(if n.None? then 0 else ToInt32(n.value))
  }

  /** The three shifted and masked bytes of a 32-bit value. */
  function Channels(x: int): (c: Rgb)
    ensures 0 <= c.r < 256 && 0 <= c.g < 256 && 0 <= c.b < 256
  {
    Rgb((x / 0x1_0000) % 256, (x / 0x100) % 256, x % 256)
  }

  predicate HexDigits(s: string) {
    forall i :: 0 <= i < |s| ==> JsText.IsDigit(s[i], 16)
  }

  function Pow16(k: nat): nat {
    if k == 0 then 1 else 16 * Pow16(k - 1)
  }

  lemma {:induction false} DigitsBelow(ds: string)
    requires HexDigits(ds)
    ensures JsText.DigitsValue(ds, 16) < Pow16(|ds|)
  {
    if ds != [] {
      var init := ds[..|ds| - 1];
      assert HexDigits(init);
      DigitsBelow(init);
      var v := JsText.DigitsValue(init, 16);
      var d := JsText.DigitValue(ds[|ds| - 1]);
      assert v <= Pow16(|init|) - 1 && d <= 15;
      assert v * 16 + d <= (Pow16(|init|) - 1) * 16 + 15;
    }
  }

  /** For a string of hex digits, `parseInt(s, 16)` is its positional value. */
  lemma {:induction false} ParseHexDigits(s: string)
    requires s != [] && HexDigits(s)
    ensures JsText.ParseInt(s, 16) == Some(JsText.DigitsValue(s, 16))
  {
    assert JsText.IsDigit(s[0], 16);
    assert !JsText.IsJsWhitespace(s[0]);
    assert JsText.TrimStart(s) == s;
    assert JsText.AfterSign(s) == s;
    if |s| >= 2 {
      assert JsText.IsDigit(s[1], 16);
      assert s[1] != 'x' && s[1] != 'X';
    }
    assert !JsText.HasHexPrefix(s, 16);
    JsText.LeadingDigitsAll(s, 16);
  }

  lemma {:induction false} Decompose(n: int)
    requires 0 <= n < 0x100_0000
    ensures n / 0x1_0000 < 256
    ensures (n / 0x1_0000) * 0x1_0000 + ((n / 0x100) % 256) * 0x100 + n % 256 == n
  {
    var q := n / 0x100;
    assert n == q * 0x100 + n % 256;
    assert q == (q / 256) * 256 + q % 256;
    assert q / 256 == n / 0x1_0000;
  }

  lemma {:induction false} RgbOfValue(hex: string, n: int)
    requires JsText.ParseInt(StripHash(hex), 16) == Some(n) && 0 <= n < 0x100_0000
    ensures var c := HexToRgb(hex);
      c.r * 0x1_0000 + c.g * 0x100 + c.b == n
  {
    ToInt32Small(n);
    assert HexToRgb(hex) == Channels(n);
    ChannelsOfValue(n);
  }

  lemma {:induction false} ToInt32Small(n: int)
    requires 0 <= n < 0x8000_0000
    ensures ToInt32(n) == n
  {
  }

  lemma {:induction false} ChannelsOfValue(n: int)
    requires 0 <= n < 0x100_0000
    ensures var c := Channels(n);
      c.r * 0x1_0000 + c.g * 0x100 + c.b == n
  {
    Decompose(n);
  }

  lemma {:induction false} SixDigitValue(s: string)
    requires |s| == 6 && HexDigits(s)
    ensures StripHash("#" + s) == s && StripHash(s) == s
    ensures JsText.ParseInt(s, 16) == Some(JsText.DigitsValue(s, 16))
    ensures JsText.DigitsValue(s, 16) < 0x100_0000
  {
    HashStripped(s);
    ParseHexDigits(s);
    SixDigitsBelow(s);
  }

  lemma {:induction false} HashStripped(s: string)
    requires s != [] && HexDigits(s)
    ensures StripHash("#" + s) == s && StripHash(s) == s
  {
    assert ("#" + s)[1..] == s;
    assert JsText.IsDigit(s[0], 16);
  }

  lemma {:induction false} SixDigitsBelow(s: string)
    requires |s| == 6 && HexDigits(s)
    ensures JsText.DigitsValue(s, 16) < 0x100_0000
  {
    DigitsBelow(s);
    assert Pow16(6) == 0x100_0000;
  }

  /**
   * For six hex digits, with or without one leading `#`, the three
   * components are bytes that put back together give the parsed value.
   */
  lemma {:induction false} SixDigitColour(s: string)
    requires |s| == 6 && HexDigits(s)
    ensures HexToRgb("#" + s) == HexToRgb(s)
    ensures var c := HexToRgb(s);
      c.r * 0x1_0000 + c.g * 0x100 + c.b == JsText.DigitsValue(s, 16)
  {
    SixDigitValue(s);
    RgbOfValue(s, JsText.DigitsValue(s, 16));
  }

  /** Text that parses to nothing (NaN) gives black. */
  lemma {:induction false} NotHexIsBlack(hex: string)
    requires JsText.ParseInt(StripHash(hex), 16).None?
    ensures HexToRgb(hex) == Rgb(0, 0, 0)
  {
  }

  datatype LatLng = LatLng(lat: real, lng: real)

  /** The props as passed; an optional prop left out is None. `center` is an object identified by `centerObject`. */
  datatype Props = Props(
    mapObject: int, centerObject: int, center: LatLng, radius: real, startAngle: real, endAngle: real,
    color: string, showCircle: Option<bool>, showSector: Option<bool>,
    circleScale: Option<real>, sectorScale: Option<real>, circleAlpha: Option<real>, sectorAlpha: Option<real>)

  /** The values the drawing uses, after the defaults are applied. */
  datatype Drawing = Drawing(
    mapObject: int, lat: real, lng: real, radius: real, startAngle: real, endAngle: real, color: string,
    showCircle: bool, showSector: bool, circleScale: real, sectorScale: real, circleAlpha: real, sectorAlpha: real)

  /** The destructuring defaults, listed as the effect's dependencies. */
  function DrawingOf(p: Props): Drawing {
    Drawing(p.mapObject, p.center.lat, p.center.lng, p.radius, p.startAngle, p.endAngle, p.color,
            p.showCircle.GetOr(true), p.showSector.GetOr(true),
            p.circleScale.GetOr(0.6), p.sectorScale.GetOr(0.8),
            p.circleAlpha.GetOr(0.35), p.sectorAlpha.GetOr(0.4))
  }

  /** Leaving every optional prop out shows both shapes at scales 0.6 and 0.8 and alphas 0.35 and 0.4. */
  lemma {:induction false} Defaults(p: Props)
    requires p.showCircle.None? && p.showSector.None? && p.circleScale.None? &&
             p.sectorScale.None? && p.circleAlpha.None? && p.sectorAlpha.None?
    ensures var d := DrawingOf(p);
      d.showCircle && d.showSector && d.circleScale == 0.6 && d.sectorScale == 0.8 &&
      d.circleAlpha == 0.35 && d.sectorAlpha == 0.4
  {
  }

  /** The `React.memo` comparator: every listed prop equal, and the centre compared by coordinates. */
  predicate SameProps(p: Props, n: Props) {
    p.mapObject == n.mapObject && p.color == n.color && p.radius == n.radius &&
    p.startAngle == n.startAngle && p.endAngle == n.endAngle &&
    p.showCircle == n.showCircle && p.showSector == n.showSector &&
    p.circleScale == n.circleScale && p.sectorScale == n.sectorScale &&
    p.circleAlpha == n.circleAlpha && p.sectorAlpha == n.sectorAlpha &&
    p.center.lat == n.center.lat && p.center.lng == n.center.lng
  }

  /**
   * The comparator holds exactly for props that are equal apart from the
   * identity of the centre object, so a new centre object with the same
   * coordinates does not re-render; and whenever it skips a render, the
   * drawing would not have changed.
   */
  lemma {:induction false} SamePropsByValue(p: Props, n: Props)
    ensures SameProps(p, n) <==> p == n.(centerObject := p.centerObject)
    ensures SameProps(p, n) ==> DrawingOf(p) == DrawingOf(n)
  {
  }

  /**
   * The comparator looks at the props before the defaults: an explicit
   * default value and a left-out prop differ for it, though they draw the same.
   */
  lemma {:induction false} ExplicitDefaultRerenders(p: Props)
    requires p.showCircle.None?
    ensures !SameProps(p, p.(showCircle := Some(true)))
    ensures DrawingOf(p) == DrawingOf(p.(showCircle := Some(true)))
  {
  }
}
