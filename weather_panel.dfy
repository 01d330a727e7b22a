/**
 * The weather panel's derived values: the odour-spread guidance for the
 * scenario's wind speed and humidity, the slider's day ticks over the
 * three-hourly forecast list, the caption above the slider, and which
 * forecast entry is passed to the parent.
 */
module WeatherPanel {
  import opened Wrappers

  datatype Guidance = WeakWind | StrongWind | HighHumidity | LowHumidity | Moderate

  /** The `guidance` cascade: the first rule that matches wins. */
  function GuidanceFor(windSpeed: real, humidity: real): Guidance {
    if windSpeed <= 1.0 then WeakWind
    else if windSpeed >= 2.0 then StrongWind
    else if humidity >= 70.0 then HighHumidity
    else if humidity <= 30.0 then LowHumidity
    else Moderate
  }

  function Message(g: Guidance): string {
    match g
    case WeakWind => "바람이 약해 악취가 넓게 퍼질 수 있습니다."
    case StrongWind => "바람이 강해 악취가 빠르게 분산됩니다."
    case HighHumidity => "습도가 높아 악취가 오래 머물 수 있습니다."
    case LowHumidity => "습도가 낮아 악취 확산이 제한될 수 있습니다."
    case Moderate => "현재 조건에서 악취 확산은 보통 수준입니다."
  }

  /**
   * Each message is chosen exactly under its own condition: the wind rules
   * decide alone, and humidity counts only for a wind speed strictly
   * between 1.0 and 2.0.
   */
  lemma {:induction false} GuidanceCases(windSpeed: real, humidity: real)
    ensures GuidanceFor(windSpeed, humidity) == WeakWind <==> windSpeed <= 1.0
    ensures GuidanceFor(windSpeed, humidity) == StrongWind <==> windSpeed >= 2.0
    ensures GuidanceFor(windSpeed, humidity) == HighHumidity <==> 1.0 < windSpeed < 2.0 && humidity >= 70.0
    ensures GuidanceFor(windSpeed, humidity) == LowHumidity <==> 1.0 < windSpeed < 2.0 && humidity <= 30.0
    ensures GuidanceFor(windSpeed, humidity) == Moderate <==> 1.0 < windSpeed < 2.0 && 30.0 < humidity < 70.0
    ensures (windSpeed <= 1.0 || windSpeed >= 2.0) ==>
      forall h: real :: GuidanceFor(windSpeed, h) == GuidanceFor(windSpeed, humidity)
  {
  }

  /** The five guidance messages are different texts. */
  lemma {:induction false} MessagesDistinct(g: Guidance, g': Guidance)
    ensures Message(g) == Message(g') <==> g == g'
  {
    if g != g' {
      assert Message(g)[0] != Message(g')[0] || Message(g)[4] != Message(g')[4];
    }
  }

  const TickStep: nat := 8

  /**
   * `Array.from({ length: Math.ceil(n / 8) }, (_, i) => i * 8).slice(0, 5)`:
   * one tick per day of eight three-hour entries, at most five.
   */
  function TickIndices(n: nat): seq<nat> {
    var days := (n + TickStep - 1) / TickStep;
    seq(if days < 5 then days else 5, i => i * TickStep)
  }

  /**
   * The ticks are 0, 8, 16, …: at most five, all inside the list, one per
   * started block of eight up to five, and none for an empty list.
   */
  lemma {:induction false} TickIndicesSpec(n: nat)
    ensures var t := TickIndices(n);
      |t| <= 5 && (t == [] <==> n == 0) &&
      (forall i :: 0 <= i < |t| ==> t[i] == i * TickStep && t[i] < n) &&
      (|t| < 5 ==> |t| * TickStep >= n)
  {
    var t := TickIndices(n);
    var days := (n + TickStep - 1) / TickStep;
    assert days * TickStep >= n && (days - 1) * TickStep < n;
    forall i | 0 <= i < |t| ensures t[i] < n {
      assert i <= days - 1;
    }
  }

  /** What the caption above the slider says. */
  datatype Caption =
    | Live
      /** `${selIndex * 3}시간 후`, with the weekday of forecast entry `labelEntry`; None renders as `undefined`. */
    | Ahead(hours: int, labelEntry: Option<nat>)

  /** The caption for the selected index; the slider is shown only for a non-empty list. */
  function CaptionFor(selIndex: int, n: nat): Option<Caption> {
    if n == 0 then None
    else if selIndex == 0 then Some(Live)
    else
      var ticks := TickIndices(n);
      var k := selIndex / TickStep;
      Some(Ahead(selIndex * 3, if 0 <= k < |ticks| then Some(ticks[k]) else None))
  }

  /**
   * For a selected entry of a list of at most five days, the caption names
   * the day tick whose block of eight holds the entry; past five days there
   * is no tick and the label is `undefined`.
   */
  lemma {:induction false} CaptionLabel(selIndex: int, n: nat)
    requires 0 < selIndex < n
    ensures var c := CaptionFor(selIndex, n);
      c.Some? && c.value.Ahead? && c.value.hours == 3 * selIndex &&
      (n <= 5 * TickStep ==>
         c.value.labelEntry.Some? && c.value.labelEntry.value <= selIndex < c.value.labelEntry.value + TickStep) &&
      (selIndex >= 5 * TickStep ==> c.value.labelEntry.None?)
  {
    var k := selIndex / TickStep;
    TickIndicesSpec(n);
    var ticks := TickIndices(n);
    var days := (n + TickStep - 1) / TickStep;
    assert k * TickStep <= selIndex < k * TickStep + TickStep;
    if n <= 5 * TickStep {
      assert days <= 5;
      assert k < days;
      assert ticks[k] == k * TickStep;
    }
  }

  /** The entry sent to `onForecastSelect`, if any: `selIndex > 0 && forecastList[selIndex]`. */
  function Forwarded<T>(selIndex: int, forecastList: seq<T>): (r: Option<T>)
    ensures r.Some? <==> 0 < selIndex < |forecastList|
    ensures r.Some? ==> r.value == forecastList[selIndex]
  {
    if 0 < selIndex < |forecastList| then Some(forecastList[selIndex]) else None
  }
}
