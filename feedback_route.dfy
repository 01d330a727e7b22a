/**
 * `POST /api/feedback`: the checks on a submitted odour complaint before it
 * is stored. Missing fields are checked first, then the intensity, which is
 * read with `parseInt(intensity, 10)` and must lie between 1 and 5. The
 * database insert is left out; the model returns the record it would store.
 */
module FeedbackRoute {
  import opened Wrappers
  import JsText

  /** A JSON value of the request body, or a field that is not there. Numbers are integers here. */
  datatype Json =
    | Missing
    | Null
    | Bool(b: bool)
    | Num(n: int)
    | Str(s: string)
    | Arr(items: seq<Json>)
    | Obj

  /** JavaScript truthiness. */
  predicate Truthy(v: Json) {
    match v
    case Missing => false
    case Null => false
    case Bool(b) => b
    case Num(n) => n != 0
    case Str(s) => s != ""
    case Arr(_) => true
    case Obj => true
  }

  /** `String(v)`, the text `parseInt` reads. */
  function Text(v: Json): string
    decreases v
  {
    match v
    case Missing => "undefined"
    case Null => "null"
    case Bool(b) => if b then "true" else "false"
    case Num(n) => JsText.NumberToString(n)
    case Str(s) => s
    case Arr(items) => JsText.Join(ItemTexts(items), ",")
    case Obj => "[object Object]"
  }

  /** Array elements as `join` writes them: null and undefined become empty. */
  function ItemTexts(items: seq<Json>): (r: seq<string>)
    decreases items
    ensures |r| == |items|
    ensures forall i :: 0 <= i < |items| ==> (items[i].Missing? || items[i].Null? ==> r[i] == "")
    ensures forall i :: 0 <= i < |items| ==> (!items[i].Missing? && !items[i].Null? ==> r[i] == Text(items[i]))
  {
    if items == [] then []
    else [if items[0].Missing? || items[0].Null? then "" else Text(items[0])] + ItemTexts(items[1..])
  }

  /** `categories.length`: defined for strings and arrays. */
  function Length(v: Json): Option<int> {
    match v
    case Str(s) => Some(|s|)
    case Arr(items) => Some(|items|)
    case _ => None
  }

  datatype Body = Body(contact: Json, coordinates: Json, address: Json, intensity: Json,
                       content: Json, categories: Json)

  /** What the database is asked to store. */
  datatype Stored = Stored(contact: Json, coordinates: Json, address: Json, intensity: int,
                           content: Json, categories: seq<Json>)

  datatype Outcome =
    | MissingFields       // 400, required fields missing
    | BadIntensity        // 400, intensity outside 1–5
    | ServerError         // 500, `categories.map` is not a function
    | Create(record: Stored)

  /** `!coordinates || !address || !intensity || !content || !categories || categories.length === 0`. */
  predicate MissingField(b: Body) {
    !Truthy(b.coordinates) || !Truthy(b.address) || !Truthy(b.intensity) ||
    !Truthy(b.content) || !Truthy(b.categories) || Length(b.categories) == Some(0)
  }

  function Post(b: Body): Outcome {
    Validate(b, JsText.ParseInt(Text(b.intensity), 10))
  }

  /** The checks of `Post`, given `intensityNumber`, the parsed intensity (None for NaN). */
  function Validate(b: Body, n: Option<int>): Outcome {
    if MissingField(b) then MissingFields
    else if n.None? || n.value < 1 || n.value > 5 then BadIntensity
    else if !b.categories.Arr? then ServerError
    else Create(Stored(if Truthy(b.contact) then b.contact else Null, b.coordinates, b.address,
                       n.value, b.content, b.categories.items))
  }

  /**
   * A body is refused for missing fields exactly when one of the five
   * required fields is falsy or the categories are empty; otherwise it is
   * refused exactly when the intensity does not parse to 1–5; an accepted
   * body stores the parsed intensity and a null contact when none was given.
   */
  lemma {:induction false} PostSpec(b: Body)
    ensures Post(b) == MissingFields <==> MissingField(b)
    ensures Post(b) == BadIntensity <==>
      !MissingField(b) && !(JsText.ParseInt(Text(b.intensity), 10).Some? &&
                            1 <= JsText.ParseInt(Text(b.intensity), 10).value <= 5)
    ensures Post(b).Create? ==>
      var r := Post(b).record;
      Some(r.intensity) == JsText.ParseInt(Text(b.intensity), 10) && 1 <= r.intensity <= 5 &&
      (r.contact == if Truthy(b.contact) then b.contact else Null) &&
      b.categories == Arr(r.categories) && r.categories != [] &&
      r.coordinates == b.coordinates && r.address == b.address && r.content == b.content
  {
    PostBadIntensity(b);
    PostCreate(b);
  }

  lemma {:induction false} PostBadIntensity(b: Body)
    ensures Post(b) == BadIntensity <==>
      !MissingField(b) && !(JsText.ParseInt(Text(b.intensity), 10).Some? &&
                            1 <= JsText.ParseInt(Text(b.intensity), 10).value <= 5)
  {
    ValidateBadIntensity(b, JsText.ParseInt(Text(b.intensity), 10));
  }

  lemma {:induction false} ValidateBadIntensity(b: Body, n: Option<int>)
    ensures Validate(b, n) == BadIntensity <==> !MissingField(b) && !(n.Some? && 1 <= n.value <= 5)
  {
  }

  lemma {:induction false} PostCreate(b: Body)
    ensures Post(b).Create? ==>
      var r := Post(b).record;
      Some(r.intensity) == JsText.ParseInt(Text(b.intensity), 10) && 1 <= r.intensity <= 5 &&
      (r.contact == if Truthy(b.contact) then b.contact else Null) &&
      b.categories == Arr(r.categories) && r.categories != [] &&
      r.coordinates == b.coordinates && r.address == b.address && r.content == b.content
  {
    ValidateCreate(b, JsText.ParseInt(Text(b.intensity), 10));
  }

  lemma {:induction false} ValidateCreate(b: Body, n: Option<int>)
    ensures Validate(b, n).Create? ==>
      var r := Validate(b, n).record;
      Some(r.intensity) == n && 1 <= r.intensity <= 5 &&
      (r.contact == if Truthy(b.contact) then b.contact else Null) &&
      b.categories == Arr(r.categories) && r.categories != [] &&
      r.coordinates == b.coordinates && r.address == b.address && r.content == b.content
  {
  }

  /** A body that passes the field checks and has an intensity of 1–5 is stored when its categories are an array. */
  lemma {:induction false} AcceptedWhenValid(b: Body, n: int)
    requires !MissingField(b) && b.categories.Arr?
    requires JsText.ParseInt(Text(b.intensity), 10) == Some(n) && 1 <= n <= 5
    ensures Post(b).Create? && Post(b).record.intensity == n
  {
  }

  /**
   * The missing-field check comes first: the number 0 is falsy and reported
   * missing, while the string "0" is present and reported out of range.
   */
  lemma {:induction false} ZeroIntensity(b: Body)
    requires Truthy(b.coordinates) && Truthy(b.address) && Truthy(b.content) &&
             Truthy(b.categories) && Length(b.categories) != Some(0)
    ensures Post(b.(intensity := Num(0))) == MissingFields
    ensures Post(b.(intensity := Str("0"))) == BadIntensity
  {
    ZeroNumberMissing(b);
    ZeroTextOutOfRange(b);
  }

  lemma {:induction false} ZeroNumberMissing(b: Body)
    ensures Post(b.(intensity := Num(0))) == MissingFields
  {
    assert MissingField(b.(intensity := Num(0)));
  }

  lemma {:induction false} ZeroTextOutOfRange(b: Body)
    requires Truthy(b.coordinates) && Truthy(b.address) && Truthy(b.content) &&
             Truthy(b.categories) && Length(b.categories) != Some(0)
    ensures Post(b.(intensity := Str("0"))) == BadIntensity
  {
    var s := "0";
    JsText.ParseZero();
    ValidateBadIntensity(b.(intensity := Str(s)), Some(0));
  }

  /** `parseInt` reads a numeric prefix: an intensity text such as "4xyz" counts as its leading number. */
  lemma {:induction false} IntensityPrefix(b: Body, n: nat, tail: string)
    requires !MissingField(b.(intensity := Str(JsText.NatToString(n) + tail))) && b.categories.Arr?
    requires 1 <= n <= 5 && (tail == [] || !JsText.IsDigit(tail[0], 10))
    ensures var p := Post(b.(intensity := Str(JsText.NatToString(n) + tail)));
      p.Create? && p.record.intensity == n
  {
    JsText.ParseIntPrefix(n, tail, 10);
  }

  /** A whole number 1–5 sent as a JSON number is accepted as that intensity. */
  lemma {:induction false} NumericIntensity(b: Body, n: int)
    requires !MissingField(b.(intensity := Num(n))) && b.categories.Arr? && 1 <= n <= 5
    ensures var p := Post(b.(intensity := Num(n)));
      p.Create? && p.record.intensity == n
  {
    JsText.NumberToStringRoundTrip(n);
  }

  /**
   * A JSON number from 10^21 on is written in exponent form before
   * `parseInt` reads it, so `d·10^k` with `k >= 21` (such as `3e21`) is
   * stored with intensity `d`.
   */
  lemma {:induction false} ExponentIntensity(b: Body, d: nat, k: nat)
    requires !MissingField(b.(intensity := Num(d * JsText.Pow10(k)))) && b.categories.Arr?
    requires 1 <= d <= 5 && k >= 21
    ensures var p := Post(b.(intensity := Num(d * JsText.Pow10(k))));
      p.Create? && p.record.intensity == d
  {
    JsText.ExponentForm(d, k);
    JsText.ExponentFormReads(JsText.DigitChar(d), JsText.NatToString(k));
  }
}
