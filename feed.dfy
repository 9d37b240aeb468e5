/**
 * The sanitiser the dashboard runs over every record of the market feed
 * before storing it: each record is read as loosely typed JSON, its text
 * fields are coerced with `String`, its two numeric fields with
 * `Number(...) || 0`, and its sparkline with `Array.isArray` and
 * `map(Number)`.
 */
module Feed {
  import opened Wrappers
  import opened Types
  import Strings

  /** A decoded JSON value, plus `undefined` for a property that is absent. */
  datatype Json =
    | Undefined
    | Null
    | Bool(b: bool)
    | Number(n: Num)
    | Str(s: string)
    | Arr(elems: seq<Json>)
    | Obj(fields: map<string, Json>)

  /**
   * The two conversions of the ECMAScript standard the model does not spell
   * out: Number::toString for a finite number (section 6.1.6.1.20 of
   * ECMA-262), and the numeric-literal grammar applied to a trimmed,
   * non-empty string (StringToNumber, section 7.1.4.1.1).
   */
  datatype Coercions = Coercions(numberToString: real -> string, parseNumeral: string -> Num)

  /**
   * `o[key]` on a value that is neither null nor undefined (reading a field
   * of those throws, and the sanitiser checks for them first): an object's
   * own field, `undefined` when it is absent or when `o` is not an object.
   */
  function Get(o: Json, key: string): (r: Json)
    ensures o.Obj? && key in o.fields ==> r == o.fields[key]
    ensures !(o.Obj? && key in o.fields) ==> r == Undefined
  {
    if o.Obj? && key in o.fields then o.fields[key] else Undefined
  }

  /** `o?.[key]`: like `Get`, and `undefined` when `o` is null or undefined. */
  function GetOptional(o: Json, key: string): (r: Json)
    ensures o.Null? || o.Undefined? ==> r == Undefined
    ensures !(o.Null? || o.Undefined?) ==> r == Get(o, key)
  {
    if o.Null? || o.Undefined? then Undefined else Get(o, key)
  }

  /**
   * Coercing `j` to a primitive throws a TypeError. A JSON object that has
   * its own `toString` key hides `Object.prototype.toString` behind a value
   * that is not callable, and its `valueOf` gives back the object itself,
   * so both `String` and `Number` find no primitive (OrdinaryToPrimitive,
   * section 7.1.1.1 of ECMA-262). An array is coerced through `join`,
   * which coerces every element that is not null or undefined.
   */
  predicate Throws(j: Json)
    decreases j
  {
    match j
    case Obj(fields) => "toString" in fields
    case Arr(xs) => exists i :: 0 <= i < |xs| && Throws(xs[i])
    case _ => false
  }

  /** Joining the elements of an array with commas. */
  function JoinWithCommas(parts: seq<string>): string {
    if |parts| == 0 then ""
    else if |parts| == 1 then parts[0]
    else parts[0] + "," + JoinWithCommas(parts[1..])
  }

  /**
   * `String(j)` where it does not throw: arrays join their elements, with
   * null and undefined as empty strings, so an empty array, or one holding
   * only null or undefined, is the empty string, and a one-element array
   * is its element's string.
   */
  function ToString(j: Json, co: Coercions): (r: string)
    requires !Throws(j)
    ensures j.Str? ==> r == j.s
    ensures j.Obj? ==> r == "[object Object]"
    ensures j.Arr? && j.elems == [] ==> r == ""
    ensures j.Arr? && |j.elems| == 1 ==>
      r == if j.elems[0].Null? || j.elems[0].Undefined? then "" else ToString(j.elems[0], co)
    decreases j
  {
    match j
    case Undefined => "undefined"
    case Null => "null"
    case Bool(b) => if b then "true" else "false"
    case Number(n) => (match n case Finite(v) => co.numberToString(v) case NaN => "NaN")
    case Str(s) => s
    case Arr(xs) =>
      JoinWithCommas(seq(|xs|, i requires 0 <= i < |xs| =>
        if xs[i].Null? || xs[i].Undefined? then "" else assert xs[i] in xs; ToString(xs[i], co)))
    case Obj(_) => "[object Object]"
  }

  /** StringToNumber: surrounding whitespace is ignored and a blank string is 0. */
  function StringToNumber(s: string, co: Coercions): (n: Num)
    ensures Strings.AllWhitespace(s) ==> n == Finite(0.0)
  {
    var t := Strings.Trim(s);
    Strings.TrimEmptyIffBlank(s);
    if t == [] then Finite(0.0) else co.parseNumeral(t)
  }

  /**
   * `Number(j)` where it does not throw. An array goes through its string
   * form, so an empty array is 0 and a one-element array of a string is
   * that string's number; an object without its own `toString` and
   * `undefined` are not numerals.
   */
  function ToNumber(j: Json, co: Coercions): (r: Num)
    requires !Throws(j)
    ensures j.Number? ==> r == j.n
    ensures j.Undefined? || j.Obj? ==> r == NaN
    ensures j.Str? && Strings.AllWhitespace(j.s) ==> r == Finite(0.0)
    ensures j.Arr? && j.elems == [] ==> r == Finite(0.0)
    ensures j.Arr? && |j.elems| == 1 && j.elems[0].Str? ==> r == StringToNumber(j.elems[0].s, co)
  {
    match j
    case Undefined => NaN
    case Null => Finite(0.0)
    case Bool(b) => Finite(if b then 1.0 else 0.0)
    case Number(n) => n
    case Str(s) => StringToNumber(s, co)
    case Arr(_) => StringToNumber(ToString(j, co), co)
    case Obj(_) => NaN
  }

  /** `x || 0` on a number: NaN (and zero) become 0. */
  function OrZero(n: Num): (r: real)
    ensures n.Finite? ==> r == n.value
    ensures n.NaN? ==> r == 0.0
  {
    match n
    case Finite(v) => v
    case NaN => 0.0
  }

  /** The sparkline prices of a record: `raw.sparkline_in_7d?.price`. */
  function RawPrices(raw: Json): Json {
    GetOptional(Get(raw, "sparkline_in_7d"), "price")
  }

  /**
   * Coercing one of the fields the sanitiser reads throws: one of the five
   * scalar fields, or an element of an array of sparkline prices.
   */
  predicate FieldThrows(raw: Json) {
    || Throws(Get(raw, "id")) || Throws(Get(raw, "symbol")) || Throws(Get(raw, "name"))
    || Throws(Get(raw, "current_price")) || Throws(Get(raw, "price_change_percentage_24h"))
    || (RawPrices(raw).Arr? && Throws(RawPrices(raw)))
  }

  /**
   * One record of the feed. Reading a field of `null` or `undefined` throws
   * a TypeError, and so does coercing a field whose coercion throws; such a
   * record has no sanitised form.
   */
  function SanitizeRecord(raw: Json, co: Coercions): (r: Option<Crypto>)
    ensures r.None? <==> raw.Null? || raw.Undefined? || FieldThrows(raw)
  {
    if raw.Null? || raw.Undefined? || FieldThrows(raw) then None
    else
      var prices := RawPrices(raw);
      var sparkline := if prices.Arr? then seq(|prices.elems|, i requires 0 <= i < |prices.elems| =>
                                           assert !Throws(prices.elems[i]); ToNumber(prices.elems[i], co))
                       else [];
      Some(Crypto(
        ToString(Get(raw, "id"), co),
        ToString(Get(raw, "symbol"), co),
        ToString(Get(raw, "name"), co),
        OrZero(ToNumber(Get(raw, "current_price"), co)),
        OrZero(ToNumber(Get(raw, "price_change_percentage_24h"), co)),
        sparkline))
  }

  /** A record on which the sanitiser throws. */
  predicate RecordThrows(raw: Json) {
    raw.Null? || raw.Undefined? || FieldThrows(raw)
  }

  /**
   * `data.map(sanitise)`: a response that is not an array, or one holding a
   * record on which the sanitiser throws, aborts the map; the fetch then
   * keeps the old feed.
   */
  function SanitizeFeed(data: Json, co: Coercions): (r: Option<seq<Crypto>>)
    ensures r.None? <==>
      !data.Arr? || exists i :: 0 <= i < |data.elems| && RecordThrows(data.elems[i])
    ensures r.Some? ==> |r.value| == |data.elems|
    ensures r.Some? ==> forall i :: 0 <= i < |r.value| ==> Some(r.value[i]) == SanitizeRecord(data.elems[i], co)
  {
    if !data.Arr? then None
    else if exists i :: 0 <= i < |data.elems| && RecordThrows(data.elems[i]) then None
    else Some(seq(|data.elems|, i requires 0 <= i < |data.elems| => SanitizeRecord(data.elems[i], co).value))
  }

  /**
   * A sanitised numeric field is the number the raw field coerces to, or 0
   * when it coerces to NaN.
   */
  lemma SanitizedNumbers(raw: Json, co: Coercions)
    requires !RecordThrows(raw)
    ensures var c := SanitizeRecord(raw, co).value;
      && (ToNumber(Get(raw, "current_price"), co) == Finite(c.currentPrice) ||
          (ToNumber(Get(raw, "current_price"), co) == NaN && c.currentPrice == 0.0))
      && (ToNumber(Get(raw, "price_change_percentage_24h"), co) == Finite(c.priceChange24h) ||
          (ToNumber(Get(raw, "price_change_percentage_24h"), co) == NaN && c.priceChange24h == 0.0))
  {
  }

  /**
   * A missing, NaN or object-valued price or 24h change becomes 0 rather
   * than dropping the record, as long as nothing in the record throws.
   */
  lemma NonNumericFieldsBecomeZero(raw: Json, co: Coercions)
    requires !RecordThrows(raw)
    ensures var f := Get(raw, "current_price");
      f.Undefined? || f == Number(NaN) || f.Obj? ==> SanitizeRecord(raw, co).value.currentPrice == 0.0
    ensures var f := Get(raw, "price_change_percentage_24h");
      f.Undefined? || f == Number(NaN) || f.Obj? ==> SanitizeRecord(raw, co).value.priceChange24h == 0.0
  {
  }

  /**
   * An object-valued field with its own `toString` key makes the record,
   * and so the whole response, throw: the old feed is kept.
   */
  lemma OwnToStringAborts(data: Json, co: Coercions, i: int, key: string)
    requires data.Arr? && 0 <= i < |data.elems|
    requires key in {"id", "symbol", "name", "current_price", "price_change_percentage_24h"}
    requires Get(data.elems[i], key).Obj? && "toString" in Get(data.elems[i], key).fields
    ensures SanitizeRecord(data.elems[i], co).None?
    ensures SanitizeFeed(data, co).None?
  {
    assert RecordThrows(data.elems[i]);
  }

  /** A finite numeric field is kept as it is. */
  lemma FiniteFieldsKept(raw: Json, co: Coercions, v: real)
    requires !RecordThrows(raw)
    ensures Get(raw, "current_price") == Number(Finite(v)) ==> SanitizeRecord(raw, co).value.currentPrice == v
    ensures Get(raw, "price_change_percentage_24h") == Number(Finite(v)) ==>
      SanitizeRecord(raw, co).value.priceChange24h == v
  {
  }

  /**
   * The sparkline is `[]` unless the raw prices are an array, and then it
   * has one coerced number per raw element, in order.
   */
  lemma SanitizedSparkline(raw: Json, co: Coercions)
    requires !RecordThrows(raw)
    ensures var spark := SanitizeRecord(raw, co).value.sparkline;
      && (!RawPrices(raw).Arr? ==> spark == [])
      && (RawPrices(raw).Arr? ==>
            var xs := RawPrices(raw).elems;
            |spark| == |xs| && forall i :: 0 <= i < |xs| ==> spark[i] == ToNumber(xs[i], co))
  {
  }

  /** A sparkline field that is missing, null or not an object yields an empty sparkline. */
  lemma MissingSparklineIsEmpty(raw: Json, co: Coercions)
    requires !RecordThrows(raw)
    requires !Get(raw, "sparkline_in_7d").Obj?
    ensures SanitizeRecord(raw, co).value.sparkline == []
  {
  }

  /** String fields of the record are copied verbatim. */
  lemma StringFieldsKept(raw: Json, co: Coercions, s: string)
    requires !RecordThrows(raw)
    ensures Get(raw, "id") == Str(s) ==> SanitizeRecord(raw, co).value.id == s
    ensures Get(raw, "symbol") == Str(s) ==> SanitizeRecord(raw, co).value.symbol == s
    ensures Get(raw, "name") == Str(s) ==> SanitizeRecord(raw, co).value.name == s
  {
  }
}
