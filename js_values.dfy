/**
 * The slice of JavaScript semantics that the mapping layer relies on:
 * values, truthiness, loose `== null`, property reads, string coercion
 * (template literals and `+` on strings) and the records handed over by
 * the CRM connection.
 */
module JsValues {

  datatype Option<+T> = None | Some(value: T)

  /** A JavaScript value. Numbers are integers in this model. */
  datatype Value =
    | Undefined
    | Null
    | Bool(b: bool)
    | Num(n: int)
    | Str(s: string)
    | Array(items: seq<Value>)
    | Object(props: map<string, Value>)

  /** The one exception the modelled code can raise: reading a property of `null` or `undefined`. */
  datatype Result<+T> = Ok(value: T) | TypeError

  /** `if (v)` */
  predicate Truthy(v: Value) {
    match v
    case Undefined => false
    case Null => false
    case Bool(b) => b
    case Num(n) => n != 0
    case Str(s) => s != ""
    case Array(_) => true
    case Object(_) => true
  }

  /** `v == null` under loose equality: true exactly for `null` and `undefined`. */
  predicate IsNullish(v: Value) {
    v.Undefined? || v.Null?
  }

  /** `v[key]`: throws on `null` and `undefined`; an absent property reads as `undefined`. */
  function Prop(v: Value, key: string): (r: Result<Value>)
    ensures r.TypeError? <==> IsNullish(v)
    ensures v.Object? && key !in v.props ==> r == Ok(Undefined)
    ensures v.Object? && key in v.props ==> r == Ok(v.props[key])
  {
    match v
    case Undefined => TypeError
    case Null => TypeError
    case Object(props) => Ok(if key in props then props[key] else Undefined)
    case _ => Ok(Undefined)
  }

  /** `v[key]` is readable and falsy. */
  predicate ReadsFalsy(v: Value, key: string) {
    Prop(v, key).Ok? && !Truthy(Prop(v, key).value)
  }

  /**
   * A record as delivered by the CRM connection: its own enumerable
   * property names, in the order a for-in loop visits them, and their values.
   */
  datatype Record = Record(keys: seq<string>, values: map<string, Value>) {
    /** `record[key]`: a property the record does not have reads as `undefined`. */
    function Get(key: string): Value {
      if key in values then values[key] else Undefined
    }

    /** No property name is enumerated twice, as for every JavaScript object. */
    predicate DistinctKeys() {
      forall i, j :: 0 <= i < j < |keys| ==> keys[i] != keys[j]
    }
  }

  // ---------------------------------------------------------------------
  // String coercion
  // ---------------------------------------------------------------------

  predicate IsDigit(c: char) {
    '0' <= c <= '9'
  }

  predicate AllDigits(s: string) {
    forall i :: 0 <= i < |s| ==> IsDigit(s[i])
  }

  function DigitChar(d: nat): (c: char)
    requires d < 10
    ensures IsDigit(c)
  {
    ('0' as int + d) as char
  }

  /** The decimal numeral of `n`, as `String(n)` writes a non-negative integer. */
  function DecimalString(n: nat): (s: string)
    ensures |s| >= 1 && AllDigits(s)
    ensures |s| > 1 ==> s[0] != '0'
    decreases n
  {
    if n < 10 then [DigitChar(n)] else DecimalString(n / 10) + [DigitChar(n % 10)]
  }

  /** The number a string of decimal digits denotes: the partner of DecimalString. */
  function DigitsValue(s: string): nat
    requires AllDigits(s)
  {
    if s == [] then 0 else DigitsValue(s[..|s| - 1]) * 10 + (s[|s| - 1] as int - '0' as int)
  }

  lemma {:induction false} DecimalStringRoundTrip(n: nat)
    ensures DigitsValue(DecimalString(n)) == n
    decreases n
  {
    if n >= 10 {
      DecimalStringRoundTrip(n / 10);
      var s := DecimalString(n);
      assert s[..|s| - 1] == DecimalString(n / 10);
    }
  }

  /** Distinct numbers have distinct numerals. */
  lemma DecimalStringInjective(m: nat, n: nat)
    requires DecimalString(m) == DecimalString(n)
    ensures m == n
  {
    DecimalStringRoundTrip(m);
    DecimalStringRoundTrip(n);
  }

  function Join(parts: seq<string>, separator: string): string {
    if |parts| == 0 then ""
    else if |parts| == 1 then parts[0]
    else Join(parts[..|parts| - 1], separator) + separator + parts[|parts| - 1]
  }

  /** `String(v)`, which template literals and `+` on a string apply to `v`. */
  function ToJsString(v: Value): string {
    match v
    case Undefined => "undefined"
    case Null => "null"
    case Bool(b) => if b then "true" else "false"
    case Num(n) => if n < 0 then "-" + DecimalString(-n) else DecimalString(n)
    case Str(s) => s
    case Array(items) =>
      Join(seq(|items|, i requires 0 <= i < |items| =>
             if IsNullish(items[i]) then "" else ToJsString(items[i])), ",")
    case Object(_) => "[object Object]"
  }
}
