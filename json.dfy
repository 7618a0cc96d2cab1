/**
 * A JSON value as `json.loads` returns it, and the two Python operations the proxy applies
 * to one: `dict.get` with a default, and `int(value or 0)`.
 */
module Json {
  import opened Wrappers
  import Decimal

  /**
   * A parsed JSON value. A number with a fraction or an exponent is a Python float; it is
   * represented only by what `int()` makes of it: the truncation toward zero, or None for an
   * infinity or NaN, on which `int()` raises.
   */
  datatype Json =
    | JNull
    | JBool(b: bool)
    | JInt(i: int)
    | JFloat(whole: Option<int>)
    | JString(s: string)
    | JArray(items: seq<Json>)
    | JObject(fields: map<string, Json>)

  /** One line read from standard input: not JSON at all, or a JSON value of any kind. */
  datatype Line = NotJson | Parsed(value: Json)

  /** `dict.get(key, default)`. */
  function Get(fields: map<string, Json>, key: string, default: Json): (v: Json)
  {
    if key in fields then fields[key] else default
  }

  /** What `int()` gives: a value, or an exception. */
  datatype IntResult = Value(n: int) | Raises

  /**
   * Python's `int(v or 0)`. A falsy value (null, false, 0, "", [], {}) becomes 0; `True` is 1;
   * a string is parsed as a base-10 literal; a non-empty list or object raises `TypeError`.
   * A float 0.0 is falsy, and becomes 0, as its truncation would.
   */
  function IntOrZero(v: Json): (r: IntResult)
    ensures r.Raises? <==>
      || (v.JFloat? && v.whole.None?)
      || (v.JString? && v.s != "" && Decimal.ParseInt(v.s).None?)
      || (v.JArray? && v.items != [])
      || (v.JObject? && v.fields != map[])
    ensures v.JNull? || v == JBool(false) || v == JString("") || v == JArray([]) || v == JObject(map[])
            ==> r == Value(0)
    ensures v.JInt? ==> r == Value(v.i)
    ensures v == JBool(true) ==> r == Value(1)
    ensures v.JFloat? && v.whole.Some? ==> r == Value(v.whole.value)
    ensures v.JString? && v.s != "" && Decimal.ParseInt(v.s).Some? ==> r == Value(Decimal.ParseInt(v.s).value)
  {
    match v
    case JNull => Value(0)
    case JBool(b) => Value(if b then 1 else 0)
    case JInt(i) => Value(i)
    case JFloat(whole) => if whole.Some? then Value(whole.value) else Raises
    case JString(s) =>
      if s == "" then Value(0)
      else
        var n := Decimal.ParseInt(s);
        if n.Some? then Value(n.value) else Raises
    case JArray(items) => if items == [] then Value(0) else Raises
    case JObject(fields) => if fields == map[] then Value(0) else Raises
  }

  /** A dimension given as a base-10 string longer than the digit limit makes `int()` raise. */
  lemma LongLiteralRaises(d: string)
    requires |d| > Decimal.MAX_STR_DIGITS && forall k | 0 <= k < |d| :: Decimal.IsDigit(d[k])
    ensures IntOrZero(JString(d)) == Raises
  {
    Decimal.TooManyDigitsRaises(d);
  }
}
