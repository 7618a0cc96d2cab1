/**
 * Base-10 text of integers: the rendering `json.dumps` gives an int, and the part of
 * Python's `int(str)` that accepts a base-10 literal.
 */
module Decimal {
  import opened Wrappers

  predicate IsDigit(c: char)
  {
    '0' <= c <= '9'
  }

  /** The whitespace `int()` strips around a literal, restricted to ASCII. */
  predicate IsSpace(c: char)
  {
    c == ' ' || c == '\t' || c == '\n' || c == '\r' || c as int == 11 || c as int == 12
  }

  function DigitChar(d: int): (c: char)
    requires 0 <= d < 10
    ensures IsDigit(c) && c as int - '0' as int == d
  {
    ('0' as int + d) as char
  }

  /** The digits of a natural number, most significant first, without leading zeros. */
  function ShowNat(n: nat): (s: string)
    ensures |s| > 0 && (forall k | 0 <= k < |s| :: IsDigit(s[k]))
    ensures s[0] == '0' ==> n == 0
    decreases n
  {
    if n < 10 then [DigitChar(n)] else ShowNat(n / 10) + [DigitChar(n % 10)]
  }

  /** An integer as Python prints it: a `-` before the digits of a negative number. */
  function ShowInt(n: int): (s: string)
    ensures |s| > 0 && (forall k | 0 <= k < |s| :: IsDigit(s[k]) || s[k] == '-')
    ensures (s[0] == '-') == (n < 0)
  {
    if n < 0 then "-" + ShowNat(-n) else ShowNat(n)
  }

  /**
   * Digits in which an underscore may stand only between two digits, as in `1_000`.
   */
  predicate IsDigitRun(d: string)
  {
    && |d| > 0
    && forall k | 0 <= k < |d| ::
         IsDigit(d[k]) || (d[k] == '_' && 0 < k < |d| - 1 && IsDigit(d[k - 1]) && IsDigit(d[k + 1]))
  }

  /** The number a run of digits denotes, underscores skipped. */
  function DigitsValue(d: string): nat
    decreases |d|
  {
    if d == [] then 0
    else
      var last := d[|d| - 1];
      var v := DigitsValue(d[..|d| - 1]);
      if IsDigit(last) then v * 10 + (last as int - '0' as int) else v
  }

  /** How many digits a run holds, underscores not counted. */
  function DigitCount(d: string): (n: nat)
    ensures n <= |d|
    decreases |d|
  {
    if d == [] then 0 else DigitCount(d[..|d| - 1]) + (if IsDigit(d[|d| - 1]) then 1 else 0)
  }

  /**
   * The default limit of CPython 3.11 and later on the digits `int()` converts from base-10
   * text (`sys.int_info.default_max_str_digits`); past it `int()` raises `ValueError`.
   */
  const MAX_STR_DIGITS := 4300

  function TrimStart(s: string): (t: string)
    ensures |t| <= |s| && t == s[|s| - |t|..]
    ensures t != [] ==> !IsSpace(t[0])
    decreases |s|
  {
    if s != [] && IsSpace(s[0]) then TrimStart(s[1..]) else s
  }

  function TrimEnd(s: string): (t: string)
    ensures |t| <= |s| && t == s[..|t|]
    ensures t != [] ==> !IsSpace(t[|t| - 1])
    decreases |s|
  {
    if s != [] && IsSpace(s[|s| - 1]) then TrimEnd(s[..|s| - 1]) else s
  }

  /**
   * Python's `int(s)` for a string: surrounding whitespace, then an optional sign, then a
   * run of at most `MAX_STR_DIGITS` digits. None where Python raises `ValueError`.
   */
  function ParseInt(s: string): (r: Option<int>)
    ensures (forall k | 0 <= k < |s| :: !IsDigit(s[k])) ==> r.None?
  {
    var t := TrimEnd(TrimStart(s));
    assert forall k | 0 <= k < |t| :: t[k] in s;
    ParseLiteral(t)
  }

  /** A literal without surrounding whitespace: an optional sign, then a run of digits within the limit. */
  function ParseLiteral(t: string): (r: Option<int>)
    ensures (forall k | 0 <= k < |t| :: !IsDigit(t[k])) ==> r.None?
  {
    if t == [] then None
    else
      var sign, digits := if t[0] == '-' then -1 else 1, if t[0] == '-' || t[0] == '+' then t[1..] else t;
      assert forall k | 0 <= k < |digits| :: digits[k] in t;
      if IsDigitRun(digits) && DigitCount(digits) <= MAX_STR_DIGITS then Some(sign * DigitsValue(digits)) else None
  }

  /** The digits of n denote n. */
  lemma {:induction false} ShowNatValue(n: nat)
    ensures IsDigitRun(ShowNat(n)) && DigitsValue(ShowNat(n)) == n
    ensures DigitCount(ShowNat(n)) == |ShowNat(n)|
    decreases n
  {
    var s := ShowNat(n);
    if n >= 10 {
      ShowNatValue(n / 10);
      assert s[..|s| - 1] == ShowNat(n / 10);
    }
  }

  /** A string of only digits counts every character as a digit. */
  lemma {:induction false} AllDigitsCount(d: string)
    requires forall k | 0 <= k < |d| :: IsDigit(d[k])
    ensures DigitCount(d) == |d|
    decreases |d|
  {
    if d != [] {
      AllDigitsCount(d[..|d| - 1]);
    }
  }

  /** A base-10 literal of more digits than the limit does not convert: `int()` raises. */
  lemma TooManyDigitsRaises(d: string)
    requires |d| > MAX_STR_DIGITS && forall k | 0 <= k < |d| :: IsDigit(d[k])
    ensures ParseInt(d).None?
  {
    AllDigitsCount(d);
    NoSpaceIsTrimmed(d);
    assert IsDigit(d[0]);
  }

  /** Parsing what `ShowInt` prints gives back the number, when it has no more digits than the limit. */
  lemma ParseShowInt(n: int)
    requires |ShowNat(if n < 0 then -n else n)| <= MAX_STR_DIGITS
    ensures ParseInt(ShowInt(n)) == Some(n)
  {
    var s := ShowInt(n);
    NoSpaceIsTrimmed(s);
    var lit := ParseLiteral(s);
    if n < 0 {
      var m: nat := -n;
      NegativeLiteral(m);
    } else {
      NaturalLiteral(n);
    }
    assert lit == Some(n);
  }

  lemma NaturalLiteral(m: nat)
    requires |ShowNat(m)| <= MAX_STR_DIGITS
    ensures ParseLiteral(ShowNat(m)) == Some(m)
  {
    ShowNatValue(m);
    var s := ShowNat(m);
    assert IsDigit(s[0]);
  }

  lemma NegativeLiteral(m: nat)
    requires |ShowNat(m)| <= MAX_STR_DIGITS
    ensures ParseLiteral("-" + ShowNat(m)) == Some(-(m as int))
  {
    ShowNatValue(m);
    var s := "-" + ShowNat(m);
    assert s[0] == '-' && s[1..] == ShowNat(m);
  }

  /** Text with no whitespace at either end is parsed as it stands. */
  lemma NoSpaceIsTrimmed(s: string)
    requires |s| > 0 && !IsSpace(s[0]) && !IsSpace(s[|s| - 1])
    ensures ParseInt(s) == ParseLiteral(s)
  {
  }
}
