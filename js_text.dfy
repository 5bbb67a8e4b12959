/**
 * The pieces of JavaScript text handling that the table view relies on:
 * decimal digit runs, the decimal text of an integer (what a template
 * literal `${n}` produces) and `parseInt(s, 10)`.
 */
module JsText {
  import opened Wrappers

  predicate IsDigit(c: char) {
    '0' <= c <= '9'
  }

  predicate AllDigits(s: string) {
    forall i :: 0 <= i < |s| ==> IsDigit(s[i])
  }

  /** Length of the longest prefix of `s` made only of decimal digits. */
  function DigitRun(s: string): (n: nat)
    ensures n <= |s|
    ensures AllDigits(s[..n])
    ensures n < |s| ==> !IsDigit(s[n])
  {
    if s != [] && IsDigit(s[0]) then 1 + DigitRun(s[1..]) else 0
  }

  /** The number a string of decimal digits denotes, most significant digit first. */
  function DigitsValue(s: string): nat
    requires AllDigits(s)
  {
    if s == [] then 0
    else 10 * DigitsValue(s[..|s| - 1]) + (s[|s| - 1] as int - '0' as int)
  }

  function DigitChar(d: nat): (c: char)
    requires d < 10
    ensures IsDigit(c) && c as int - '0' as int == d
  {
    ('0' as int + d) as char
  }

  /** Decimal text of a natural number, without leading zeros. */
  function NatText(n: nat): (s: string)
    ensures |s| > 0 && AllDigits(s)
    decreases n
  {
    if n < 10 then [DigitChar(n)] else NatText(n / 10) + [DigitChar(n % 10)]
  }

  /** What `${n}` yields for an integer `n`. */
  function IntText(n: int): string {
    if n < 0 then "-" + NatText(-n) else NatText(n)
  }

  /**
   * The characters `parseInt` skips before the number: the white space and
   * line terminators of section 7.2 and 7.3 of ECMA-262 (TAB, VT, FF, SP,
   * NBSP, ZWNBSP, every Zs space separator, LF, CR, LS, PS).
   */
  predicate IsJsWhitespace(c: char) {
    || c == '\t' || c == '\n' || c == '\U{000B}' || c == '\U{000C}' || c == '\r'
    || c == ' ' || c == '\U{00A0}' || c == '\U{1680}'
    || ('\U{2000}' <= c <= '\U{200A}')
    || c == '\U{2028}' || c == '\U{2029}' || c == '\U{202F}' || c == '\U{205F}'
    || c == '\U{3000}' || c == '\U{FEFF}'
  }

  /** `s` with its leading white space removed. */
  function TrimStart(s: string): (t: string)
    ensures |t| <= |s| && t == s[|s| - |t|..]
    ensures t == [] || !IsJsWhitespace(t[0])
  {
    if s != [] && IsJsWhitespace(s[0]) then TrimStart(s[1..]) else s
  }

  /** The longest leading run of digits, read as a number; `None` when it is empty. */
  function ReadDigits(u: string): Option<nat> {
    var n := DigitRun(u);
    if n == 0 then None else Some(DigitsValue(u[..n]))
  }

  /**
   * `parseInt(s, 10)`: skip leading white space, read an optional `+` or `-`,
   * then the longest run of decimal digits; `None` (NaN) when that run is empty.
   */
  function ParseInt(s: string): Option<int> {
    var t := TrimStart(s);
    if t != [] && t[0] == '-' then
      match ReadDigits(t[1..])
      case None => None
      case Some(m) => Some(-(m as int))
    else if t != [] && t[0] == '+' then
      match ReadDigits(t[1..])
      case None => None
      case Some(m) => Some(m)
    else
      match ReadDigits(t)
      case None => None
      case Some(m) => Some(m)
  }

  /** `String(v)` for a cell value: `undefined` becomes the text "undefined". */
  function ToJsString(v: Option<string>): (r: string)
    ensures v.Some? ==> r == v.value
    ensures v.None? ==> r == "undefined"
  {
    v.GetOr("undefined")
  }

  /** Reading back the decimal text of a natural number gives that number. */
  lemma {:induction false} DigitsValueOfNatText(n: nat)
    ensures DigitsValue(NatText(n)) == n
    decreases n
  {
    if n >= 10 {
      var s := NatText(n / 10);
      var t := s + [DigitChar(n % 10)];
      assert t[..|t| - 1] == s;
      DigitsValueOfNatText(n / 10);
    }
  }

  /** A digit run is exactly the digits before the first non-digit. */
  lemma DigitRunOfDigitsThen(d: string, rest: string)
    requires AllDigits(d)
    requires rest == [] || !IsDigit(rest[0])
    ensures DigitRun(d + rest) == |d|
    decreases |d|
  {
    if d != [] {
      assert (d + rest)[1..] == d[1..] + rest;
      DigitRunOfDigitsThen(d[1..], rest);
    }
  }

  /** A run of digits followed by a non-digit reads as the run's value. */
  lemma ReadDigitsThen(d: string, rest: string)
    requires d != [] && AllDigits(d)
    requires rest == [] || !IsDigit(rest[0])
    ensures ReadDigits(d + rest) == Some(DigitsValue(d))
  {
    DigitRunOfDigitsThen(d, rest);
    assert (d + rest)[..|d|] == d;
  }

  /** Text that starts with a digit is read by `parseInt` as its leading digits, unsigned. */
  lemma ParseIntOfUnsigned(s: string)
    requires s != [] && IsDigit(s[0])
    ensures ParseInt(s) == match ReadDigits(s) case None => None case Some(m) => Some(m)
  {
    assert !IsJsWhitespace(s[0]);
    assert TrimStart(s) == s;
  }

  /** Text that starts with '-' is read by `parseInt` as the negated digits after it. */
  lemma ParseIntOfMinus(s: string)
    requires s != [] && s[0] == '-'
    ensures ParseInt(s) == match ReadDigits(s[1..]) case None => None case Some(m) => Some(-(m as int))
  {
    assert !IsJsWhitespace(s[0]);
    assert TrimStart(s) == s;
  }

  /** `parseInt` reads an unsigned run of digits up to the first non-digit. */
  lemma ParseIntOfDigits(d: string, rest: string)
    requires d != [] && AllDigits(d)
    requires rest == [] || !IsDigit(rest[0])
    ensures ParseInt(d + rest) == Some(DigitsValue(d))
  {
    ReadDigitsThen(d, rest);
    var s := d + rest;
    assert s[0] == d[0];
    ParseIntOfUnsigned(s);
  }

  /** `parseInt` reads a `-` followed by a run of digits as the negated run. */
  lemma ParseIntOfNegatedDigits(d: string, rest: string)
    requires d != [] && AllDigits(d)
    requires rest == [] || !IsDigit(rest[0])
    ensures ParseInt("-" + (d + rest)) == Some(-(DigitsValue(d) as int))
  {
    ReadDigitsThen(d, rest);
    var s := "-" + (d + rest);
    assert s[0] == '-' && s[1..] == d + rest;
    ParseIntOfMinus(s);
  }

  /**
   * `parseInt(String(n) + rest, 10) === n` whenever `rest` does not continue
   * the digits: "12abc" reads as 12, and `${n}` reads back as `n`.
   */
  lemma ParseIntOfIntText(n: int, rest: string)
    requires rest == [] || !IsDigit(rest[0])
    ensures ParseInt(IntText(n) + rest) == Some(n)
  {
    var m := if n < 0 then -n else n;
    DigitsValueOfNatText(m);
    if n < 0 {
      ParseIntOfNegatedDigits(NatText(m), rest);
      assert IntText(n) + rest == "-" + (NatText(m) + rest);
    } else {
      ParseIntOfDigits(NatText(m), rest);
    }
  }

  /** `parseInt(String(n), 10) === n`. */
  lemma ParseIntOfIntTextAlone(n: int)
    ensures ParseInt(IntText(n)) == Some(n)
  {
    ParseIntOfIntText(n, []);
    assert IntText(n) + [] == IntText(n);
  }

  /** A text with no decimal digit at all is NaN to `parseInt`. */
  lemma ParseIntWithoutDigits(s: string)
    requires forall i :: 0 <= i < |s| ==> !IsDigit(s[i])
    ensures ParseInt(s) == None
  {
    var t := TrimStart(s);
    if t != [] && (t[0] == '-' || t[0] == '+') {
      assert t[1..] == s[|s| - |t| + 1..];
    }
  }

  /** `parseInt` yields a number only when the text holds at least one decimal digit. */
  lemma ParseIntNeedsDigit(s: string)
    ensures ParseInt(s).Some? ==> exists i :: 0 <= i < |s| && IsDigit(s[i])
  {
    if ParseInt(s).Some? {
      var t := TrimStart(s);
      var k := |s| - |t|;
      if t != [] && (t[0] == '-' || t[0] == '+') {
        assert DigitRun(t[1..]) > 0;
        assert IsDigit(t[1]) && s[k + 1] == t[1];
      } else {
        assert DigitRun(t) > 0;
        assert IsDigit(t[0]) && s[k] == t[0];
      }
    }
  }

  /** An `undefined` cell value reads as NaN: `parseInt(undefined, 10)` sees the text "undefined". */
  lemma ParseIntOfUndefined()
    ensures ParseInt(ToJsString(None)) == None
  {
    var s := ToJsString(None);
    assert !IsJsWhitespace(s[0]) && TrimStart(s) == s;
    assert DigitRun(s) == 0;
  }
}
