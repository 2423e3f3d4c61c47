/**
 * The few JavaScript string and number conversions the form and the item
 * label rely on: `String.prototype.trim`, the decimal text of an integer
 * (`toString` and template literals) and the unary `+` conversion of a text
 * field to a number.
 */
module JsText {
  /** A number as the form sees it: an integer value or NaN. */
  datatype JsNumber = Int(n: int) | NaN

  /** The WhiteSpace and LineTerminator code points that `trim` strips. */
  predicate IsWhiteSpace(c: char) {
    c == '\t' || c == '\n' || c == '\U{000B}' || c == '\U{000C}' || c == '\r' || c == ' '
    || c == '\U{00A0}' || c == '\U{1680}' || ('\U{2000}' <= c <= '\U{200A}')
    || c == '\U{2028}' || c == '\U{2029}' || c == '\U{202F}' || c == '\U{205F}'
    || c == '\U{3000}' || c == '\U{FEFF}'
  }

  /** The index of the first character at or after `i` that is not white space, or `|s|`. */
  function SkipBlankFrom(s: string, i: nat): (r: nat)
    requires i <= |s|
    ensures i <= r <= |s|
    ensures forall k | i <= k < r :: IsWhiteSpace(s[k])
    ensures r < |s| ==> !IsWhiteSpace(s[r])
    decreases |s| - i
  {
    if i < |s| && IsWhiteSpace(s[i]) then SkipBlankFrom(s, i + 1) else i
  }

  /** The index just past the last character before `j` that is not white space, or 0. */
  function SkipBlankBefore(s: string, j: nat): (r: nat)
    requires j <= |s|
    ensures r <= j
    ensures forall k | r <= k < j :: IsWhiteSpace(s[k])
    ensures r > 0 ==> !IsWhiteSpace(s[r - 1])
  {
    if j > 0 && IsWhiteSpace(s[j - 1]) then SkipBlankBefore(s, j - 1) else j
  }

  /** `r` sits in `s` at offset `i` with only white space before and after it. */
  predicate BlankAround(s: string, i: int, r: string) {
    0 <= i <= |s| - |r| && r == s[i..i + |r|]
    && (forall k | 0 <= k < i :: IsWhiteSpace(s[k]))
    && (forall k | i + |r| <= k < |s| :: IsWhiteSpace(s[k]))
  }

  /**
   * `s.trim()`: the slice of `s` left once white space is removed at both
   * ends. It is empty exactly when `s` is all white space, and it leaves a
   * string that neither starts nor ends with white space as it is.
   */
  function Trim(s: string): (r: string)
    ensures |r| <= |s|
    ensures exists i :: BlankAround(s, i, r)
    ensures r == [] <==> forall k | 0 <= k < |s| :: IsWhiteSpace(s[k])
    ensures r != [] ==> !IsWhiteSpace(r[0]) && !IsWhiteSpace(r[|r| - 1])
    ensures s == [] || (!IsWhiteSpace(s[0]) && !IsWhiteSpace(s[|s| - 1])) ==> r == s
  {
    var b := SkipBlankFrom(s, 0);
    if b == |s| then
      assert BlankAround(s, 0, []);
      []
    else
      var e := SkipBlankBefore(s, |s|);
      assert b < e;
      assert BlankAround(s, b, s[b..e]);
      s[b..e]
  }

  predicate IsDigit(c: char) {
    '0' <= c <= '9'
  }

  predicate AllDigits(s: string) {
    forall k | 0 <= k < |s| :: IsDigit(s[k])
  }

  function DigitChar(d: nat): (c: char)
    requires d < 10
    ensures IsDigit(c) && c as int - '0' as int == d
  {
    ('0' as int + d) as char
  }

  /**
   * Canonical decimal text of a natural number: one or more digits and no
   * leading zero, except for the single digit `0` itself.
   */
  predicate IsCanonicalNat(s: string) {
    s != [] && AllDigits(s) && (s[0] == '0' ==> s == "0")
  }

  /**
   * Canonical decimal text of an integer: a canonical natural, or a minus
   * sign followed by a canonical natural other than `0`.
   */
  predicate IsCanonicalInt(s: string) {
    IsCanonicalNat(s) || (|s| > 1 && s[0] == '-' && IsCanonicalNat(s[1..]) && s[1..] != "0")
  }

  /** The decimal text of a natural number, without leading zeros. */
  function NatToString(n: nat): (r: string)
    ensures IsCanonicalNat(r)
    ensures r == "0" <==> n == 0
  {
    if n < 10 then [DigitChar(n)] else NatToString(n / 10) + [DigitChar(n % 10)]
  }

  /** The value of a string of decimal digits. */
  function DigitsValue(s: string): nat
    requires AllDigits(s)
  {
    if s == [] then 0 else DigitsValue(s[..|s| - 1]) * 10 + (s[|s| - 1] as int - '0' as int)
  }

  lemma {:induction false} DigitsValueOfNatToString(n: nat)
    ensures DigitsValue(NatToString(n)) == n
  {
    if n >= 10 {
      DigitsValueOfNatToString(n / 10);
      var r := NatToString(n);
      assert r[..|r| - 1] == NatToString(n / 10);
    }
  }

  /**
   * The text of an integer as JavaScript prints it (`${n}`, `n.toString()`):
   * a minus sign for negatives, then the decimal digits. It is never empty
   * and carries no white space at either end.
   */
  function IntToString(n: int): (r: string)
    ensures r != [] && !IsWhiteSpace(r[0]) && !IsWhiteSpace(r[|r| - 1])
    ensures IsCanonicalInt(r)
    ensures r[0] == '-' <==> n < 0
    ensures n >= 0 ==> AllDigits(r)
  {
    if n < 0 then "-" + NatToString(-n) else NatToString(n)
  }

  /**
   * A canonical digit string is the one `NatToString` prints for its value,
   * so no other spelling (such as one with a leading zero) is produced.
   */
  lemma {:induction false} NatToStringOfDigitsValue(s: string)
    requires IsCanonicalNat(s)
    ensures NatToString(DigitsValue(s)) == s
  {
    if |s| > 1 {
      var init := s[..|s| - 1];
      assert IsCanonicalNat(init) && init != "0" by { assert init[0] == s[0]; }
      NatToStringOfDigitsValue(init);
      var v := DigitsValue(s);
      var d := s[|s| - 1] as int - '0' as int;
      assert DigitsValue(init) != 0;
      assert v == DigitsValue(init) * 10 + d && 0 <= d < 10;
      assert v / 10 == DigitsValue(init) && v % 10 == d;
      assert DigitChar(d) == s[|s| - 1];
      assert s == init + [s[|s| - 1]];
    } else {
      assert DigitsValue(s) == s[0] as int - '0' as int by { assert s[..0] == []; }
      assert [DigitChar(DigitsValue(s))] == s;
    }
  }

  /** The text of a number value, `NaN` for NaN. */
  function NumberToString(x: JsNumber): (r: string)
    ensures Trim(r) != []
  {
    match x
    case Int(n) => IntToString(n)
    case NaN => "NaN"
  }

  /**
   * Unary `+` on a text field (JavaScript's `Number(s)`), for the decimal
   * integer forms: surrounding white space is ignored, an empty or blank
   * field gives 0, an optional sign may precede the digits, and every other
   * text gives NaN.
   */
  function ToNumber(s: string): JsNumber
  {
    ParseTrimmed(Trim(s))
  }

  /** The conversion of text that has already been trimmed. */
  function ParseTrimmed(t: string): JsNumber
  {
    if t == [] then Int(0)
    else if (t[0] == '-' || t[0] == '+') && |t| > 1 && AllDigits(t[1..]) then
      var v: int := DigitsValue(t[1..]);
      Int(if t[0] == '-' then -v else v)
    else if AllDigits(t) then Int(DigitsValue(t))
    else NaN
  }

  /** Text that starts and ends with a digit or a sign is left as it is by `trim`. */
  lemma TrimKeepsSignedDigits(s: string)
    requires s != [] && (IsDigit(s[0]) || s[0] == '-') && IsDigit(s[|s| - 1])
    ensures Trim(s) == s
  {
    assert !IsWhiteSpace(s[0]) && !IsWhiteSpace(s[|s| - 1]);
  }

  /** A non-empty run of digits converts to its value. */
  lemma ToNumberOfDigits(s: string)
    requires s != [] && AllDigits(s)
    ensures ToNumber(s) == Int(DigitsValue(s))
  {
    TrimKeepsSignedDigits(s);
    assert !(s[0] == '-' || s[0] == '+');
  }

  /** A minus sign followed by a non-empty run of digits converts to the negated value. */
  lemma ToNumberOfNegatedDigits(s: string)
    requires |s| > 1 && s[0] == '-' && AllDigits(s[1..])
    ensures ToNumber(s) == Int(-(DigitsValue(s[1..]) as int))
  {
    assert IsDigit(s[1..][|s| - 2]);
    TrimKeepsSignedDigits(s);
  }

  /** Converting the printed text of an integer back to a number gives the integer. */
  lemma ToNumberOfIntToString(n: int)
    ensures ToNumber(IntToString(n)) == Int(n)
  {
    if n < 0 {
      ToNumberOfNegatedNatToString(-n);
    } else {
      ToNumberOfNatToString(n);
    }
  }

  /** `ToNumberOfIntToString` for a natural number. */
  lemma ToNumberOfNatToString(v: nat)
    ensures ToNumber(NatToString(v)) == Int(v)
  {
    DigitsValueOfNatToString(v);
    ToNumberOfDigits(NatToString(v));
  }

  /** `ToNumberOfIntToString` for a negative number, written as its magnitude. */
  lemma ToNumberOfNegatedNatToString(v: nat)
    ensures ToNumber("-" + NatToString(v)) == Int(-(v as int))
  {
    var m := NatToString(v);
    var s := "-" + m;
    assert s[1..] == m;
    ToNumberOfNegatedDigits(s);
    DigitsValueOfNatToString(v);
  }

  /** Two integers with the same printed text are equal. */
  lemma IntToStringInjective(a: int, b: int)
    requires IntToString(a) == IntToString(b)
    ensures a == b
  {
    ToNumberOfIntToString(a);
    ToNumberOfIntToString(b);
  }

  /**
   * Conversely, the only canonical integer text that reads back as `n` is
   * `IntToString(n)`: printing is the unique canonical spelling.
   */
  lemma CanonicalIntReadsBackUniquely(s: string, n: int)
    requires IsCanonicalInt(s) && ToNumber(s) == Int(n)
    ensures s == IntToString(n)
  {
    if IsCanonicalNat(s) {
      CanonicalNatReadsBack(s, n);
    } else {
      CanonicalNegativeReadsBack(s, n);
    }
  }

  /** `CanonicalIntReadsBackUniquely` for a text without a sign. */
  lemma CanonicalNatReadsBack(s: string, n: int)
    requires IsCanonicalNat(s) && ToNumber(s) == Int(n)
    ensures s == IntToString(n)
  {
    ToNumberOfDigits(s);
    NatToStringOfDigitsValue(s);
  }

  /** A minus sign before a canonical natural other than `0` is the text of its negation. */
  lemma NegatedCanonicalNat(m: string)
    requires IsCanonicalNat(m) && m != "0"
    ensures IntToString(-(DigitsValue(m) as int)) == "-" + m
  {
    var v := DigitsValue(m);
    NatToStringOfDigitsValue(m);
    assert v != 0;
  }

  /** `CanonicalIntReadsBackUniquely` for a text with a minus sign. */
  lemma CanonicalNegativeReadsBack(s: string, n: int)
    requires |s| > 1 && s[0] == '-' && IsCanonicalNat(s[1..]) && s[1..] != "0"
    requires ToNumber(s) == Int(n)
    ensures s == IntToString(n)
  {
    ToNumberOfNegatedDigits(s);
    NegatedCanonicalNat(s[1..]);
    assert s == "-" + s[1..];
  }
}
