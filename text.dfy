/**
 * The few string operations of the .NET base library that the dispatch
 * engine relies on: ordinal case-insensitive comparison, `ToUpper`,
 * `string.IsNullOrEmpty` and `int.TryParse`.
 *
 * Case mapping is modelled for ASCII letters only.
 */
module Text {
  import opened Wrappers

  /** Bounds of a C# `int` (System.Int32). */
  const INT_MIN: int := -0x8000_0000
  const INT_MAX: int := 0x7FFF_FFFF

  predicate IsInt32(n: int) {
    INT_MIN <= n <= INT_MAX
  }

  function UpperChar(c: char): char {
    if 'a' <= c <= 'z' then (c as int - 32) as char else c
  }

  /** `s.ToUpper()`. */
  function Upper(s: string): (r: string)
    ensures |r| == |s|
    ensures forall i :: 0 <= i < |s| ==> r[i] == UpperChar(s[i])
  {
    if s == [] then [] else [UpperChar(s[0])] + Upper(s[1..])
  }

  /** `s?.ToUpper()`: null stays null. */
  function UpperOpt(s: Option<string>): (r: Option<string>)
    ensures r.None? <==> s.None?
    ensures s.Some? ==> r.value == Upper(s.value)
  {
    match s
    case None => None
    case Some(t) => Some(Upper(t))
  }

  predicate IsUpper(s: string) {
    forall i :: 0 <= i < |s| ==> UpperChar(s[i]) == s[i]
  }

  /** `string.Equals(a, b, StringComparison.OrdinalIgnoreCase)`, character by character. */
  predicate EqualsIgnoreCase(a: string, b: string) {
    |a| == |b| && forall i :: 0 <= i < |a| ==> UpperChar(a[i]) == UpperChar(b[i])
  }

  /** Comparing ignoring case is comparing the upper-cased strings. */
  lemma EqualsIgnoreCaseIffUpper(a: string, b: string)
    ensures EqualsIgnoreCase(a, b) <==> Upper(a) == Upper(b)
  {
    if EqualsIgnoreCase(a, b) {
      assert forall i :: 0 <= i < |a| ==> Upper(a)[i] == Upper(b)[i];
    }
    if Upper(a) == Upper(b) {
      assert forall i :: 0 <= i < |a| ==> UpperChar(a[i]) == Upper(b)[i];
    }
  }

  /** An upper-case string is its own upper-cased form. */
  lemma UpperOfUpper(s: string)
    requires IsUpper(s)
    ensures Upper(s) == s
  {
  }

  /** `string.IsNullOrEmpty(s)`. */
  predicate IsNullOrEmpty(s: Option<string>) {
    s.None? || s.value == ""
  }

  // ---------------------------------------------------------------------
  // int.TryParse with the default NumberStyles.Integer: optional leading
  // and trailing white space, an optional sign, then decimal digits; the
  // value must fit a 32-bit int. A null string does not parse.

  /** The white-space characters NumberStyles.Integer allows: U+0009..U+000D and U+0020. */
  predicate IsWhite(c: char) {
    c == ' ' || (9 <= c as int <= 13)
  }

  predicate IsDigit(c: char) {
    '0' <= c <= '9'
  }

  predicate AllDigits(s: string) {
    forall i :: 0 <= i < |s| ==> IsDigit(s[i])
  }

  function TrimStart(s: string): (r: string)
    ensures |r| <= |s|
    ensures r == s[|s| - |r|..]
    ensures r != [] ==> !IsWhite(r[0])
  {
    if s != [] && IsWhite(s[0]) then TrimStart(s[1..]) else s
  }

  function TrimEnd(s: string): (r: string)
    ensures |r| <= |s|
    ensures r == s[..|r|]
    ensures r != [] ==> !IsWhite(r[|r| - 1])
  {
    if s != [] && IsWhite(s[|s| - 1]) then TrimEnd(s[..|s| - 1]) else s
  }

  /** The value of a string of decimal digits, most significant first. */
  function DigitsValue(ds: string): nat
    requires AllDigits(ds)
  {
    if ds == [] then 0
    else DigitsValue(ds[..|ds| - 1]) * 10 + (ds[|ds| - 1] as int - '0' as int)
  }

  /** `int.TryParse(s, out v)`: the value when `s` parses, None otherwise. */
  function TryParseInt(s: Option<string>): (r: Option<int>)
    ensures r.Some? ==> IsInt32(r.value)
    ensures s.None? ==> r.None?
  {
    match s
    case None => None
    case Some(str) => ParseTrimmed(TrimEnd(TrimStart(str)))
  }

  /** A string with no surrounding white space: an optional sign, then the digits. */
  function ParseTrimmed(t: string): (r: Option<int>)
    ensures r.Some? ==> IsInt32(r.value)
  {
    var negative := |t| > 0 && t[0] == '-';
    var ds := if |t| > 0 && (t[0] == '-' || t[0] == '+') then t[1..] else t;
    ParseDigits(ds, negative)
  }

  /** A non-empty run of decimal digits, negated after a '-', that fits a 32-bit int. */
  function ParseDigits(ds: string, negative: bool): (r: Option<int>)
    ensures r.Some? ==> IsInt32(r.value)
  {
    if ds == [] || !AllDigits(ds) then None
    else
      var mag: int := DigitsValue(ds);
      var v := if negative then 0 - mag else mag;
      if IsInt32(v) then Some(v) else None
  }

  // ---------------------------------------------------------------------
  // Decimal formatting, the inverse of TryParseInt (`int.ToString()`).

  function DigitChar(d: nat): char
    requires d < 10
  {
    ('0' as int + d) as char
  }

  function FormatNat(n: nat): (r: string)
    ensures r != [] && AllDigits(r)
  {
    if n < 10 then [DigitChar(n)] else FormatNat(n / 10) + [DigitChar(n % 10)]
  }

  function FormatInt(n: int): (r: string)
    ensures r != []
  {
    if n < 0 then "-" + FormatNat(-n) else FormatNat(n)
  }

  lemma {:induction false} DigitsValueOfFormat(n: nat)
    ensures DigitsValue(FormatNat(n)) == n
  {
    if n >= 10 {
      var s := FormatNat(n);
      assert s[..|s| - 1] == FormatNat(n / 10);
      DigitsValueOfFormat(n / 10);
    }
  }

  /** Parsing what FormatInt prints gives the number back, for every 32-bit int. */
  lemma ParseFormatRoundTrip(n: int)
    requires IsInt32(n)
    ensures TryParseInt(Some(FormatInt(n))) == Some(n)
  {
    if n < 0 {
      assert FormatInt(n) == "-" + FormatNat(-n);
      ParseNegative(-n);
    } else {
      assert FormatInt(n) == FormatNat(n);
      ParseNonNegative(n);
    }
  }

  /** A non-negative number in decimal, with no sign, parses to itself. */
  lemma ParseNonNegative(n: nat)
    requires n <= INT_MAX
    ensures TryParseInt(Some(FormatNat(n))) == Some(n)
  {
    var ds := FormatNat(n);
    NoTrim(ds);
    ParseFormatDigits(n, false);
    assert IsDigit(ds[0]);
    assert ParseTrimmed(ds) == ParseDigits(ds, false);
  }

  /** A '-' followed by the decimal digits of m parses to -m. */
  lemma ParseNegative(m: nat)
    requires 0 < m <= -INT_MIN
    ensures TryParseInt(Some("-" + FormatNat(m))) == Some(0 - m)
  {
    var ds := FormatNat(m);
    var s := "-" + ds;
    assert s[0] == '-' && s[|s| - 1] == ds[|ds| - 1] && IsDigit(ds[|ds| - 1]);
    NoTrim(s);
    assert TryParseInt(Some(s)) == ParseTrimmed(s);
    assert s[1..] == ds;
    assert ParseTrimmed(s) == ParseDigits(ds, true);
    ParseFormatDigits(m, true);
  }

  /** The digits FormatNat prints are read back as n, or as -n after a '-'. */
  lemma ParseFormatDigits(n: nat, negative: bool)
    requires if negative then 0 - n >= INT_MIN else n <= INT_MAX
    ensures ParseDigits(FormatNat(n), negative) == Some(if negative then 0 - n else n)
  {
    DigitsValueOfFormat(n);
  }

  /** A string with no white space at either end is left alone by trimming. */
  lemma NoTrim(s: string)
    requires s != [] ==> !IsWhite(s[0]) && !IsWhite(s[|s| - 1])
    ensures TrimEnd(TrimStart(s)) == s
  {
  }
}
