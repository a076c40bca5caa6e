/**
 * Whether JavaScript's `Number(s)` is NaN, following the StringNumericLiteral
 * grammar of section 7.1.4.1 of ECMA-262. Only NaN-ness is modelled: the
 * numeric value a string denotes is never needed by the core.
 */
module JsNumber {
  import opened Strings

  predicate IsDigit(c: char) { '0' <= c <= '9' }
  predicate IsHexDigit(c: char) { IsDigit(c) || 'a' <= c <= 'f' || 'A' <= c <= 'F' }
  predicate IsOctalDigit(c: char) { '0' <= c <= '7' }
  predicate IsBinaryDigit(c: char) { c == '0' || c == '1' }

  predicate AllDigits(s: string) { forall i :: 0 <= i < |s| ==> IsDigit(s[i]) }
  predicate AllHexDigits(s: string) { forall i :: 0 <= i < |s| ==> IsHexDigit(s[i]) }
  predicate AllOctalDigits(s: string) { forall i :: 0 <= i < |s| ==> IsOctalDigit(s[i]) }
  predicate AllBinaryDigits(s: string) { forall i :: 0 <= i < |s| ==> IsBinaryDigit(s[i]) }

  predicate IsSign(c: char) { c == '+' || c == '-' }

  /** The first index holding `a` or `b`, or `|s|` when there is none. */
  function FirstOf(s: string, a: char, b: char): (k: nat)
    ensures k <= |s|
    ensures forall i :: 0 <= i < k ==> s[i] != a && s[i] != b
    ensures k < |s| ==> s[k] == a || s[k] == b
  {
    if |s| == 0 || s[0] == a || s[0] == b then 0 else 1 + FirstOf(s[1..], a, b)
  }

  /** SignedInteger: an optional sign and at least one digit. */
  predicate IsSignedInteger(s: string) {
    if |s| > 0 && IsSign(s[0]) then |s| > 1 && AllDigits(s[1..])
    else |s| > 0 && AllDigits(s)
  }

  /** `digits`, `digits.`, `digits.digits` or `.digits`. */
  predicate IsMantissa(m: string) {
    var k := FirstOf(m, '.', '.');
    if k == |m| then |m| > 0 && AllDigits(m)
    else AllDigits(m[..k]) && AllDigits(m[k + 1..]) && |m| > 1
  }

  /** StrUnsignedDecimalLiteral. */
  predicate IsUnsignedDecimal(u: string) {
    || u == "Infinity"
    || (var k := FirstOf(u, 'e', 'E');
        IsMantissa(u[..k]) && (k == |u| || IsSignedInteger(u[k + 1..])))
  }

  /** StrDecimalLiteral. */
  predicate IsDecimalLiteral(t: string) {
    if |t| > 0 && IsSign(t[0]) then IsUnsignedDecimal(t[1..]) else IsUnsignedDecimal(t)
  }

  /** NonDecimalIntegerLiteral: `0x…`, `0o…` or `0b…` with at least one digit. */
  predicate IsNonDecimalInteger(t: string) {
    && |t| > 2 && t[0] == '0'
    && (|| ((t[1] == 'x' || t[1] == 'X') && AllHexDigits(t[2..]))
        || ((t[1] == 'o' || t[1] == 'O') && AllOctalDigits(t[2..]))
        || ((t[1] == 'b' || t[1] == 'B') && AllBinaryDigits(t[2..])))
  }

  /** `!isNaN(Number(s))`: blank strings convert to 0. */
  predicate IsNumeric(s: string) {
    var t := Trim(s);
    t == "" || IsNonDecimalInteger(t) || IsDecimalLiteral(t)
  }

  /** The characters a numeric literal can be spelled with. */
  predicate IsNumeralChar(c: char) {
    || IsHexDigit(c) || IsSign(c) || c == '.'
    || c == 'x' || c == 'X' || c == 'o' || c == 'O' || c == 'B'
    || c == 'e' || c == 'E' || c == 'I' || c == 'n' || c == 'i' || c == 't' || c == 'y'
  }

  predicate AllNumeralChars(s: string) { forall i :: 0 <= i < |s| ==> IsNumeralChar(s[i]) }

  lemma SplitNumeral(s: string, k: nat)
    requires k <= |s|
    requires AllNumeralChars(s[..k]) && AllNumeralChars(s[k..])
    ensures AllNumeralChars(s)
  {
    forall i | 0 <= i < |s|
      ensures IsNumeralChar(s[i])
    {
      if i < k { assert s[i] == s[..k][i]; } else { assert s[i] == s[k..][i - k]; }
    }
  }

  lemma MantissaChars(m: string)
    requires IsMantissa(m)
    ensures AllNumeralChars(m)
  {
    var k := FirstOf(m, '.', '.');
    if k < |m| {
      assert m[k..] == [m[k]] + m[k + 1..];
      SplitNumeral(m, k);
    }
  }

  lemma UnsignedChars(u: string)
    requires IsUnsignedDecimal(u)
    ensures AllNumeralChars(u)
  {
    if u != "Infinity" {
      var k := FirstOf(u, 'e', 'E');
      MantissaChars(u[..k]);
      if k < |u| {
        var e := u[k + 1..];
        if IsSign(e[0]) { assert e == [e[0]] + e[1..]; }
        assert u[k..] == [u[k]] + e;
      }
      SplitNumeral(u, k);
    }
  }

  /** Every character of a string `Number` accepts is white or part of the numeral. */
  lemma NumericChars(s: string)
    requires IsNumeric(s)
    ensures forall i :: 0 <= i < |s| ==> IsWhite(s[i]) || IsNumeralChar(s[i])
  {
    var a, b := TrimSpan(s);
    var t := Trim(s);
    if t != "" {
      if IsNonDecimalInteger(t) {
        assert t == t[..2] + t[2..];
      } else if |t| > 0 && IsSign(t[0]) {
        UnsignedChars(t[1..]);
        assert t == [t[0]] + t[1..];
      } else {
        UnsignedChars(t);
      }
      assert AllNumeralChars(t);
    }
    forall i | 0 <= i < |s|
      ensures IsWhite(s[i]) || IsNumeralChar(s[i])
    {
      if a <= i < b { assert s[i] == t[i - a]; }
    }
  }

  /** `Number` rejects every string holding a `,` or a `$`. */
  lemma NumericHasNoCommaOrDollar(s: string)
    requires IsNumeric(s)
    ensures ',' !in s && '$' !in s
  {
    NumericChars(s);
  }

  /** Blank text converts to `0`, so it counts as a number; a comma never does. */
  lemma NumericExamples()
    ensures IsNumeric("") && IsNumeric(" ")
    ensures IsNumeric("12")
    ensures !IsNumeric("12,5") && !IsNumeric("R$12")
  {
    assert Trim(" ") == "" by { assert IsWhite(' '); }
    var twelve := "12";
    assert Trim(twelve) == twelve by { assert !IsWhite(twelve[0]) && !IsWhite(twelve[1]); }
    assert IsMantissa(twelve) by { assert FirstOf(twelve, '.', '.') == |twelve|; }
    assert FirstOf(twelve, 'e', 'E') == |twelve|;
    assert twelve[..|twelve|] == twelve;
    assert IsUnsignedDecimal(twelve);
    assert ',' in "12,5" by { assert "12,5"[2] == ','; }
    assert '$' in "R$12" by { assert "R$12"[1] == '$'; }
    if IsNumeric("12,5") { NumericHasNoCommaOrDollar("12,5"); }
    if IsNumeric("R$12") { NumericHasNoCommaOrDollar("R$12"); }
  }
}
