/**
 * The JavaScript primitives the intake code leans on: numbers as they come out of
 * `Number(...)`, `String.prototype.trim`, and the conversions between integers and
 * their decimal spelling.
 */
module JsCore {

  /** A JavaScript number as it arises in this code: a finite integer, NaN, or an infinity. */
  datatype Number = Finite(n: int) | NaN | Infinity | NegInfinity {
    /** `Number.isFinite(this)` */
    predicate IsFinite() { Finite? }

    /** The comparison `this > k`; NaN compares false with everything. */
    predicate GreaterThan(k: int) {
      match this
      case Finite(n) => n > k
      case Infinity => true
      case _ => false
    }
  }

  /** ECMAScript WhiteSpace and LineTerminator code points, the set `trim` removes. */
  predicate IsWhitespace(c: char) {
    c in {'\t', '\n', '\U{000B}', '\U{000C}', '\r', ' ', '\U{00A0}', '\U{1680}',
          '\U{2028}', '\U{2029}', '\U{202F}', '\U{205F}', '\U{3000}', '\U{FEFF}'}
    || '\U{2000}' <= c <= '\U{200A}'
  }

  predicate NoWhitespaceAtEnds(s: string) {
    s == "" || (!IsWhitespace(s[0]) && !IsWhitespace(s[|s| - 1]))
  }

  /** Drops leading whitespace: the result is a suffix of `s` preceded only by whitespace. */
  function TrimStart(s: string): (r: string)
    ensures |r| <= |s| && r == s[|s| - |r|..]
    ensures r == "" || !IsWhitespace(r[0])
    ensures forall i :: 0 <= i < |s| - |r| ==> IsWhitespace(s[i])
  {
    if |s| > 0 && IsWhitespace(s[0]) then TrimStart(s[1..]) else s
  }

  /** Drops trailing whitespace: the result is a prefix of `s` followed only by whitespace. */
  function TrimEnd(s: string): (r: string)
    ensures |r| <= |s| && r == s[..|r|]
    ensures r == "" || !IsWhitespace(r[|r| - 1])
    ensures forall i :: |r| <= i < |s| ==> IsWhitespace(s[i])
  {
    if |s| > 0 && IsWhitespace(s[|s| - 1]) then TrimEnd(s[..|s| - 1]) else s
  }

  /** `s.trim()` */
  function Trim(s: string): (r: string)
  {
    TrimEnd(TrimStart(s))
  }

  /** Where the trimmed string sits in `s`: right after the leading whitespace. */
  function TrimOffset(s: string): (lo: nat)
    ensures lo <= |s|
  {
    |s| - |TrimStart(s)|
  }

  /**
   * What trim promises: the result is the slice of `s` that starts after the leading
   * whitespace, and everything cut off on either side is whitespace.
   */
  lemma TrimSlice(s: string)
    ensures TrimOffset(s) + |Trim(s)| <= |s|
    ensures Trim(s) == s[TrimOffset(s)..TrimOffset(s) + |Trim(s)|]
    ensures forall i :: 0 <= i < TrimOffset(s) ==> IsWhitespace(s[i])
    ensures forall i :: TrimOffset(s) + |Trim(s)| <= i < |s| ==> IsWhitespace(s[i])
  {
    var t := TrimStart(s);
    var r := TrimEnd(t);
    var lo := |s| - |t|;
    assert t == s[lo..];
    assert r == t[..|r|];
    forall i | lo + |r| <= i < |s|
      ensures IsWhitespace(s[i])
    {
      assert s[i] == t[i - lo];
    }
  }

  /** The trimmed string neither starts nor ends with whitespace. */
  lemma TrimEnds(s: string)
    ensures NoWhitespaceAtEnds(Trim(s))
  {
    var t := TrimStart(s);
    var r := TrimEnd(t);
    if r != "" {
      assert r[0] == t[0];
    }
  }

  /** Only whitespace trims to the empty string, in both directions. */
  lemma TrimEmptyIffBlank(s: string)
    ensures Trim(s) == "" <==> forall i :: 0 <= i < |s| ==> IsWhitespace(s[i])
  {
    var t := TrimStart(s);
    if !forall i :: 0 <= i < |s| ==> IsWhitespace(s[i]) {
      var k :| 0 <= k < |s| && !IsWhitespace(s[k]);
      assert t[k - (|s| - |t|)] == s[k];
    }
  }

  /** A string without surrounding whitespace is its own trim, so trimming is idempotent. */
  lemma {:induction false} TrimFixed(s: string)
    requires NoWhitespaceAtEnds(s)
    ensures Trim(s) == s
  {
    assert TrimStart(s) == s;
  }

  lemma TrimIdempotent(s: string)
    ensures Trim(Trim(s)) == Trim(s)
  {
    TrimEnds(s);
    TrimFixed(Trim(s));
  }

  predicate IsDigit(c: char) { '0' <= c <= '9' }

  predicate AllDigits(s: string) { forall i :: 0 <= i < |s| ==> IsDigit(s[i]) }

  function DigitChar(d: nat): (c: char)
    requires d < 10
    ensures IsDigit(c) && c as int - '0' as int == d
  {
    ('0' as int + d) as char
  }

  /** The value of a run of decimal digits (the digits' own reading, leading zeros allowed). */
  function DigitsValue(s: string): nat
    requires AllDigits(s)
  {
    if |s| == 0 then 0 else DigitsValue(s[..|s| - 1]) * 10 + (s[|s| - 1] as int - '0' as int)
  }

  /** The decimal spelling of a natural number, as `String(n)` gives it. */
  function NatToString(n: nat): (r: string)
    ensures |r| >= 1 && AllDigits(r)
    ensures r[0] == '0' ==> n == 0
  {
    if n < 10 then [DigitChar(n)] else NatToString(n / 10) + [DigitChar(n % 10)]
  }

  /** Reading back a spelled-out natural gives the natural. */
  lemma {:induction false} NatToStringValue(n: nat)
    ensures DigitsValue(NatToString(n)) == n
  {
    if n >= 10 {
      NatToStringValue(n / 10);
      var s := NatToString(n);
      assert s[..|s| - 1] == NatToString(n / 10);
    }
  }

  /** `String(i)` for an integer. */
  function IntToString(i: int): string
  {
    if i < 0 then "-" + NatToString(-i) else NatToString(i)
  }

  /** `s` left-padded with '0' to at least `width` characters. */
  function PadLeft(s: string, width: nat): (r: string)
    ensures |r| == if |s| >= width then |s| else width
    ensures r[|r| - |s|..] == s
    decreases width - |s|
  {
    if |s| >= width then s else PadLeft("0" + s, width)
  }

  /** An optionally signed run of decimal digits. */
  predicate IsIntegerLiteral(t: string) {
    (|t| >= 1 && AllDigits(t)) || (|t| >= 2 && (t[0] == '+' || t[0] == '-') && AllDigits(t[1..]))
  }

  function IntegerLiteralValue(t: string): int
    requires IsIntegerLiteral(t)
  {
    if AllDigits(t) then DigitsValue(t) else if t[0] == '-' then -(DigitsValue(t[1..]) as int) else DigitsValue(t[1..])
  }

  /** `Number(s)` for a string: blank is 0, signed decimal integers and the infinities are read, the rest is NaN. */
  function StringToNumber(s: string): Number
  {
    var t := Trim(s);
    if t == "" then Finite(0)
    else if t == "Infinity" || t == "+Infinity" then Infinity
    else if t == "-Infinity" then NegInfinity
    else if IsIntegerLiteral(t) then Finite(IntegerLiteralValue(t))
    else NaN
  }

  /** `String(i)` is an integer literal spelling `i`, ending in a digit. */
  lemma IntStringLiteral(i: int)
    ensures var s := IntToString(i);
      IsIntegerLiteral(s) && IntegerLiteralValue(s) == i && IsDigit(s[|s| - 1])
  {
    var s := IntToString(i);
    var digits := NatToString(if i < 0 then -i else i);
    NatToStringValue(if i < 0 then -i else i);
    if i < 0 {
      assert s[1..] == digits;
      assert !AllDigits(s) by { assert !IsDigit(s[0]); }
    }
  }

  /** `Number(String(i)) === i` for every integer. */
  lemma NumberOfIntString(i: int)
    ensures StringToNumber(IntToString(i)) == Finite(i)
  {
    var s := IntToString(i);
    IntStringLiteral(i);
    assert !IsWhitespace(s[0]) && !IsWhitespace(s[|s| - 1]);
    TrimFixed(s);
    assert s[|s| - 1] != 'y';
  }

  /** A blank string reads as the finite number 0, not as a missing value. */
  lemma BlankIsZero(s: string)
    requires forall i :: 0 <= i < |s| ==> IsWhitespace(s[i])
    ensures StringToNumber(s) == Finite(0)
  {
    TrimEmptyIffBlank(s);
  }
}
