/**
 * The java.lang.String behaviour the core depends on: equalsIgnoreCase and
 * the decimal rendering of an int used by string concatenation.
 */
module Strings {

  /** Character.toUpperCase restricted to ASCII letters. */
  function UpperAscii(c: char): (u: char)
    ensures 'a' <= c <= 'z' ==> 'A' <= u <= 'Z' && u as int == c as int - 32
    ensures !('a' <= c <= 'z') ==> u == c
  {
    if 'a' <= c <= 'z' then (c as int - 32) as char else c
  }

  /** Character.toLowerCase restricted to ASCII letters. */
  function LowerAscii(c: char): (l: char)
    ensures 'A' <= c <= 'Z' ==> 'a' <= l <= 'z' && l as int == c as int + 32
    ensures !('A' <= c <= 'Z') ==> l == c
  {
    if 'A' <= c <= 'Z' then (c as int + 32) as char else c
  }

  /**
   * The per-character test of String.regionMatches with ignoreCase: equal,
   * or equal after upper-casing, or equal after upper- then lower-casing.
   */
  predicate CharsMatchIgnoringCase(a: char, b: char)
  {
    a == b
    || UpperAscii(a) == UpperAscii(b)
    || LowerAscii(UpperAscii(a)) == LowerAscii(UpperAscii(b))
  }

  /** String.equalsIgnoreCase on a non-null argument. */
  predicate EqualsIgnoreCase(s: string, t: string): (r: bool)
    ensures s == t ==> r
    ensures r ==> |s| == |t|
  {
    |s| == |t| && forall i :: 0 <= i < |s| ==> CharsMatchIgnoringCase(s[i], t[i])
  }

  /** On ASCII, matching ignoring case is exactly equality of the lower-cased strings. */
  lemma EqualsIgnoreCaseIsLoweredEquality(s: string, t: string)
    ensures EqualsIgnoreCase(s, t) <==> LowerString(s) == LowerString(t)
  {
    if EqualsIgnoreCase(s, t) {
      forall i | 0 <= i < |s|
        ensures LowerString(s)[i] == LowerString(t)[i]
      {
        LowerOfUpper(s[i]);
        LowerOfUpper(t[i]);
      }
    }
    if LowerString(s) == LowerString(t) {
      forall i | 0 <= i < |s|
        ensures CharsMatchIgnoringCase(s[i], t[i])
      {
        assert LowerString(s)[i] == LowerString(t)[i];
        LowerOfUpper(s[i]);
        LowerOfUpper(t[i]);
      }
    }
  }

  /** Upper-casing first does not change the lower-cased character. */
  lemma LowerOfUpper(c: char)
    ensures LowerAscii(UpperAscii(c)) == LowerAscii(c)
  {
  }

  /** Ignoring case is an equivalence: symmetric ... */
  lemma EqualsIgnoreCaseSymmetric(s: string, t: string)
    ensures EqualsIgnoreCase(s, t) <==> EqualsIgnoreCase(t, s)
  {
  }

  /** ... and transitive, so a match does not depend on which spelling is stored. */
  lemma EqualsIgnoreCaseTransitive(s: string, t: string, u: string)
    requires EqualsIgnoreCase(s, t) && EqualsIgnoreCase(t, u)
    ensures EqualsIgnoreCase(s, u)
  {
    forall i | 0 <= i < |s|
      ensures CharsMatchIgnoringCase(s[i], u[i])
    {
      assert CharsMatchIgnoringCase(s[i], t[i]) && CharsMatchIgnoringCase(t[i], u[i]);
    }
  }

  /** Letters differing only in case match, as do equal strings. */
  lemma EqualsIgnoreCaseOfLowered(s: string)
    ensures EqualsIgnoreCase(s, LowerString(s))
  {
    forall i | 0 <= i < |s|
      ensures CharsMatchIgnoringCase(s[i], LowerString(s)[i])
    {
      var c := s[i];
      assert LowerString(s)[i] == LowerAscii(c);
      if 'A' <= c <= 'Z' {
        assert UpperAscii(LowerAscii(c)) == c;
      }
    }
  }

  /** String.toLowerCase restricted to ASCII letters. */
  function LowerString(s: string): (r: string)
    ensures |r| == |s| && forall i :: 0 <= i < |s| ==> r[i] == LowerAscii(s[i])
  {
    if s == [] then [] else [LowerAscii(s[0])] + LowerString(s[1..])
  }

  predicate IsDigit(c: char)
  {
    '0' <= c <= '9'
  }

  function DigitChar(d: nat): (c: char)
    requires d < 10
    ensures IsDigit(c) && c as int - '0' as int == d
  {
    ('0' as int + d) as char
  }

  predicate IsDigits(s: string)
  {
    forall i :: 0 <= i < |s| ==> IsDigit(s[i])
  }

  /** The digit strings Integer.toString produces: non-empty, no leading zero unless the value is 0. */
  predicate CanonicalDigits(s: string)
  {
    |s| >= 1 && IsDigits(s) && (s[0] == '0' ==> |s| == 1)
  }

  /** The texts Integer.toString produces: canonical digits, after a '-' only for a non-zero value. */
  predicate CanonicalDecimal(s: string)
  {
    |s| >= 1 && if s[0] == '-' then CanonicalDigits(s[1..]) && s[1] != '0' else CanonicalDigits(s)
  }

  /** Integer.toString for a non-negative value: its base-ten digits, most significant first. */
  function NatToDecimal(n: nat): (r: string)
    ensures CanonicalDigits(r)
    ensures r[0] == '0' ==> n == 0
    ensures n >= 10 <==> |r| > 1
  {
    if n < 10 then [DigitChar(n)]
    else
      var r := NatToDecimal(n / 10) + [DigitChar(n % 10)];
      assert r[0] == NatToDecimal(n / 10)[0];
      r
  }

  /** Integer.toString: a minus sign before the digits of a negative value. */
  function IntToDecimal(n: int): (r: string)
    ensures CanonicalDecimal(r)
    ensures n < 0 <==> r[0] == '-'
  {
    if n < 0 then
      var r := "-" + NatToDecimal(-n);
      assert r[1..] == NatToDecimal(-n);
      r
    else NatToDecimal(n)
  }

  /** The value a string of digits denotes in base ten. */
  function DecimalValue(s: string): nat
    requires IsDigits(s)
  {
    if s == [] then 0
    else
      assert IsDigit(s[|s| - 1]);
      DecimalValue(s[..|s| - 1]) * 10 + (s[|s| - 1] as int - '0' as int)
  }

  /** Reads back a string produced by IntToDecimal. */
  function ParseDecimal(s: string): int
    requires |s| >= 1
    requires if s[0] == '-' then IsDigits(s[1..]) else IsDigits(s)
  {
    if s[0] == '-' then -(DecimalValue(s[1..]) as int) else DecimalValue(s)
  }

  lemma {:induction false} NatToDecimalRoundTrip(n: nat)
    ensures DecimalValue(NatToDecimal(n)) == n
  {
    if n >= 10 {
      NatToDecimalRoundTrip(n / 10);
      var r := NatToDecimal(n);
      assert r[..|r| - 1] == NatToDecimal(n / 10);
    }
  }

  /** The decimal rendering of an int loses nothing: it reads back as the same value. */
  lemma {:induction false} IntToDecimalRoundTrip(n: int)
    ensures ParseDecimal(IntToDecimal(n)) == n
  {
    if n < 0 {
      NatToDecimalRoundTrip(-n);
      assert IntToDecimal(n)[1..] == NatToDecimal(-n);
    } else {
      NatToDecimalRoundTrip(n);
    }
  }

  /** Hence different ints never render to the same text. */
  lemma IntToDecimalInjective(m: int, n: int)
    requires m != n
    ensures IntToDecimal(m) != IntToDecimal(n)
  {
    IntToDecimalRoundTrip(m);
    IntToDecimalRoundTrip(n);
  }

  /** Every canonical digit string is the rendering of the value it denotes. */
  lemma {:induction false} CanonicalDigitsAreRendered(s: string)
    requires CanonicalDigits(s)
    ensures NatToDecimal(DecimalValue(s)) == s
    decreases |s|
  {
    var last := s[|s| - 1];
    var d := last as int - '0' as int;
    assert IsDigit(last);
    if |s| == 1 {
      assert DecimalValue(s) == DecimalValue([]) * 10 + d;
      assert DigitChar(d) == last;
    } else {
      var p := s[..|s| - 1];
      assert p[0] == s[0] != '0';
      assert IsDigits(p) by {
        forall i | 0 <= i < |p| ensures IsDigit(p[i]) {
          assert p[i] == s[i];
        }
      }
      CanonicalDigitsAreRendered(p);
      var v := DecimalValue(p);
      assert v != 0;
      assert DecimalValue(s) == v * 10 + d;
      assert DecimalValue(s) / 10 == v && DecimalValue(s) % 10 == d;
      assert DigitChar(d) == last;
      assert s == p + [last];
    }
  }

  /**
   * Together with the round trip: IntToDecimal is a bijection between the ints
   * and the canonical texts, so it is Integer.toString and nothing else.
   */
  lemma CanonicalDecimalIsRendered(s: string)
    requires CanonicalDecimal(s)
    ensures IntToDecimal(ParseDecimal(s)) == s
  {
    if s[0] == '-' {
      var digits := s[1..];
      CanonicalDigitsAreRendered(digits);
      var v := DecimalValue(digits);
      assert NatToDecimal(v)[0] == digits[0] != '0';
      assert v != 0;
      assert ParseDecimal(s) == -(v as int);
      assert IntToDecimal(-(v as int)) == "-" + NatToDecimal(v);
      assert s == "-" + digits;
    } else {
      CanonicalDigitsAreRendered(s);
    }
  }
}
