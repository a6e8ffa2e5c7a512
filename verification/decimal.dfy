/**
 Decimal text of integers, written two ways: as Python's `str()` writes an int
 (digits produced most significant first), and as the database's CAST of an
 integer to a string (digits produced least significant first into a buffer
 that is then reversed). Both are inverted by `NumeralValue`, and the two are
 proved to produce the same text.
 */
module Decimal {

  predicate IsDigit(c: char)
  {
    '0' <= c <= '9'
  }

  predicate AllDigits(s: string)
  {
    forall i :: 0 <= i < |s| ==> IsDigit(s[i])
  }

  function DigitValue(c: char): nat
    requires IsDigit(c)
  {
    c as int - '0' as int
  }

  function DigitChar(d: nat): (c: char)
    requires d < 10
    ensures IsDigit(c)
    ensures DigitValue(c) == d
  {
    ('0' as int + d) as char
  }

  /** The decimal digits of `n`, most significant first, without leading zeros. */
  function Digits(n: nat): (s: string)
    ensures 1 <= |s|
    ensures AllDigits(s)
    ensures s[0] == '0' ==> n == 0
    decreases n
  {
    if n < 10 then [DigitChar(n)] else Digits(n / 10) + [DigitChar(n % 10)]
  }

  /** The number a string of decimal digits denotes. */
  function DigitsValue(s: string): nat
    requires AllDigits(s)
  {
    if |s| == 0 then 0 else 10 * DigitsValue(s[..|s| - 1]) + DigitValue(s[|s| - 1])
  }

  lemma {:induction false} DigitsRoundTrip(n: nat)
    ensures DigitsValue(Digits(n)) == n
    decreases n
  {
    if n >= 10 {
      var s := Digits(n);
      assert s[..|s| - 1] == Digits(n / 10);
      DigitsRoundTrip(n / 10);
    }
  }

  /** An optional minus sign followed by at least one decimal digit. */
  predicate IsNumeral(s: string)
  {
    if 0 < |s| && s[0] == '-' then 2 <= |s| && AllDigits(s[1..]) else 1 <= |s| && AllDigits(s)
  }

  /** The integer a numeral denotes: the parse that inverts `Str` and `CastText`. */
  function NumeralValue(s: string): (i: int)
    requires IsNumeral(s)
    ensures i < 0 ==> s[0] == '-'
  {
    if s[0] == '-' then -(DigitsValue(s[1..]) as int) else DigitsValue(s)
  }

  /** Python's `str()` of an int. */
  function Str(i: int): (s: string)
    ensures IsNumeral(s)
    ensures s[0] == '-' <==> i < 0
  {
    if i < 0 then "-" + Digits(-i) else Digits(i)
  }

  /** `str()` is inverted by reading the numeral back. */
  lemma StrRoundTrip(i: int)
    ensures NumeralValue(Str(i)) == i
  {
    if i < 0 {
      assert Str(i)[1..] == Digits(-i);
      DigitsRoundTrip(-i);
    } else {
      DigitsRoundTrip(i);
    }
  }

  /** Distinct integers have distinct texts. */
  lemma StrInjective(a: int, b: int)
    ensures Str(a) == Str(b) <==> a == b
  {
    if Str(a) == Str(b) {
      StrRoundTrip(a);
      StrRoundTrip(b);
    }
  }

  /** The digits of `n`, least significant first. */
  function LowDigitsFirst(n: nat): (s: string)
    decreases n
  {
    [DigitChar(n % 10)] + (if n < 10 then [] else LowDigitsFirst(n / 10))
  }

  function Reverse(s: string): (r: string)
    ensures |r| == |s|
    ensures forall i :: 0 <= i < |s| ==> r[i] == s[|s| - 1 - i]
  {
    if |s| == 0 then [] else Reverse(s[1..]) + [s[0]]
  }

  /** The database's `CAST(i AS VARCHAR)` of an integer: a sign, then the
      least-significant-first digit buffer reversed. */
  function CastText(i: int): (s: string)
  {
    if i < 0 then "-" + Reverse(LowDigitsFirst(-i)) else Reverse(LowDigitsFirst(i))
  }

  lemma {:induction false} ReversedLowDigits(n: nat)
    ensures Reverse(LowDigitsFirst(n)) == Digits(n)
    decreases n
  {
    var c := DigitChar(n % 10);
    if n < 10 {
      assert LowDigitsFirst(n) == [c];
    } else {
      var rest := LowDigitsFirst(n / 10);
      assert LowDigitsFirst(n) == [c] + rest;
      ReversedLowDigits(n / 10);
      var r := Reverse([c] + rest);
      assert r == Reverse(rest) + [c] by {
        forall i | 0 <= i < |r|
          ensures r[i] == (Reverse(rest) + [c])[i]
        {
        }
      }
    }
  }

  /** The SQL cast and Python's `str()` write every integer identically. */
  lemma CastAgreesWithStr(i: int)
    ensures CastText(i) == Str(i)
  {
    if i < 0 {
      ReversedLowDigits(-i);
    } else {
      ReversedLowDigits(i);
    }
  }
}
