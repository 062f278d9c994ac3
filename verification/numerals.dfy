/**
 * The printf conversions util/capprint.c relies on: `%0Nlx`, `%04x`,
 * `%lu` and `%ld` (lowercase digits, zero padding to a minimum width),
 * with a parser for each so that the output can be read back.
 */
module Numerals {

  /** The digit for d, lowercase for 10..15. */
  function DigitChar(d: nat): (ch: char)
    requires d < 16
  {
    if d < 10 then ('0' as int + d) as char else ('a' as int + d - 10) as char
  }

  /** The value of a digit character; 16 for anything that is not one. */
  function DigitValue(ch: char): (v: nat)
    ensures v <= 16
  {
    if '0' <= ch <= '9' then ch as int - '0' as int
    else if 'a' <= ch <= 'f' then ch as int - 'a' as int + 10
    else 16
  }

  lemma DigitRoundTrip(d: nat)
    requires d < 16
    ensures DigitValue(DigitChar(d)) == d
  {
  }

  function Pow(b: nat, e: nat): nat {
    if e == 0 then 1 else b * Pow(b, e - 1)
  }

  /**
   * n written in the given radix with at least `width` digits, padded
   * with leading zeros; 0 with width 0 is "0".
   */
  function Numeral(n: nat, radix: nat, width: nat): (s: seq<char>)
    requires 2 <= radix <= 16
    ensures |s| >= 1
    decreases n, width
  {
    if n < radix && width <= 1 then [DigitChar(n)]
    else Numeral(n / radix, radix, if width == 0 then 0 else width - 1) + [DigitChar(n % radix)]
  }

  /** The value of a string of digits, most significant first. */
  function Value(s: seq<char>, radix: nat): nat {
    if s == [] then 0 else Value(s[..|s| - 1], radix) * radix + DigitValue(s[|s| - 1])
  }

  /** Every character is a digit of the radix. */
  predicate AllDigits(s: seq<char>, radix: nat) {
    forall i :: 0 <= i < |s| ==> DigitValue(s[i]) < radix
  }

  lemma QuotientDecreases(n: nat, radix: nat)
    requires 2 <= radix
    ensures n / radix <= n
    ensures n > 0 ==> n / radix < n
  {
  }

  lemma NumeralSplit(n: nat, radix: nat, width: nat)
    requires 2 <= radix <= 16
    requires !(n < radix && width <= 1)
    ensures Numeral(n, radix, width)
            == Numeral(n / radix, radix, if width == 0 then 0 else width - 1) + [DigitChar(n % radix)]
  {
  }

  lemma ValueSnoc(head: seq<char>, d: char, radix: nat)
    ensures Value(head + [d], radix) == Value(head, radix) * radix + DigitValue(d)
  {
    assert (head + [d])[..|head|] == head;
  }

  /** Appending digit d to a string worth q gives q * radix + d. */
  lemma AppendDigit(t: seq<char>, s: seq<char>, d: nat, q: nat, n: nat, radix: nat)
    requires d < 16 && t == s + [DigitChar(d)]
    requires Value(s, radix) == q && n == q * radix + d
    ensures Value(t, radix) == n
  {
    ValueSnoc(s, DigitChar(d), radix);
    DigitRoundTrip(d);
  }

  lemma DivMod(n: nat, radix: nat)
    requires 2 <= radix
    ensures n == (n / radix) * radix + n % radix
  {
  }

  /** Reading a numeral back gives the number it was written from. */
  lemma {:induction false} NumeralRoundTrip(n: nat, radix: nat, width: nat)
    requires 2 <= radix <= 16
    ensures Value(Numeral(n, radix, width), radix) == n
    decreases n, width
  {
    if n < radix && width <= 1 {
      DigitRoundTrip(n);
      assert [DigitChar(n)][..0] == [];
    } else {
      var q, r := n / radix, n % radix;
      var w := if width == 0 then 0 else width - 1;
      QuotientDecreases(n, radix);
      NumeralRoundTrip(q, radix, w);
      NumeralSplit(n, radix, width);
      DivMod(n, radix);
      AppendDigit(Numeral(n, radix, width), Numeral(q, radix, w), r, q, n, radix);
    }
  }

  /** A numeral consists of digits of its radix only. */
  lemma {:induction false} NumeralDigits(n: nat, radix: nat, width: nat)
    requires 2 <= radix <= 16
    ensures AllDigits(Numeral(n, radix, width), radix)
    decreases n, width
  {
    if n < radix && width <= 1 {
      DigitRoundTrip(n);
    } else {
      var q, r := n / radix, n % radix;
      var w := if width == 0 then 0 else width - 1;
      QuotientDecreases(n, radix);
      NumeralDigits(q, radix, w);
      NumeralSplit(n, radix, width);
      AllDigitsSnoc(Numeral(n, radix, width), Numeral(q, radix, w), r, radix);
    }
  }

  /** Appending digit d < radix to digits of the radix gives digits of the radix. */
  lemma AllDigitsSnoc(t: seq<char>, head: seq<char>, d: nat, radix: nat)
    requires d < 16 && d < radix && t == head + [DigitChar(d)]
    requires AllDigits(head, radix)
    ensures AllDigits(t, radix)
  {
    DigitRoundTrip(d);
    forall i | 0 <= i < |t|
      ensures DigitValue(t[i]) < radix
    {
      if i < |head| {
        assert t[i] == head[i];
      }
    }
  }

  lemma DivBelowPow(n: nat, radix: nat, e: nat)
    requires 2 <= radix && n < Pow(radix, e + 1)
    ensures n / radix < Pow(radix, e)
  {
    assert Pow(radix, e + 1) == radix * Pow(radix, e);
    if n / radix >= Pow(radix, e) {
      assert n >= (n / radix) * radix >= Pow(radix, e) * radix;
    }
  }

  /** A number below radix^width is written with exactly `width` digits. */
  lemma {:induction false} NumeralLength(n: nat, radix: nat, width: nat)
    requires 2 <= radix <= 16 && 1 <= width
    requires n < Pow(radix, width)
    ensures |Numeral(n, radix, width)| == width
    decreases width
  {
    if width == 1 {
      assert Pow(radix, 1) == radix;
    } else {
      DivBelowPow(n, radix, width - 1);
      NumeralLength(n / radix, radix, width - 1);
      NumeralSplit(n, radix, width);
    }
  }

  /** `%0<width>lx`. */
  function Hex(n: nat, width: nat): seq<char> {
    Numeral(n, 16, width)
  }

  /** `%lu`. */
  function Decimal(n: nat): seq<char> {
    Numeral(n, 10, 0)
  }

  /** `%ld`. */
  function SignedDecimal(v: int): (s: seq<char>)
    ensures |s| >= 1
    ensures s[0] == '-' <==> v < 0
  {
    NumeralDigits(if v < 0 then -v else v, 10, 0);
    DigitBound(Numeral(if v < 0 then -v else v, 10, 0), 10);
    if v < 0 then "-" + Decimal(-v) else Decimal(v)
  }

  lemma DigitBound(s: seq<char>, radix: nat)
    requires radix <= 10 && AllDigits(s, radix) && |s| >= 1
    ensures s[0] != '-'
  {
    assert DigitValue(s[0]) < radix;
  }

  /** Reading `%ld` output back. */
  function SignedValue(s: seq<char>): int {
    if |s| >= 1 && s[0] == '-' then 0 - Value(s[1..], 10) else Value(s, 10)
  }

  lemma SignedDecimalRoundTrip(v: int)
    ensures SignedValue(SignedDecimal(v)) == v
  {
    if v < 0 {
      NumeralRoundTrip(-v, 10, 0);
      assert SignedDecimal(v)[1..] == Decimal(-v);
    } else {
      NumeralRoundTrip(v, 10, 0);
    }
  }
}
