/** The small option type used wherever the source has `undefined` or `null`. */
module Wrappers {
  datatype Option<+T> = None | Some(value: T)
}

/**
 * Text helpers the journal relies on: the decimal rendering of integers
 * (JavaScript's `String(n)` for integral numbers, also the stand-in for the
 * `yyyy-MM-dd` date format) and `Array.prototype.join` over a one-character
 * separator, each with the inverse that shows it loses nothing.
 */
module Text {
  import opened Wrappers

  predicate IsDigit(c: char) {
    '0' <= c <= '9'
  }

  predicate AllDigits(s: string) {
    forall i :: 0 <= i < |s| ==> IsDigit(s[i])
  }

  function DigitChar(d: nat): (c: char)
    requires d < 10
    ensures IsDigit(c) && c as int - '0' as int == d
  {
    ('0' as int + d) as char
  }

  function DigitValue(c: char): (d: nat)
    requires IsDigit(c)
    ensures d < 10
  {
    c as int - '0' as int
  }

  /** Decimal numeral of a natural number, most significant digit first, no leading zeros. */
  function NatToDecimal(n: nat): (s: string)
    ensures |s| >= 1
  {
    if n < 10 then [DigitChar(n)] else NatToDecimal(n / 10) + [DigitChar(n % 10)]
  }

  /** The numeral is made of digits only and has no leading zero. */
  lemma {:induction false} NatToDecimalDigits(n: nat)
    ensures AllDigits(NatToDecimal(n))
    ensures |NatToDecimal(n)| > 1 ==> NatToDecimal(n)[0] != '0'
  {
    if n >= 10 {
      NatToDecimalDigits(n / 10);
    }
  }

  /** Value of a string of decimal digits. */
  function DecimalToNat(s: string): nat
    requires AllDigits(s)
  {
    if s == [] then 0 else DecimalToNat(s[..|s| - 1]) * 10 + DigitValue(s[|s| - 1])
  }

  lemma {:induction false} DecimalRoundTrip(n: nat)
    ensures AllDigits(NatToDecimal(n)) && DecimalToNat(NatToDecimal(n)) == n
  {
    NatToDecimalDigits(n);
    if n >= 10 {
      var s := NatToDecimal(n);
      assert s[..|s| - 1] == NatToDecimal(n / 10);
      NatToDecimalDigits(n / 10);
      DecimalRoundTrip(n / 10);
    }
  }

  /** Decimal numeral of an integer, with a leading `-` when it is negative. */
  function IntToDecimal(i: int): (s: string)
    ensures |s| >= 1
  {
    if i < 0 then "-" + NatToDecimal(-i) else NatToDecimal(i)
  }

  /** Reads back a numeral in the form IntToDecimal writes; anything else is None. */
  function ParseInt(s: string): Option<int> {
    if |s| > 1 && s[0] == '-' && AllDigits(s[1..]) then Some(0 - DecimalToNat(s[1..]) as int)
    else if |s| > 0 && AllDigits(s) then Some(DecimalToNat(s))
    else None
  }

  lemma IntRoundTrip(i: int)
    ensures ParseInt(IntToDecimal(i)) == Some(i)
  {
    var s := IntToDecimal(i);
    if i < 0 {
      var digits := NatToDecimal(-i);
      NatToDecimalDigits(-i);
      assert s == "-" + digits;
      assert s[1..] == digits;
      DecimalRoundTrip(-i);
      assert ParseInt(s) == Some(0 - DecimalToNat(digits) as int);
    } else {
      assert s == NatToDecimal(i);
      NatToDecimalDigits(i);
      assert IsDigit(s[0]);
      DecimalRoundTrip(i);
      assert ParseInt(s) == Some(DecimalToNat(s));
    }
  }

  /** Different integers have different numerals. */
  lemma IntToDecimalInjective(a: int, b: int)
    ensures IntToDecimal(a) == IntToDecimal(b) ==> a == b
  {
    IntRoundTrip(a);
    IntRoundTrip(b);
  }

  /** `parts.join(sep)`: the parts with one separator between neighbours. */
  function Join(parts: seq<string>, sep: char): string {
    if |parts| == 0 then ""
    else if |parts| == 1 then parts[0]
    else parts[0] + [sep] + Join(parts[1..], sep)
  }

  /** `s.split(sep)`: the maximal separator-free pieces, always at least one. */
  function Split(s: string, sep: char): (pieces: seq<string>)
    ensures |pieces| >= 1
  {
    if s == [] then [""]
    else
      var rest := Split(s[1..], sep);
      if s[0] == sep then [""] + rest else [[s[0]] + rest[0]] + rest[1..]
  }

  lemma {:induction false} SplitWithoutSeparator(p: string, sep: char)
    requires sep !in p
    ensures Split(p, sep) == [p]
  {
    if p != [] {
      SplitWithoutSeparator(p[1..], sep);
      assert [p[0]] + p[1..] == p;
    }
  }

  lemma {:induction false} SplitAfterPiece(p: string, t: string, sep: char)
    requires sep !in p
    ensures Split(p + [sep] + t, sep) == [p] + Split(t, sep)
  {
    var s := p + [sep] + t;
    if p == [] {
      assert s[1..] == t;
    } else {
      assert s[1..] == p[1..] + [sep] + t;
      SplitAfterPiece(p[1..], t, sep);
      assert [p[0]] + p[1..] == p;
    }
  }

  /** Splitting a join on its separator gives the parts back when no part holds the separator. */
  lemma {:induction false} SplitJoin(parts: seq<string>, sep: char)
    requires |parts| >= 1
    requires forall i :: 0 <= i < |parts| ==> sep !in parts[i]
    ensures Split(Join(parts, sep), sep) == parts
  {
    if |parts| == 1 {
      SplitWithoutSeparator(parts[0], sep);
    } else {
      SplitJoin(parts[1..], sep);
      SplitAfterPiece(parts[0], Join(parts[1..], sep), sep);
      assert [parts[0]] + parts[1..] == parts;
    }
  }
}
