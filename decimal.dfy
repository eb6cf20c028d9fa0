/** Decimal rendering of natural numbers, and left padding to a field width,
    as the chunker's format specifications (`{n:03d}`, `{n:5d}`) print them. */
module Decimal {

  predicate IsDigit(c: char)
  {
    '0' <= c <= '9'
  }

  predicate AllDigits(s: string)
  {
    forall i | 0 <= i < |s| :: IsDigit(s[i])
  }

  function DigitChar(d: nat): (c: char)
    requires d < 10
    ensures IsDigit(c)
  {
    (48 + d) as char
  }

  function DigitValue(c: char): (d: nat)
    requires IsDigit(c)
    ensures d < 10
  {
    c as int - 48
  }

  /** The decimal digits of n, most significant first, without leading zeros. */
  function Digits(n: nat): (s: string)
    ensures |s| >= 1 && AllDigits(s)
    ensures |s| > 1 ==> s[0] != '0'
    decreases n
  {
    if n < 10 then [DigitChar(n)] else Digits(n / 10) + [DigitChar(n % 10)]
  }

  /** The number a string of decimal digits denotes. */
  function Parse(s: string): nat
    requires AllDigits(s)
  {
    if s == [] then 0 else Parse(s[..|s| - 1]) * 10 + DigitValue(s[|s| - 1])
  }

  lemma {:induction false} ParseDigits(n: nat)
    ensures Parse(Digits(n)) == n
    decreases n
  {
    if n >= 10 {
      ParseDigits(n / 10);
      var s := Digits(n);
      assert s[..|s| - 1] == Digits(n / 10);
    }
  }

  /** n copies of c. */
  function Repeat(c: char, n: nat): (r: string)
    ensures |r| == n
  {
    seq(n, _ => c)
  }

  /** Leading zeros do not change the number a digit string denotes. */
  lemma {:induction false} ParseLeadingZeros(z: nat, s: string)
    requires AllDigits(s)
    ensures AllDigits(Repeat('0', z) + s)
    ensures Parse(Repeat('0', z) + s) == Parse(s)
    decreases |s|
  {
    var zeros := Repeat('0', z);
    assert AllDigits(zeros + s);
    if s == [] {
      assert zeros + s == zeros;
      ParseZeros(z);
    } else {
      var t := zeros + s;
      assert t[..|t| - 1] == zeros + s[..|s| - 1];
      ParseLeadingZeros(z, s[..|s| - 1]);
    }
  }

  lemma {:induction false} ParseZeros(z: nat)
    ensures AllDigits(Repeat('0', z))
    ensures Parse(Repeat('0', z)) == 0
  {
    var zeros := Repeat('0', z);
    if z > 0 {
      assert zeros[..z - 1] == Repeat('0', z - 1);
      ParseZeros(z - 1);
    }
  }

  /** s, right-aligned in a field of the given width by fill characters on
      its left; a longer s is kept whole. */
  function PadLeft(s: string, width: nat, fill: char): (r: string)
    ensures |r| == if |s| < width then width else |s|
    ensures r[|r| - |s|..] == s
    ensures forall i | 0 <= i < |r| - |s| :: r[i] == fill
  {
    if |s| < width then Repeat(fill, width - |s|) + s else s
  }

  /** Zero padding keeps the value of a digit string. */
  lemma PadZeros(s: string, width: nat)
    requires AllDigits(s)
    ensures AllDigits(PadLeft(s, width, '0'))
    ensures Parse(PadLeft(s, width, '0')) == Parse(s)
  {
    if |s| < width {
      ParseLeadingZeros(width - |s|, s);
    }
  }

  /** Zero padding keeps the value: the padded digits still read back as n. */
  lemma ZeroPaddedDigits(n: nat, width: nat)
    ensures AllDigits(PadLeft(Digits(n), width, '0'))
    ensures Parse(PadLeft(Digits(n), width, '0')) == n
  {
    ParseDigits(n);
    PadZeros(Digits(n), width);
  }

  /** s without its leading spaces. */
  function TrimSpaces(s: string): string
  {
    if |s| > 0 && s[0] == ' ' then TrimSpaces(s[1..]) else s
  }

  lemma {:induction false} TrimRepeatedSpaces(k: nat, s: string)
    requires s == [] || s[0] != ' '
    ensures TrimSpaces(Repeat(' ', k) + s) == s
  {
    if k > 0 {
      assert (Repeat(' ', k) + s)[1..] == Repeat(' ', k - 1) + s;
      TrimRepeatedSpaces(k - 1, s);
    } else {
      assert Repeat(' ', k) + s == s;
    }
  }

  /** A number right-aligned with spaces reads back as its digits once the
      spaces are trimmed. */
  lemma SpacePaddedDigits(n: nat, width: nat)
    ensures TrimSpaces(PadLeft(Digits(n), width, ' ')) == Digits(n)
  {
    var d := Digits(n);
    assert IsDigit(d[0]);
    if |d| < width {
      TrimRepeatedSpaces(width - |d|, d);
    } else {
      TrimRepeatedSpaces(0, d);
      assert Repeat(' ', 0) + d == d;
    }
  }

  /** A number below 10^width has at most width digits. */
  lemma {:induction false} DigitsFit(n: nat, width: nat)
    requires 1 <= width && n < Pow10(width)
    ensures |Digits(n)| <= width
    decreases n
  {
    if n >= 10 {
      assert width >= 2;
      DigitsFit(n / 10, width - 1);
    }
  }

  function Pow10(k: nat): nat
  {
    if k == 0 then 1 else 10 * Pow10(k - 1)
  }
}
