/** Decimal rendering of non-negative integers (`Number.prototype.toString()`
    for integral values) and `padStart` with a filler character, together with
    the inverse parse used to state round trips. */
module Decimal {

  function Digit(d: nat): char
    requires d < 10
  {
    ('0' as int + d) as char
  }

  predicate IsDigit(c: char) {
    '0' <= c <= '9'
  }

  function DigitValue(c: char): nat
    requires IsDigit(c)
  {
    c as int - '0' as int
  }

  /** `n.toString()` for a non-negative integer: only digits, no leading zero
      unless the number is zero. */
  function NatToString(n: nat): (s: string)
    ensures |s| >= 1
    ensures forall i | 0 <= i < |s| :: IsDigit(s[i])
    ensures |s| > 1 ==> s[0] != '0'
    ensures n < 10 <==> |s| == 1
    decreases n
  {
    if n < 10 then [Digit(n)] else NatToString(n / 10) + [Digit(n % 10)]
  }

  /** The value of a string of decimal digits (the empty string reads as 0). */
  function ParseDigits(s: string): nat
    requires forall i | 0 <= i < |s| :: IsDigit(s[i])
    decreases |s|
  {
    if |s| == 0 then 0 else 10 * ParseDigits(s[..|s| - 1]) + DigitValue(s[|s| - 1])
  }

  /** Rendering then parsing gives the number back. */
  lemma {:induction false} ParseNatToString(n: nat)
    ensures ParseDigits(NatToString(n)) == n
    decreases n
  {
    var s := NatToString(n);
    if n >= 10 {
      ParseNatToString(n / 10);
      assert s[..|s| - 1] == NatToString(n / 10);
    }
  }

  /** `s.padStart(width, fill)`: left-pads with `fill` up to `width`
      characters; a string already that long is returned unchanged. */
  function PadStart(s: string, width: nat, fill: char): (r: string)
    ensures |r| == if |s| >= width then |s| else width
    ensures r[|r| - |s|..] == s
    ensures forall i | 0 <= i < |r| - |s| :: r[i] == fill
  {
    if |s| >= width then s else seq(width - |s|, _ => fill) + s
  }

  /** A number below 100 renders, zero-padded to two places, as its tens
      digit followed by its units digit. */
  lemma TwoDigits(n: nat)
    requires n < 100
    ensures PadStart(NatToString(n), 2, '0') == [Digit(n / 10), Digit(n % 10)]
  {
    if n >= 10 {
      assert NatToString(n / 10) == [Digit(n / 10)];
    }
  }

  /** Leading zeros do not change a parsed value. */
  lemma {:induction false} ParseLeadingZeros(zeros: string, s: string)
    requires forall i | 0 <= i < |zeros| :: zeros[i] == '0'
    requires forall i | 0 <= i < |s| :: IsDigit(s[i])
    ensures ParseDigits(zeros + s) == ParseDigits(s)
    decreases |s|
  {
    if |s| == 0 {
      assert zeros + s == zeros;
      ParseZeros(zeros);
    } else {
      assert (zeros + s)[..|zeros + s| - 1] == zeros + s[..|s| - 1];
      ParseLeadingZeros(zeros, s[..|s| - 1]);
    }
  }

  /** A run of zeros parses as zero. */
  lemma {:induction false} ParseZeros(zeros: string)
    requires forall i | 0 <= i < |zeros| :: zeros[i] == '0'
    ensures ParseDigits(zeros) == 0
    decreases |zeros|
  {
    if |zeros| > 0 {
      ParseZeros(zeros[..|zeros| - 1]);
    }
  }

  /** Zero-padding a rendering keeps its value. */
  lemma ParsePadded(n: nat, width: nat, r: string)
    requires r == PadStart(NatToString(n), width, '0')
    ensures forall i | 0 <= i < |r| :: IsDigit(r[i])
    ensures ParseDigits(r) == n
  {
    var s := NatToString(n);
    var zeros := r[..|r| - |s|];
    assert r == zeros + s;
    DigitsAfterZeros(zeros, s);
    ParseLeadingZeros(zeros, s);
    ParseNatToString(n);
  }

  /** Zeros in front of digits leave only digits. */
  lemma DigitsAfterZeros(zeros: string, s: string)
    requires forall i | 0 <= i < |zeros| :: zeros[i] == '0'
    requires forall i | 0 <= i < |s| :: IsDigit(s[i])
    ensures forall i | 0 <= i < |zeros + s| :: IsDigit((zeros + s)[i])
  {
  }
}
