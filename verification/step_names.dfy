/**
 * Names of the per-checkpoint folders: the checkpoint counter printed as a
 * zero-padded decimal of width at least four (the `%04i` format), or `final`
 * for a checkpoint taken on the solver's finalize phase.
 */
module StepNames {

  predicate IsDigit(c: char)
  {
    '0' <= c <= '9'
  }

  predicate AllDigits(s: string)
  {
    forall i :: 0 <= i < |s| ==> IsDigit(s[i])
  }

  function DigitChar(d: nat): (c: char)
    requires d < 10
    ensures IsDigit(c)
  {
    ('0' as int + d) as char
  }

  function DigitValue(c: char): nat
    requires IsDigit(c)
  {
    c as int - '0' as int
  }

  /** `n` in decimal, without leading zeros. */
  function Decimal(n: nat): (s: string)
    ensures |s| >= 1 && AllDigits(s)
  {
    if n < 10 then [DigitChar(n)] else Decimal(n / 10) + [DigitChar(n % 10)]
  }

  function Zeros(count: nat): (s: string)
    ensures |s| == count && AllDigits(s)
  {
    if count == 0 then "" else Zeros(count - 1) + "0"
  }

  /** `'%04i' % n`: the decimal of `n`, left-padded with zeros to four characters. */
  function Padded4(n: nat): (s: string)
    ensures |s| >= 4 && AllDigits(s)
  {
    var digits := Decimal(n);
    if |digits| < 4 then Zeros(4 - |digits|) + digits else digits
  }

  /** Reads a string of digits as a decimal number. */
  function ParseDecimal(s: string): nat
    requires AllDigits(s)
  {
    if s == [] then 0 else ParseDecimal(s[..|s| - 1]) * 10 + DigitValue(s[|s| - 1])
  }

  lemma {:induction false} DecimalRoundTrip(n: nat)
    ensures ParseDecimal(Decimal(n)) == n
  {
    if n >= 10 {
      DecimalRoundTrip(n / 10);
      var s := Decimal(n);
      assert s[..|s| - 1] == Decimal(n / 10);
    }
  }

  lemma {:induction false} ZerosParse(count: nat)
    ensures ParseDecimal(Zeros(count)) == 0
  {
    if count > 0 {
      ZerosParse(count - 1);
      assert Zeros(count)[..count - 1] == Zeros(count - 1);
    }
  }

  /** Leading zeros do not change the value read. */
  lemma {:induction false} LeadingZeros(count: nat, s: string)
    requires AllDigits(s)
    ensures ParseDecimal(Zeros(count) + s) == ParseDecimal(s)
    decreases |s|
  {
    if s == [] {
      assert Zeros(count) + s == Zeros(count);
      ZerosParse(count);
    } else {
      var t := Zeros(count) + s;
      assert t[..|t| - 1] == Zeros(count) + s[..|s| - 1];
      LeadingZeros(count, s[..|s| - 1]);
    }
  }

  /** The padded name reads back as the counter it was printed from. */
  lemma PaddedRoundTrip(n: nat)
    ensures ParseDecimal(Padded4(n)) == n
  {
    DecimalRoundTrip(n);
    var digits := Decimal(n);
    if |digits| < 4 {
      LeadingZeros(4 - |digits|, digits);
    }
  }

  /** Distinct counters give distinct names. */
  lemma PaddedInjective(a: nat, b: nat)
    requires a != b
    ensures Padded4(a) != Padded4(b)
  {
    PaddedRoundTrip(a);
    PaddedRoundTrip(b);
  }

  /** The name of the checkpoint numbered `timeStep`. */
  function StepName(timeStep: nat, final: bool): (name: string)
    ensures final <==> name == "final"
  {
    assert !IsDigit("final"[0]);
    if final then "final" else Padded4(timeStep)
  }

  /** Two checkpoint names coincide only when both are `final` or both carry the same counter. */
  lemma StepNamesDistinct(i: nat, fi: bool, j: nat, fj: bool)
    requires (i != j && !fi && !fj) || fi != fj
    ensures StepName(i, fi) != StepName(j, fj)
  {
    if !fi && !fj {
      PaddedInjective(i, j);
    } else if fi {
      assert !IsDigit("final"[0]);
      assert AllDigits(StepName(j, fj));
    } else {
      assert !IsDigit("final"[0]);
      assert AllDigits(StepName(i, fi));
    }
  }

  lemma PaddedExamples()
    ensures Padded4(0) == "0000" && Padded4(7) == "0007" && Padded4(12345) == "12345"
  {
    assert Zeros(3) == "000" by {
      assert Zeros(1) == "0";
      assert Zeros(2) == "00";
    }
    assert Decimal(12345) == "12345" by {
      assert Decimal(12) == "12";
      assert Decimal(123) == "123";
      assert Decimal(1234) == "1234";
    }
  }
}
