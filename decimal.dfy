/**
 * Decimal numerals: Python's int() on a string of digits and the decimal
 * formatting of a non-negative int in an f-string.
 */
module Decimal {
  import opened Options
  import opened CharClasses

  function DigitValue(c: char): nat
    requires IsDigit(c)
  {
    c as int - '0' as int
  }

  function DigitChar(d: nat): (c: char)
    requires d < 10
    ensures IsDigit(c) && DigitValue(c) == d
  {
    ('0' as int + d) as char
  }

  /** The number a digit string denotes, most significant digit first. */
  function Value(s: string): nat
    requires All(s, Digit)
  {
    if s == [] then 0 else Value(s[..|s| - 1]) * 10 + DigitValue(s[|s| - 1])
  }

  /** A numeral as formatting writes it: at least one digit and no leading zero. */
  predicate Canonical(s: string) {
    |s| >= 1 && All(s, Digit) && (s[0] == '0' ==> |s| == 1)
  }

  /**
   * int(s) for a string of digits; any other string raises ValueError,
   * here None. (int() also accepts a sign, underscores and surrounding
   * whitespace, which never reach it from the price pattern.)
   */
  function ParseInt(s: string): Option<nat> {
    if |s| >= 1 && All(s, Digit) then Some(Value(s)) else None
  }

  /** f"{n}": the canonical numeral of `n`, which reads back as `n`. */
  function ToDecimal(n: nat): (r: string)
    ensures Canonical(r)
    ensures ParseInt(r) == Some(n)
  {
    if n < 10 then
      var r := [DigitChar(n)];
      assert r[..|r| - 1] == [];
      assert Value(r) == Value([]) * 10 + DigitValue(r[0]);
      r
    else
      var p := ToDecimal(n / 10);
      var r := p + [DigitChar(n % 10)];
      assert r[..|r| - 1] == p;
      r
  }

  /** Appending a digit multiplies the value by ten and adds the digit. */
  lemma ValueAppend(s: string, d: char)
    requires All(s, Digit) && IsDigit(d)
    ensures All(s + [d], Digit) && Value(s + [d]) == Value(s) * 10 + DigitValue(d)
  {
    assert (s + [d])[..|s|] == s;
  }

  /** Leading zeros do not change what int() reads: int("07") == int("7"). */
  lemma {:induction false} ValueLeadingZero(s: string)
    requires All(s, Digit)
    ensures All(['0'] + s, Digit) && Value(['0'] + s) == Value(s)
  {
    var z := ['0'] + s;
    if s != [] {
      assert z[..|z| - 1] == ['0'] + s[..|s| - 1];
      ValueLeadingZero(s[..|s| - 1]);
    }
  }

  /** A numeral with a non-zero first digit denotes a positive number. */
  lemma {:induction false} ValuePositive(s: string)
    requires Canonical(s) && s[0] != '0'
    ensures Value(s) >= 1
  {
    if |s| > 1 {
      var p := s[..|s| - 1];
      assert p[0] == s[0];
      ValuePositive(p);
    }
  }

  /** Formatting a number of two or more digits writes its quotient by ten, then its last digit. */
  lemma ToDecimalStep(q: nat, d: nat)
    requires q >= 1 && d < 10
    ensures ToDecimal(q * 10 + d) == ToDecimal(q) + [DigitChar(d)]
  {
    assert (q * 10 + d) / 10 == q && (q * 10 + d) % 10 == d;
  }

  /**
   * Formatting inverts int() on canonical numerals, so the canonical
   * numerals and the naturals correspond one to one.
   */
  lemma {:induction false} DecimalOfCanonical(s: string)
    requires Canonical(s)
    ensures ToDecimal(Value(s)) == s
  {
    if |s| > 1 {
      var p := s[..|s| - 1];
      var c := s[|s| - 1];
      assert Canonical(p) && Value(s) == Value(p) * 10 + DigitValue(c) by {
        assert p[0] == s[0];
      }
      ValuePositive(p);
      DecimalOfCanonical(p);
      ToDecimalStep(Value(p), DigitValue(c));
      assert s == p + [c];
    }
  }
}
