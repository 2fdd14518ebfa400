/** Decimal numerals as Go's `%d` prints them. */
module Decimal {
  predicate IsDigit(c: char) { '0' <= c <= '9' }

  function DigitValue(c: char): nat
    requires IsDigit(c)
  {
    (c - '0') as nat
  }

  function Digit(d: nat): char
    requires d < 10
  {
    '0' + d as char
  }

  predicate AllDigits(s: string) { forall i :: 0 <= i < |s| ==> IsDigit(s[i]) }

  function Format(n: nat): string {
    if n < 10 then [Digit(n)] else Format(n / 10) + [Digit(n % 10)]
  }

  function FormatInt(n: int): string {
    if n < 0 then "-" + Format(-n) else Format(n)
  }

  function Parse(s: string): nat
    requires AllDigits(s)
  {
    if s == [] then 0 else 10 * Parse(s[..|s| - 1]) + DigitValue(s[|s| - 1])
  }

  /** Digits without a superfluous leading zero. */
  predicate Canonical(s: string) {
    s != [] && AllDigits(s) && (|s| > 1 ==> s[0] != '0')
  }

  lemma DigitOf(d: nat)
    requires d < 10
    ensures IsDigit(Digit(d)) && DigitValue(Digit(d)) == d
    ensures Digit(d) == '0' <==> d == 0
  {
  }

  lemma {:induction false} ParseFormat(n: nat)
    ensures Canonical(Format(n)) && Parse(Format(n)) == n
    ensures n > 0 ==> Format(n)[0] != '0'
  {
    DigitOf(n % 10);
    if n < 10 {
      DigitOf(n);
      assert Format(n)[..0] == [];
    } else {
      ParseFormat(n / 10);
      assert Format(n)[..|Format(n)| - 1] == Format(n / 10);
    }
  }

  lemma {:induction false} FormatParse(s: string)
    requires Canonical(s)
    ensures Format(Parse(s)) == s
    ensures |s| > 1 ==> Parse(s) >= 10
  {
    var front, d := s[..|s| - 1], DigitValue(s[|s| - 1]);
    if |s| == 1 {
      assert Parse(front) == 0;
    } else {
      assert Canonical(front);
      FormatParse(front);
      if |front| == 1 {
        assert front[..0] == [];
        assert Parse(front) == DigitValue(front[0]) > 0;
      }
      assert Parse(s) / 10 == Parse(front) && Parse(s) % 10 == d;
      assert s == front + [Digit(d)];
    }
  }

  lemma FormatInjective(m: nat, n: nat)
    requires Format(m) == Format(n)
    ensures m == n
  {
    ParseFormat(m);
    ParseFormat(n);
  }

  lemma StartsWithDashIff(n: int)
    ensures FormatInt(n) != [] && (FormatInt(n)[0] == '-' <==> n < 0)
  {
    if n >= 0 {
      ParseFormat(n);
      assert IsDigit(Format(n)[0]);
    }
  }

  lemma FormatIntInjective(m: int, n: int)
    requires FormatInt(m) == FormatInt(n)
    ensures m == n
  {
    StartsWithDashIff(m);
    StartsWithDashIff(n);
    if m < 0 {
      assert FormatInt(m)[1..] == Format(-m) && FormatInt(n)[1..] == Format(-n);
      FormatInjective(-m, -n);
    } else {
      FormatInjective(m, n);
    }
  }
}
