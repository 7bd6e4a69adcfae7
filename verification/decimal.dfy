/** Decimal printing of naturals, as strconv.Itoa and the % operator do it. */
module Decimal {

  function Digit(d: nat): char
    requires d < 10
  {
    '0' + d as char
  }

  predicate IsDigit(c: char) {
    '0' <= c <= '9'
  }

  predicate AllDigits(s: string) {
    forall i :: 0 <= i < |s| ==> IsDigit(s[i])
  }

  function Print(n: nat): (s: string)
    ensures s != [] && AllDigits(s)
  {
    if n < 10 then [Digit(n)] else Print(n / 10) + [Digit(n % 10)]
  }

  function Value(s: string): nat
    requires AllDigits(s)
  {
    if s == [] then 0
    else 10 * Value(s[..|s| - 1]) + (s[|s| - 1] - '0') as int
  }

  function Pow10(k: nat): nat {
    if k == 0 then 1 else 10 * Pow10(k - 1)
  }

  lemma {:induction false} ValueOfPrint(n: nat)
    ensures Value(Print(n)) == n
    decreases n
  {
    if n >= 10 {
      ValueOfPrint(n / 10);
      assert Print(n)[..|Print(n)| - 1] == Print(n / 10);
    }
  }

  lemma PrintInjective(m: nat, n: nat)
    requires Print(m) == Print(n)
    ensures m == n
  {
    ValueOfPrint(m);
    ValueOfPrint(n);
  }

  lemma {:induction false} ValueBound(s: string)
    requires AllDigits(s)
    ensures Value(s) < Pow10(|s|)
    decreases |s|
  {
    if s != [] { ValueBound(s[..|s| - 1]); }
  }

  /** The value of a numeral, read from the left: each digit counts for its power of
      ten. */
  lemma {:induction false} ValueFromLeft(c: char, s: string)
    requires IsDigit(c) && AllDigits(s)
    ensures Value([c] + s) == (c - '0') as int * Pow10(|s|) + Value(s)
    decreases |s|
  {
    var all := [c] + s;
    if s == [] {
      assert all[..0] == [];
    } else {
      var front, last := s[..|s| - 1], s[|s| - 1];
      ValueFromLeft(c, front);
      assert all[..|all| - 1] == [c] + front && all[|all| - 1] == last;
      MulTen((c - '0') as int, Pow10(|front|));
    }
  }

  lemma MulTen(a: int, b: int)
    ensures a * (10 * b) == 10 * (a * b)
  {
  }

  /** A number fits a field exactly when it is below the power of ten. */
  lemma {:induction false} PrintFits(n: nat, k: nat)
    requires k >= 1
    ensures |Print(n)| <= k <==> n < Pow10(k)
    decreases k
  {
    if k == 1 {
      assert Pow10(1) == 10 * Pow10(0);
    } else if n >= 10 {
      PrintFits(n / 10, k - 1);
    } else {
      Pow10Grows(k);
    }
  }

  lemma {:induction false} Pow10Grows(k: nat)
    requires k >= 1
    ensures Pow10(k) >= 10
    decreases k
  {
    if k > 1 { Pow10Grows(k - 1); }
  }

  lemma {:induction false} PrintHasNoLeadingZero(n: nat)
    ensures n > 0 ==> Print(n)[0] != '0'
    decreases n
  {
    if n >= 10 { PrintHasNoLeadingZero(n / 10); }
  }

  lemma {:induction false} PrintOfValue(s: string)
    requires s != [] && AllDigits(s) && (|s| > 1 ==> s[0] != '0')
    ensures Print(Value(s)) == s
    decreases |s|
  {
    var front, last := s[..|s| - 1], (s[|s| - 1] - '0') as int;
    assert s == front + [s[|s| - 1]];
    if front == [] {
      assert Value(front) == 0;
    } else {
      PrintOfValue(front);
      assert Value(front) == 0 ==> Print(Value(front)) == [Digit(0)];
      assert Value(s) / 10 == Value(front) && Value(s) % 10 == last;
    }
  }

  /** The printed number is the numeral with that value and no superfluous zero. */
  lemma PrintExactly(n: nat, s: string)
    ensures s == Print(n) <==> s != [] && AllDigits(s) && Value(s) == n && (|s| > 1 ==> s[0] != '0')
  {
    ValueOfPrint(n);
    PrintHasNoLeadingZero(n);
    if s != [] && AllDigits(s) && (|s| > 1 ==> s[0] != '0') { PrintOfValue(s); }
  }
}
