/** The numbering of promtorture's targets: target numbers and tuples of label
    indexes, least significant index first. */
module MixedRadix {

  predicate Radixes(rs: seq<nat>) {
    forall i :: 0 <= i < |rs| ==> rs[i] >= 1
  }

  function Product(rs: seq<nat>): nat {
    if rs == [] then 1 else rs[0] * Product(rs[1..])
  }

  predicate IsTuple(t: seq<nat>, rs: seq<nat>) {
    |t| == |rs| && forall i :: 0 <= i < |t| ==> t[i] < rs[i]
  }

  function Digits(n: nat, rs: seq<nat>): (t: seq<nat>)
    requires Radixes(rs)
    ensures |t| == |rs|
  {
    if rs == [] then [] else [n % rs[0]] + Digits(n / rs[0], rs[1..])
  }

  /** The weighted sum of the digits, each weight the product of the radixes below. */
  function Weigh(t: seq<nat>, rs: seq<nat>): nat
    requires |t| == |rs|
  {
    if rs == [] then 0 else t[0] + rs[0] * Weigh(t[1..], rs[1..])
  }

  lemma MulMonotone(a: int, x: int, y: int)
    requires a >= 0
    ensures x <= y ==> a * x <= a * y
  {
    if x <= y { assert a * (y - x) >= 0; }
  }

  lemma DivModUnique(a: nat, q: nat, r: nat)
    requires r < a
    ensures (r + a * q) / a == q && (r + a * q) % a == r
  {
    var n := r + a * q;
    var d := n / a - q;
    assert n == a * (n / a) + n % a;
    assert a * d == r - n % a;
    MulMonotone(a, 1, d);
    MulMonotone(a, d, -1);
  }

  lemma DivBound(n: nat, a: nat, p: nat)
    requires a >= 1 && n < a * p
    ensures n / a < p
  {
    MulMonotone(a, p, n / a);
  }

  lemma {:induction false} DigitsInRange(n: nat, rs: seq<nat>)
    requires Radixes(rs)
    ensures IsTuple(Digits(n, rs), rs)
    decreases |rs|
  {
    if rs != [] { DigitsInRange(n / rs[0], rs[1..]); }
  }

  lemma MulRegroup(a: int, b: int, p: int, r: int)
    ensures a * (b * p + r) == a * r + (a * b) * p
  {
    assert a * (b * p) == (a * b) * p;
  }

  lemma DivMul(n: nat, a: nat, b: nat)
    requires a >= 1 && b >= 1
    ensures a * b >= 1 && n / a / b == n / (a * b)
  {
    var q, s := n / a, n % a;
    var p, r := q / b, q % b;
    MulMonotone(a, 1, b);
    MulRegroup(a, b, p, r);
    assert q == b * p + r;
    assert n == a * q + s;
    DigitBound(s, a, r, b);
    DivModUnique(a * b, p, s + a * r);
  }

  lemma {:induction false} ProductPositive(rs: seq<nat>)
    requires Radixes(rs)
    ensures Product(rs) >= 1
    decreases |rs|
  {
    if rs != [] {
      ProductPositive(rs[1..]);
      MulMonotone(rs[0], 1, Product(rs[1..]));
    }
  }

  /** The digit at i: the number divided by the product of the radixes below, modulo
      the radix at i. */
  lemma {:induction false} DigitAt(n: nat, rs: seq<nat>, i: nat)
    requires Radixes(rs) && i < |rs|
    ensures Product(rs[..i]) >= 1 && Digits(n, rs)[i] == n / Product(rs[..i]) % rs[i]
    decreases |rs|
  {
    ProductPositive(rs[..i]);
    if i == 0 {
      assert rs[..0] == [];
    } else {
      DigitAt(n / rs[0], rs[1..], i - 1);
      assert rs[..i][1..] == rs[1..][..i - 1];
      DivMul(n, rs[0], Product(rs[1..][..i - 1]));
    }
  }

  /** The digits recover the number. */
  lemma {:induction false} WeighDigits(n: nat, rs: seq<nat>)
    requires Radixes(rs) && n < Product(rs)
    ensures Weigh(Digits(n, rs), rs) == n
    decreases |rs|
  {
    if rs != [] {
      DivBound(n, rs[0], Product(rs[1..]));
      WeighDigits(n / rs[0], rs[1..]);
      assert Digits(n, rs)[1..] == Digits(n / rs[0], rs[1..]);
    }
  }

  lemma DigitBound(d: nat, a: nat, w: nat, p: nat)
    requires d < a && w < p
    ensures d + a * w < a * p
  {
    MulMonotone(a, w + 1, p);
  }

  lemma DigitsSplit(n: nat, q: nat, r: nat, rs: seq<nat>)
    requires Radixes(rs) && rs != [] && n / rs[0] == q && n % rs[0] == r
    ensures Digits(n, rs) == [r] + Digits(q, rs[1..])
  {
  }

  /** Every tuple is the digits of a number in range. */
  lemma {:induction false} DigitsOfWeight(t: seq<nat>, rs: seq<nat>)
    requires Radixes(rs) && IsTuple(t, rs)
    ensures Weigh(t, rs) < Product(rs) && Digits(Weigh(t, rs), rs) == t
    decreases |rs|
  {
    if rs != [] {
      DigitsOfWeight(t[1..], rs[1..]);
      var w := Weigh(t[1..], rs[1..]);
      DigitBound(t[0], rs[0], w, Product(rs[1..]));
      DivModUnique(rs[0], w, t[0]);
      DigitsSplit(Weigh(t, rs), w, t[0], rs);
    }
  }

  /** Numbers below the product and index tuples correspond one to one: each tuple
      is the digits of exactly one number, which is its weighted sum. */
  lemma DigitsAreBijective(t: seq<nat>, rs: seq<nat>)
    requires Radixes(rs) && IsTuple(t, rs)
    ensures Weigh(t, rs) < Product(rs)
    ensures forall n: nat :: n < Product(rs) ==> (Digits(n, rs) == t <==> n == Weigh(t, rs))
  {
    DigitsOfWeight(t, rs);
    forall n: nat | n < Product(rs) && Digits(n, rs) == t ensures n == Weigh(t, rs) {
      WeighDigits(n, rs);
    }
  }

  /** The counter array the source's comment describes: increment the first
      counter; at its limit reset it and carry. */
  function Increment(t: seq<nat>, rs: seq<nat>): seq<nat>
    requires |t| == |rs|
  {
    if rs == [] then []
    else if t[0] + 1 < rs[0] then [t[0] + 1] + t[1..]
    else [0] + Increment(t[1..], rs[1..])
  }

  /** Counting up is stepping the counters, roll-over included. */
  lemma {:induction false} SuccessorIsIncrement(n: nat, rs: seq<nat>)
    requires Radixes(rs)
    ensures Digits(n + 1, rs) == Increment(Digits(n, rs), rs)
    decreases |rs|
  {
    if rs != [] {
      var a, q, r := rs[0], n / rs[0], n % rs[0];
      assert n == r + a * q;
      if r + 1 < a {
        DivModUnique(a, q, r + 1);
        DigitsSplit(n + 1, q, r + 1, rs);
      } else {
        assert n + 1 == 0 + a * (q + 1);
        DivModUnique(a, q + 1, 0);
        DigitsSplit(n + 1, q + 1, 0, rs);
        SuccessorIsIncrement(q, rs[1..]);
      }
    }
  }

  /** One turn of the loop: the remainder yields the next digit and the rest. */
  lemma NextDigit(n: nat, rs: seq<nat>, all: seq<nat>, i: nat)
    requires Radixes(rs) && i < |rs| == |all| && Digits(n, rs[i..]) == all[i..]
    ensures all[i] == n % rs[i] && Digits(n / rs[i], rs[i + 1..]) == all[i + 1..]
  {
    assert rs[i..][1..] == rs[i + 1..] && all[i..][1..] == all[i + 1..];
  }

  /** targetIndexes */
  method TargetIndexes(targetNumber: nat, targets: seq<nat>) returns (indexes: array<nat>)
    requires Radixes(targets)
    ensures fresh(indexes) && indexes[..] == Digits(targetNumber, targets)
  {
    ghost var all := Digits(targetNumber, targets);
    indexes := new nat[|targets|];
    var remainder := targetNumber;
    assert targets[0..] == targets;
    for i := 0 to |targets|
      invariant forall j :: 0 <= j < i ==> indexes[j] == all[j]
      invariant Digits(remainder, targets[i..]) == all[i..]
    {
      NextDigit(remainder, targets, all, i);
      indexes[i] := remainder % targets[i];
      remainder := remainder / targets[i];
    }
  }

  // ------------------------------------------------- the product in 64-bit arithmetic

  const TWO63: int := 0x8000_0000_0000_0000
  const TWO64: int := 0x1_0000_0000_0000_0000

  /** A Go int on a 64-bit machine. */
  function Wrap64(x: int): int {
    (x + TWO63) % TWO64 - TWO63
  }

  lemma WrapShift(x: int, k: int)
    ensures Wrap64(x + k * TWO64) == Wrap64(x)
  {
    var a, b := x + TWO63, x + TWO63 + k * TWO64;
    assert a == TWO64 * (a / TWO64) + a % TWO64;
    assert b == TWO64 * (a / TWO64 + k) + a % TWO64;
    assert b % TWO64 == a % TWO64;
  }

  lemma WrapMul(x: int, y: int)
    ensures Wrap64(Wrap64(x) * y) == Wrap64(x * y)
  {
    var k := (x + TWO63) / TWO64;
    assert Wrap64(x) == x - k * TWO64;
    assert Wrap64(x) * y == x * y + (-k * y) * TWO64;
    WrapShift(x * y, -k * y);
  }

  lemma WrapExact(x: nat)
    ensures Wrap64(x) == x <==> x < TWO63
  {
  }

  lemma {:induction false} ProductSnoc(rs: seq<nat>, r: nat)
    ensures Product(rs + [r]) == Product(rs) * r
    decreases |rs|
  {
    if rs == [] {
      assert [r][1..] == [];
    } else {
      ProductSnoc(rs[1..], r);
      assert (rs + [r])[1..] == rs[1..] + [r];
    }
  }

  /** The counting loop of CreateRegistry: the product, wrapped.  It is the true
      number of targets if and only if that fits in 63 bits. */
  method TotalTargets(targets: seq<nat>) returns (total: int)
    ensures total == Wrap64(Product(targets))
    ensures total == Product(targets) <==> Product(targets) < TWO63
  {
    total := 1;
    for i := 0 to |targets|
      invariant total == Wrap64(Product(targets[..i]))
    {
      WrapMul(Product(targets[..i]), targets[i]);
      ProductSnoc(targets[..i], targets[i]);
      assert targets[..i] + [targets[i]] == targets[..i + 1];
      total := Wrap64(total * targets[i]);
    }
    assert targets[..|targets|] == targets;
    WrapExact(Product(targets));
  }
}
