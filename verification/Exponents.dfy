/** Sequences of powers, whatever the product is. */
module Exponents {

  /** `p` lists the powers of an element for the product `mul`. */
  ghost predicate ArePowers(p: nat -> nat, mul: (nat, nat) -> nat)
  {
    forall a: nat, b: nat {:trigger mul(p(a), p(b))} :: mul(p(a), p(b)) == p(a + b)
  }

  lemma {:induction false} UnitSum(p: nat -> nat, mul: (nat, nat) -> nat, a: nat, b: nat)
    requires ArePowers(p, mul) && p(b) == p(0)
    ensures p(a + b) == p(a)
  {
    assert mul(p(a), p(b)) == p(a + b);
    assert mul(p(a), p(0)) == p(a + 0);
  }

  lemma {:induction false} UnitMultiple(p: nat -> nat, mul: (nat, nat) -> nat, d: nat, k: nat, m: nat)
    requires ArePowers(p, mul) && p(d) == p(0) && m == d * k
    ensures p(m) == p(0)
    decreases k
  {
    if k == 0 {
      assert m == 0;
    } else {
      var before := d * (k - 1);
      assert m == before + d;
      UnitMultiple(p, mul, d, k - 1, before);
      UnitSum(p, mul, before, d);
    }
  }

  /** Euclid's algorithm on exponents. */
  lemma {:induction false} UnitDivisor(p: nat -> nat, mul: (nat, nat) -> nat, a: nat, b: nat)
    returns (d: nat, k: nat, l: nat)
    requires ArePowers(p, mul) && p(a) == p(0) && p(b) == p(0) && a > 0 && b > 0
    ensures p(d) == p(0) && 0 < d <= a && a == d * k && b == d * l
    decreases a + b
  {
    if a == b {
      d, k, l := a, 1, 1;
    } else if a > b {
      UnitSum(p, mul, a - b, b);
      d, k, l := UnitDivisor(p, mul, a - b, b);
      Distribute(d, k, l);
      k := k + l;
    } else {
      UnitSum(p, mul, b - a, a);
      d, k, l := UnitDivisor(p, mul, a, b - a);
      Distribute(d, k, l);
      l := k + l;
    }
  }

  lemma {:induction false} Distribute(d: nat, k: nat, l: nat)
    ensures d * (k + l) == d * k + d * l
  {
  }

  lemma {:induction false} SmallFactor(a: nat, b: nat)
    requires a * b == 255 && a <= 15
    ensures a == 1 || (a == 3 && b == 85) || (a == 5 && b == 51) || (a == 15 && b == 17)
  {
    if a <= 7 {
      assert a == 0 || a == 1 || a == 2 || a == 3 || a == 4 || a == 5 || a == 6 || a == 7;
    } else {
      assert a == 8 || a == 9 || a == 10 || a == 11 || a == 12 || a == 13 || a == 14 || a == 15;
    }
  }

  lemma {:induction false} Large(a: nat, b: nat)
    requires a >= 16 && b >= 16
    ensures a * b >= 256
  {
    assert (a - 16) * (b - 16) >= 0;
  }

  /** The divisors of 255 below it divide 15, 51 or 85. */
  lemma {:induction false} Divisors(d: nat, l: nat)
    requires d * l == 255 && d < 255
    ensures d == 1 || d == 3 || d == 5 || d == 15 || d == 17 || d == 51 || d == 85
  {
    if d <= 15 {
      SmallFactor(d, l);
    } else if l <= 15 {
      SmallFactor(l, d);
    } else {
      Large(d, l);
    }
  }

  lemma {:induction false} NoSmallerUnit(p: nat -> nat, mul: (nat, nat) -> nat, d: nat)
    requires ArePowers(p, mul) && 0 < d < 255 && p(255) == p(0) && p(d) == p(0)
    ensures p(15) == p(0) || p(51) == p(0) || p(85) == p(0)
  {
    var c, k, l := UnitDivisor(p, mul, d, 255);
    Divisors(c, l);
    if c == 1 || c == 5 || c == 17 {
      UnitMultiple(p, mul, c, 85 / c, 85);
    } else if c == 3 {
      UnitMultiple(p, mul, c, 17, 51);
    }
  }

  /** An element whose 255th power is 1, and whose 15th, 51st and 85th are not, has order 255. */
  lemma {:induction false} Order255(p: nat -> nat, mul: (nat, nat) -> nat, i: nat, j: nat)
    requires ArePowers(p, mul) && p(255) == p(0) && p(15) != p(0) && p(51) != p(0) && p(85) != p(0)
    requires i < j < 255
    ensures p(i) != p(j)
  {
    if p(i) == p(j) {
      UnitQuotient(p, mul, i, j - i, 255 - i, 255);
      NoSmallerUnit(p, mul, j - i);
    }
  }

  lemma {:induction false} UnitQuotient(p: nat -> nat, mul: (nat, nat) -> nat, i: nat, d: nat, r: nat, n: nat)
    requires ArePowers(p, mul) && i + r == n && p(n) == p(0) && p(i) == p(i + d)
    ensures p(d) == p(0)
  {
    assert mul(p(i), p(r)) == p(i + r);
    assert mul(p(i + d), p(r)) == p(i + d + r);
    assert i + d + r == d + n;
    UnitSum(p, mul, d, n);
  }
}
