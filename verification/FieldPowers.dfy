/** The powers of x in GF(2^8/0x11D) that decide its order, for any exclusive or `xor` and
    any sequence `p` that starts with 1 and doubles. */
module FieldPowers {
  import opened Exponents

  ghost predicate AreBits(a: nat, b: nat, i: nat, j: nat)
  {
    i < 2 && j < 2
  }

  /** The sum of two bits without carry. */
  ghost function Plus(i: nat, j: nat): nat
  {
    if i == j then 0 else 1
  }

  ghost predicate IsXor(xor: (nat, nat) -> nat)
  {
    && xor(0, 0) == 0
    && (forall a: nat {:trigger AreBits(a, 0, 0, 0)} :: xor(a, 0) == a)
    && (forall a: nat, b: nat, i: nat, j: nat {:trigger AreBits(a, b, i, j)} ::
          AreBits(a, b, i, j) ==> xor(2 * a + i, 2 * b + j) == 2 * xor(a, b) + Plus(i, j))
  }

  ghost function Times2(xor: (nat, nat) -> nat, z: nat): nat
  {
    xor(2 * z, z / 128 * 0x11D)
  }

  ghost predicate Doubles(p: nat -> nat, xor: (nat, nat) -> nat)
  {
    p(0) == 1 && forall n: nat {:trigger Times2(xor, p(n))} :: p(n + 1) == Times2(xor, p(n))
  }

  // ----- evaluation

  lemma {:induction false} Digit(xor: (nat, nat) -> nat, a: nat, b: nat, i: nat, j: nat)
    requires IsXor(xor) && i < 2 && j < 2
    ensures xor(2 * a + i, 2 * b + j) == 2 * xor(a, b) + Plus(i, j)
  {
    assert AreBits(a, b, i, j);
  }

  /** Four more bits on each side. */
  lemma {:induction false} Nibble(xor: (nat, nat) -> nat, s: nat, t: nat, s3: nat, s2: nat, s1: nat, s0: nat,
                                  t3: nat, t2: nat, t1: nat, t0: nat)
    requires IsXor(xor) && s3 < 2 && s2 < 2 && s1 < 2 && s0 < 2 && t3 < 2 && t2 < 2 && t1 < 2 && t0 < 2
    ensures xor(16 * s + 8 * s3 + 4 * s2 + 2 * s1 + s0, 16 * t + 8 * t3 + 4 * t2 + 2 * t1 + t0)
            == 16 * xor(s, t) + 8 * Plus(s3, t3) + 4 * Plus(s2, t2) + 2 * Plus(s1, t1) + Plus(s0, t0)
  {
    Digit(xor, s, t, s3, t3);
    var a, b := 2 * s + s3, 2 * t + t3;
    Digit(xor, a, b, s2, t2);
    var c, d := 2 * a + s2, 2 * b + t2;
    Digit(xor, c, d, s1, t1);
    Digit(xor, 2 * c + s1, 2 * d + t1, s0, t0);
  }

  lemma {:induction false} Small(p: nat -> nat, xor: (nat, nat) -> nat, n: nat, v: nat)
    requires IsXor(xor) && Doubles(p, xor) && p(n) == v < 128
    ensures p(n + 1) == 2 * v
  {
    assert AreBits(2 * v, 0, 0, 0);
    assert p(n + 1) == Times2(xor, p(n));
  }

  /** Doubling `128 + 16 * h + 8 * a + 4 * b + 2 * c + d`. */
  lemma {:induction false} Reduced(p: nat -> nat, xor: (nat, nat) -> nat, n: nat,
                                   h: nat, a: nat, b: nat, c: nat, d: nat)
    requires IsXor(xor) && Doubles(p, xor) && h < 8 && a < 2 && b < 2 && c < 2 && d < 2
    requires p(n) == 128 + 16 * h + 8 * a + 4 * b + 2 * c + d
    ensures p(n + 1) == 32 * h + 16 * (1 - a) + 8 * (1 - b) + 4 * (1 - c) + 2 * d + 1
  {
    assert p(n + 1) == Times2(xor, p(n));
    ReducedSum(xor, h, a, b, c, d);
  }

  lemma {:induction false} ReducedSum(xor: (nat, nat) -> nat, h: nat, a: nat, b: nat, c: nat, d: nat)
    requires IsXor(xor) && h < 8 && a < 2 && b < 2 && c < 2 && d < 2
    ensures xor(256 + 32 * h + 16 * a + 8 * b + 4 * c + 2 * d, 0x11D)
         == 32 * h + 16 * (1 - a) + 8 * (1 - b) + 4 * (1 - c) + 2 * d + 1
  {
    HighBits(xor, h);
    Nibble(xor, 8 + h, 8, a, b, c, d, 1, 1, 1, 0);
    Digit(xor, 128 + 16 * h + 8 * a + 4 * b + 2 * c + d, 142, 0, 1);
  }

  lemma {:induction false} HighBits(xor: (nat, nat) -> nat, h: nat)
    requires IsXor(xor) && h < 8
    ensures xor(8 + h, 8) == h
  {
    var a, b, c := h / 4, h / 2 % 2, h % 2;
    Nibble(xor, 0, 0, 1, a, b, c, 1, 0, 0, 0);
  }

  // ----- powers

  lemma {:induction false} PowersTo8(p: nat -> nat, xor: (nat, nat) -> nat)
    requires IsXor(xor) && Doubles(p, xor)
    ensures p(1) == 2 && p(3) == 8 && p(4) == 16 && p(7) == 128 && p(8) == 29
  {
    Small(p, xor, 0, 1);
    Small(p, xor, 1, 2);
    Small(p, xor, 2, 4);
    Small(p, xor, 3, 8);
    Small(p, xor, 4, 16);
    Small(p, xor, 5, 32);
    Small(p, xor, 6, 64);
    Reduced(p, xor, 7, 0, 0, 0, 0, 0);
  }

  /** x^17 == x^7 + x^4 + x^3 */
  lemma {:induction false} PowersTo17(p: nat -> nat, xor: (nat, nat) -> nat)
    requires IsXor(xor) && Doubles(p, xor)
    ensures p(15) == 38 && p(17) == 152 == xor(xor(p(7), p(4)), p(3))
  {
    PowersTo8(p, xor);
    Small(p, xor, 8, 29);
    Small(p, xor, 9, 58);
    Small(p, xor, 10, 116);
    Reduced(p, xor, 11, 6, 1, 0, 0, 0);
    Reduced(p, xor, 12, 4, 1, 1, 0, 1);
    Reduced(p, xor, 13, 0, 0, 1, 1, 1);
    Small(p, xor, 14, 19);
    Small(p, xor, 15, 38);
    Small(p, xor, 16, 76);
    assert xor(128, 16) == 144 by {
      Nibble(xor, 0, 0, 1, 0, 0, 0, 0, 0, 0, 1);
      Nibble(xor, 8, 1, 0, 0, 0, 0, 0, 0, 0, 0);
    }
    assert xor(144, 8) == 152 by {
      Nibble(xor, 0, 0, 1, 0, 0, 1, 0, 0, 0, 0);
      Nibble(xor, 9, 0, 0, 0, 0, 0, 1, 0, 0, 0);
    }
  }

  ghost predicate Relation17(p: nat -> nat, xor: (nat, nat) -> nat, n: nat)
  {
    p(17 + n) == xor(xor(p(7 + n), p(4 + n)), p(3 + n))
  }

  lemma {:induction false} PowersTo34(p: nat -> nat, xor: (nat, nat) -> nat)
    requires IsXor(xor) && Doubles(p, xor) && Relation17(p, xor, 17)
    ensures p(34) == 78
  {
    PowersTo17(p, xor);
    Reduced(p, xor, 17, 1, 1, 0, 0, 0);
    Small(p, xor, 18, 45);
    Small(p, xor, 19, 90);
    Reduced(p, xor, 20, 3, 0, 1, 0, 0);
    Small(p, xor, 21, 117);
    Reduced(p, xor, 22, 6, 1, 0, 1, 0);
    Reduced(p, xor, 23, 4, 1, 0, 0, 1);
    assert xor(143, 117) == 250 by {
      Nibble(xor, 0, 0, 1, 0, 0, 0, 0, 1, 1, 1);
      Nibble(xor, 8, 7, 1, 1, 1, 1, 0, 1, 0, 1);
    }
    assert xor(250, 180) == 78 by {
      Nibble(xor, 0, 0, 1, 1, 1, 1, 1, 0, 1, 1);
      Nibble(xor, 15, 11, 1, 0, 1, 0, 0, 1, 0, 0);
    }
  }

  /** x^51 == x^3 + x */
  lemma {:induction false} PowersTo51(p: nat -> nat, xor: (nat, nat) -> nat)
    requires IsXor(xor) && Doubles(p, xor) && Relation17(p, xor, 17) && Relation17(p, xor, 34)
    ensures p(35) == 156 && p(37) == 74 && p(51) == 10 == xor(p(3), p(1))
  {
    PowersTo34(p, xor);
    PowersTo8(p, xor);
    Small(p, xor, 34, 78);
    Reduced(p, xor, 35, 1, 1, 1, 0, 0);
    Small(p, xor, 36, 37);
    Small(p, xor, 37, 74);
    Reduced(p, xor, 38, 1, 0, 1, 0, 0);
    Small(p, xor, 39, 53);
    Small(p, xor, 40, 106);
    assert xor(212, 148) == 64 by {
      Nibble(xor, 0, 0, 1, 1, 0, 1, 1, 0, 0, 1);
      Nibble(xor, 13, 9, 0, 1, 0, 0, 0, 1, 0, 0);
    }
    assert xor(64, 74) == 10 by {
      Nibble(xor, 0, 0, 0, 1, 0, 0, 0, 1, 0, 0);
      Nibble(xor, 4, 4, 0, 0, 0, 0, 1, 0, 1, 0);
    }
    assert xor(8, 2) == 10 by {
      Nibble(xor, 0, 0, 1, 0, 0, 0, 0, 0, 1, 0);
    }
  }

  ghost predicate Relation51(p: nat -> nat, xor: (nat, nat) -> nat, n: nat)
  {
    p(51 + n) == xor(p(3 + n), p(1 + n))
  }

  lemma {:induction false} Power85(p: nat -> nat, xor: (nat, nat) -> nat)
    requires IsXor(xor) && Relation51(p, xor, 34) && p(35) == 156 && p(37) == 74
    ensures p(85) == 214
  {
    assert xor(74, 156) == 214 by {
      Nibble(xor, 0, 0, 0, 1, 0, 0, 1, 0, 0, 1);
      Nibble(xor, 4, 9, 1, 0, 1, 0, 1, 1, 0, 0);
    }
  }

  lemma {:induction false} Power102(p: nat -> nat, xor: (nat, nat) -> nat)
    requires IsXor(xor) && Doubles(p, xor) && Relation51(p, xor, 51) && p(51) == 10
    ensures p(102) == 68
  {
    Small(p, xor, 51, 10);
    Small(p, xor, 52, 20);
    Small(p, xor, 53, 40);
    assert xor(80, 20) == 68 by {
      Nibble(xor, 0, 0, 0, 1, 0, 1, 0, 0, 0, 1);
      Nibble(xor, 5, 1, 0, 0, 0, 0, 0, 1, 0, 0);
    }
  }

  lemma {:induction false} Power153(p: nat -> nat, xor: (nat, nat) -> nat)
    requires IsXor(xor) && Doubles(p, xor) && Relation51(p, xor, 102) && p(102) == 68
    ensures p(153) == 146
  {
    Small(p, xor, 102, 68);
    Reduced(p, xor, 103, 0, 1, 0, 0, 0);
    Small(p, xor, 104, 13);
    assert xor(26, 136) == 146 by {
      Nibble(xor, 0, 0, 0, 0, 0, 1, 1, 0, 0, 0);
      Nibble(xor, 1, 8, 1, 0, 1, 0, 1, 0, 0, 0);
    }
  }

  lemma {:induction false} Power204(p: nat -> nat, xor: (nat, nat) -> nat)
    requires IsXor(xor) && Doubles(p, xor) && Relation51(p, xor, 153) && p(153) == 146
    ensures p(204) == 221
  {
    Reduced(p, xor, 153, 1, 0, 0, 1, 0);
    Small(p, xor, 154, 57);
    Small(p, xor, 155, 114);
    assert xor(228, 57) == 221 by {
      Nibble(xor, 0, 0, 1, 1, 1, 0, 0, 0, 1, 1);
      Nibble(xor, 14, 3, 0, 1, 0, 0, 1, 0, 0, 1);
    }
  }

  lemma {:induction false} Power255(p: nat -> nat, xor: (nat, nat) -> nat)
    requires IsXor(xor) && Doubles(p, xor) && Relation51(p, xor, 204) && p(204) == 221
    ensures p(255) == 1
  {
    Reduced(p, xor, 204, 5, 1, 1, 0, 1);
    Reduced(p, xor, 205, 2, 0, 1, 1, 1);
    Small(p, xor, 206, 83);
    assert xor(166, 167) == 1 by {
      Nibble(xor, 0, 0, 1, 0, 1, 0, 1, 0, 1, 0);
      Nibble(xor, 10, 10, 0, 1, 1, 0, 0, 1, 1, 1);
    }
  }

  // ----- the order

  /** Products with powers distribute over `xor`. */
  ghost predicate Distributes(p: nat -> nat, mul: (nat, nat) -> nat, xor: (nat, nat) -> nat)
  {
    && (forall n: nat :: p(n) < 256)
    && (forall a: nat, b: nat :: a < 256 && b < 256 ==> xor(a, b) < 256)
    && (forall a: nat, b: nat, n: nat {:trigger mul(xor(a, b), p(n))} ::
          a < 256 && b < 256 ==> mul(xor(a, b), p(n)) == xor(mul(a, p(n)), mul(b, p(n))))
  }

  lemma {:induction false} Shift2(p: nat -> nat, mul: (nat, nat) -> nat, xor: (nat, nat) -> nat,
                                  s: nat, a: nat, b: nat, n: nat)
    requires ArePowers(p, mul) && Distributes(p, mul, xor) && p(s) == xor(p(a), p(b))
    ensures p(s + n) == xor(p(a + n), p(b + n))
  {
    assert mul(p(s), p(n)) == mul(xor(p(a), p(b)), p(n)) == xor(mul(p(a), p(n)), mul(p(b), p(n)));
  }

  lemma {:induction false} Shift3(p: nat -> nat, mul: (nat, nat) -> nat, xor: (nat, nat) -> nat,
                                  s: nat, a: nat, b: nat, c: nat, n: nat)
    requires ArePowers(p, mul) && Distributes(p, mul, xor) && p(s) == xor(xor(p(a), p(b)), p(c))
    ensures p(s + n) == xor(xor(p(a + n), p(b + n)), p(c + n))
  {
    var ab := xor(p(a), p(b));
    assert mul(p(s), p(n)) == mul(xor(ab, p(c)), p(n)) == xor(mul(ab, p(n)), mul(p(c), p(n)));
    assert mul(ab, p(n)) == xor(mul(p(a), p(n)), mul(p(b), p(n)));
  }

  lemma {:induction false} Order(p: nat -> nat, mul: (nat, nat) -> nat, xor: (nat, nat) -> nat)
    requires IsXor(xor) && Doubles(p, xor) && ArePowers(p, mul) && Distributes(p, mul, xor)
    ensures p(15) == 38 && p(51) == 10 && p(85) == 214 && p(255) == 1
  {
    PowersTo17(p, xor);
    Shift3(p, mul, xor, 17, 7, 4, 3, 17);
    Shift3(p, mul, xor, 17, 7, 4, 3, 34);
    PowersTo51(p, xor);
    Shift2(p, mul, xor, 51, 3, 1, 34);
    Power85(p, xor);
    Shift2(p, mul, xor, 51, 3, 1, 51);
    Power102(p, xor);
    Shift2(p, mul, xor, 51, 3, 1, 102);
    Power153(p, xor);
    Shift2(p, mul, xor, 51, 3, 1, 153);
    Power204(p, xor);
    Shift2(p, mul, xor, 51, 3, 1, 204);
    Power255(p, xor);
  }
}
