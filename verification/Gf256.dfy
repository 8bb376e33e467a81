/** The field GF(2^8/0x11D) and the Russian peasant multiplication of the encoder. */
module Gf256 {
  import opened Bits

  const MODULUS := 0x11D

  // ----- reference: polynomials over GF(2), one coefficient per bit

  /** The carry-less product of two bit polynomials. */
  function ClMul(x: nat, y: nat): nat
    decreases y
  {
    if y == 0 then 0 else Xor(2 * ClMul(x, y / 2), Select(y % 2 == 1, x))
  }

  // ----- field operations

  /** Addition (and subtraction). */
  function Add(a: Byte, b: Byte): Byte
  {
    XorBound(a, b, 8);
    assert Pow2(8) == 256;
    Xor(a, b)
  }

  /** Multiplication by x. */
  function Twice(z: Byte): Byte
  {
    TwiceBound(z);
    Xor(2 * z, z / 128 * MODULUS)
  }

  /** What the peasant loop holds after the top `k` bits of `y`. */
  function Peasant(x: Byte, y: Byte, k: nat): Byte
    requires k <= 8
  {
    if k == 0 then 0 else Add(Twice(Peasant(x, y, k - 1)), Select(GetBit(y, 8 - k), x))
  }

  function Mul(x: Byte, y: Byte): Byte
  {
    Peasant(x, y, 8)
  }

  function Pow(x: Byte, n: nat): Byte
  {
    if n == 0 then 1 else Mul(Pow(x, n - 1), x)
  }

  lemma {:induction false} TwiceBound(z: Byte)
    ensures Xor(2 * z, z / 128 * MODULUS) < 256
  {
    ByteShifts(z);
    assert Pow2(8) == 256;
    assert Shr(MODULUS, 8) == 1 by { ShrShl(1, 0x1D, 8); }
    ReduceBound(z, MODULUS, 8);
  }

  lemma {:induction false} ByteShifts(z: nat)
    ensures z < 256 ==> Shr(z, 7) == z / 128
    ensures z < 256 <==> Shr(z, 8) == 0
  {
    assert Pow2(8) == 256 && Pow2(7) == 128;
    ShrBound(z, 8);
    if z < 256 { ShrShl(z / 128, z % 128, 7); }
  }

  /** `QrCode::reedSolomonMultiply`: the loop computes `Mul`, and its final range check never fails. */
  method Multiply(x: Byte, y: Byte) returns (r: Byte)
    ensures r == Mul(x, y)
  {
    var z: nat := 0;
    var i := 7;
    while i >= 0
      invariant -1 <= i <= 7
      invariant z < 256 && z == Peasant(x, y, 7 - i)
    {
      ByteShifts(z);
      z := Xor(2 * z, Shr(z, 7) * MODULUS);
      assert z == Twice(Peasant(x, y, 7 - i));
      z := Xor(z, Shr(y, i) % 2 * x);
      assert z == Peasant(x, y, 8 - i);
      i := i - 1;
    }
    ByteShifts(z);
    assert Shr(z, 8) == 0;
    r := z;
  }

  // ----- the field laws

  lemma {:induction false} AddLaws(a: Byte, b: Byte, c: Byte)
    ensures Add(a, b) == Add(b, a)
    ensures Add(Add(a, b), c) == Add(a, Add(b, c))
    ensures Add(a, a) == 0 && Add(a, 0) == a == Add(0, a)
  {
    XorComm(a, b);
    XorAssoc(a, b, c);
    XorSelf(a);
  }

  /** (a + b) + (c + d) == (a + c) + (b + d) */
  lemma {:induction false} AddSwap(a: Byte, b: Byte, c: Byte, d: Byte)
    ensures Add(Add(a, b), Add(c, d)) == Add(Add(a, c), Add(b, d))
  {
    XorSwap(a, b, c, d);
  }

  lemma {:induction false} TwiceAdd(a: Byte, b: Byte)
    ensures Twice(Add(a, b)) == Add(Twice(a), Twice(b))
  {
    var s := Add(a, b);
    XorDouble(a, b);
    assert Xor(s / 128 * MODULUS, 0) == Xor(a / 128 * MODULUS, b / 128 * MODULUS) by {
      ByteShifts(s);
      ByteShifts(a);
      ByteShifts(b);
      XorShr(a, b, 7);
      XorSelf(MODULUS);
    }
    XorSwap(2 * a, a / 128 * MODULUS, 2 * b, b / 128 * MODULUS);
  }

  lemma {:induction false} PeasantAddLeft(a: Byte, b: Byte, y: Byte, k: nat)
    requires k <= 8
    ensures Peasant(Add(a, b), y, k) == Add(Peasant(a, y, k), Peasant(b, y, k))
  {
    if k > 0 {
      PeasantAddLeft(a, b, y, k - 1);
      var p, q, s := Peasant(a, y, k - 1), Peasant(b, y, k - 1), GetBit(y, 8 - k);
      TwiceAdd(p, q);
      AddSwap(Twice(p), Twice(q), Select(s, a), Select(s, b));
    }
  }

  lemma {:induction false} PeasantTwiceLeft(a: Byte, y: Byte, k: nat)
    requires k <= 8
    ensures Peasant(Twice(a), y, k) == Twice(Peasant(a, y, k))
  {
    if k > 0 {
      PeasantTwiceLeft(a, y, k - 1);
      TwiceAdd(Twice(Peasant(a, y, k - 1)), Select(GetBit(y, 8 - k), a));
    }
  }

  /** Multiplying by `x` commutes with the peasant loop: it is additive and commutes with `Twice`. */
  lemma {:induction false} MulPeasant(a: Byte, b: Byte, x: Byte, k: nat)
    requires k <= 8
    ensures Mul(Peasant(a, b, k), x) == Peasant(Mul(a, x), b, k)
  {
    if k == 0 {
      PeasantZero(x, 8);
    } else {
      var p, s := Peasant(a, b, k - 1), GetBit(b, 8 - k);
      PeasantAddLeft(Twice(p), Select(s, a), x, 8);
      PeasantTwiceLeft(p, x, 8);
      MulPeasant(a, b, x, k - 1);
      PeasantZero(x, 8);
    }
  }

  lemma {:induction false} PeasantZero(y: Byte, k: nat)
    requires k <= 8
    ensures Peasant(0, y, k) == 0
  {
    if k > 0 { PeasantZero(y, k - 1); }
  }

  /** Appending a bit below 128 needs no reduction. */
  lemma {:induction false} AppendBit(p: Byte, b: bool)
    requires p < 128
    ensures Add(Twice(p), Select(b, 1)) == 2 * p + Select(b, 1)
  {
    XorHalves(2 * p, Select(b, 1));
  }

  /** The loop started on 1 rebuilds its multiplier, so 1 is the left identity. */
  lemma {:induction false} PeasantOne(y: Byte, k: nat)
    requires k <= 8
    ensures Peasant(1, y, k) == Shr(y, 8 - k)
  {
    if k == 0 {
      ByteShifts(y);
    } else {
      PeasantOne(y, k - 1);
      ShrStep(y, 8 - k);
      var p := Shr(y, 9 - k);
      assert p < 128 by { ShrLe(y / 2, 8 - k); }
      AppendBit(p, GetBit(y, 8 - k));
    }
  }

  lemma {:induction false} ShrLe(x: nat, n: nat)
    ensures Shr(x, n) <= x
  {
    if n > 0 { ShrLe(x / 2, n - 1); }
  }

  lemma {:induction false} MulOne(y: Byte)
    ensures Mul(1, y) == y == Mul(y, 1)
  {
    PeasantOne(y, 8);
    MulComm(1, y);
  }

  lemma {:induction false} MulComm(x: Byte, y: Byte)
    ensures Mul(x, y) == Mul(y, x)
  {
    PeasantOne(y, 8);
    PeasantOne(x, 8);
    MulPeasant(1, y, x, 8);
  }

  lemma {:induction false} MulAssoc(x: Byte, y: Byte, z: Byte)
    ensures Mul(Mul(x, y), z) == Mul(x, Mul(y, z))
  {
    MulComm(x, y);
    MulPeasant(y, x, z, 8);
    MulComm(Mul(y, z), x);
  }

  lemma {:induction false} MulAdd(x: Byte, y: Byte, z: Byte)
    ensures Mul(Add(x, y), z) == Add(Mul(x, z), Mul(y, z))
    ensures Mul(z, Add(x, y)) == Add(Mul(z, x), Mul(z, y))
  {
    PeasantAddLeft(x, y, z, 8);
    MulComm(z, Add(x, y));
    MulComm(z, x);
    MulComm(z, y);
  }

  lemma {:induction false} MulZero(x: Byte)
    ensures Mul(0, x) == 0 == Mul(x, 0)
  {
    PeasantZero(x, 8);
    MulComm(x, 0);
  }

  // ----- multiplication is the polynomial product modulo 0x11D

  /** `q` with x * (top k bits of y) == q * 0x11D + (loop state), all over GF(2). */
  function Carry(x: Byte, y: Byte, k: nat): nat
    requires k <= 8
  {
    if k == 0 then 0 else 2 * Carry(x, y, k - 1) + Peasant(x, y, k - 1) / 128
  }

  lemma {:induction false} PeasantIsReduction(x: Byte, y: Byte, k: nat)
    requires k <= 8
    ensures ClMul(x, Shr(y, 8 - k)) == Xor(ClMul(MODULUS, Carry(x, y, k)), Peasant(x, y, k))
  {
    if k == 0 {
      ByteShifts(y);
    } else {
      var c, p := ClMul(MODULUS, Carry(x, y, k - 1)), Peasant(x, y, k - 1);
      var s, m := Select(GetBit(y, 8 - k), x), Select(p / 128 == 1, MODULUS);
      calc {
        ClMul(x, Shr(y, 8 - k));
        { ClMulStep(x, Shr(y, 8 - k)); ShrStep(y, 8 - k); }
        Xor(2 * ClMul(x, Shr(y, 9 - k)), s);
        { PeasantIsReduction(x, y, k - 1); }
        Xor(2 * Xor(c, p), s);
        { ReductionStep(c, p, s); }
        Xor(Xor(2 * c, m), Xor(Twice(p), s));
        { ClMulStep(MODULUS, Carry(x, y, k)); }
        Xor(ClMul(MODULUS, Carry(x, y, k)), Peasant(x, y, k));
      }
    }
  }

  lemma {:induction false} ReductionStep(c: nat, p: Byte, s: nat)
    ensures Xor(2 * Xor(c, p), s) == Xor(Xor(2 * c, Select(p / 128 == 1, MODULUS)), Xor(Twice(p), s))
  {
    var m := Select(p / 128 == 1, MODULUS);
    calc {
      Xor(Xor(2 * c, m), Xor(Xor(2 * p, m), s));
      { XorAssoc(Xor(2 * c, m), Xor(2 * p, m), s); }
      Xor(Xor(Xor(2 * c, m), Xor(2 * p, m)), s);
      { XorSwap(2 * c, m, 2 * p, m); XorSelf(m); }
      Xor(Xor(2 * c, 2 * p), s);
      { XorDouble(c, p); }
      Xor(2 * Xor(c, p), s);
    }
  }

  lemma {:induction false} ClMulStep(x: nat, y: nat)
    ensures ClMul(x, y) == Xor(2 * ClMul(x, y / 2), Select(y % 2 == 1, x))
  {
  }

  /** The product of the two bit polynomials leaves remainder `Mul(x, y)` modulo x^8+x^4+x^3+x^2+1. */
  lemma {:induction false} MulIsPolynomialProduct(x: Byte, y: Byte)
    ensures exists q: nat :: ClMul(x, y) == Xor(ClMul(0x11D, q), Mul(x, y))
  {
    PeasantIsReduction(x, y, 8);
  }
}
