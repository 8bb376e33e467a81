/** 2 generates the multiplicative group of GF(2^8/0x11D). */
module FieldOrder {
  import opened Bits
  import opened Gf256
  import Exponents
  import FieldPowers

  ghost function Powers(): nat -> nat
  {
    (n: nat) => Pow(2, n)
  }

  ghost function Product(): (nat, nat) -> nat
  {
    (a: nat, b: nat) => if a < 256 && b < 256 then Mul(a, b) else 0
  }

  ghost function Sum(): (nat, nat) -> nat
  {
    (a: nat, b: nat) => Xor(a, b)
  }

  lemma {:induction false} PowAdd(x: Byte, a: nat, b: nat)
    ensures Pow(x, a + b) == Mul(Pow(x, a), Pow(x, b))
  {
    if b == 0 {
      MulOne(Pow(x, a));
    } else {
      PowAdd(x, a, b - 1);
      MulAssoc(Pow(x, a), Pow(x, b - 1), x);
      assert Pow(x, a + b) == Mul(Pow(x, a + (b - 1)), x);
    }
  }

  lemma {:induction false} PowTwice(n: nat)
    ensures Pow(2, n + 1) == Twice(Pow(2, n))
  {
    var y := Pow(2, n);
    assert Twice(1) == 2;
    PeasantTwiceLeft(1, y, 8);
    MulOne(y);
    MulComm(y, 2);
  }

  lemma {:induction false} AddDigit(a: nat, b: nat, i: nat, j: nat)
    requires i < 2 && j < 2
    ensures Xor(2 * a + i, 2 * b + j) == 2 * Xor(a, b) + FieldPowers.Plus(i, j)
  {
    var c, d := 2 * a + i, 2 * b + j;
    assert c / 2 == a && d / 2 == b && (c + d) % 2 == FieldPowers.Plus(i, j);
    XorHalves(c, d);
  }

  lemma {:induction false} SumIsXor()
    ensures FieldPowers.IsXor(Sum())
  {
    forall a: nat, b: nat, i: nat, j: nat | FieldPowers.AreBits(a, b, i, j)
      ensures Sum()(2 * a + i, 2 * b + j) == 2 * Sum()(a, b) + FieldPowers.Plus(i, j)
    {
      AddDigit(a, b, i, j);
    }
  }

  lemma {:induction false} PowersDouble()
    ensures FieldPowers.Doubles(Powers(), Sum())
  {
    forall n: nat
      ensures Powers()(n + 1) == FieldPowers.Times2(Sum(), Powers()(n))
    {
      PowTwice(n);
    }
  }

  lemma {:induction false} PowersMultiply()
    ensures Exponents.ArePowers(Powers(), Product())
  {
    forall a: nat, b: nat
      ensures Product()(Powers()(a), Powers()(b)) == Powers()(a + b)
    {
      PowAdd(2, a, b);
    }
  }

  lemma {:induction false} ProductDistributes()
    ensures FieldPowers.Distributes(Powers(), Product(), Sum())
  {
    forall a: nat, b: nat | a < 256 && b < 256
      ensures Sum()(a, b) < 256
    {
      assert Sum()(a, b) == Add(a, b);
    }
    forall a: nat, b: nat, n: nat | a < 256 && b < 256
      ensures Product()(Sum()(a, b), Powers()(n))
           == Sum()(Product()(a, Powers()(n)), Product()(b, Powers()(n)))
    {
      MulAdd(a, b, Pow(2, n));
    }
  }

  /** The first 255 powers of 2 are different: so are the roots of every generator of degree up to 255. */
  lemma {:induction false} PowersDistinct(i: nat, j: nat)
    requires i < j < 255
    ensures Pow(2, i) != Pow(2, j)
  {
    SumIsXor();
    PowersDouble();
    PowersMultiply();
    ProductDistributes();
    FieldPowers.Order(Powers(), Product(), Sum());
    Exponents.Order255(Powers(), Product(), i, j);
  }
}
