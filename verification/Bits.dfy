/** Unsigned machine integers as naturals: shifts, single bits, exclusive or, and
    the big-endian bit strings that `BitBuffer::appendBits` produces. */
module Bits {

  type Byte = n: nat | n < 256

  function Pow2(n: nat): (r: nat)
    ensures r > 0
  {
    if n == 0 then 1 else 2 * Pow2(n - 1)
  }

  /** `x >> n` */
  function Shr(x: nat, n: nat): nat
  {
    if n == 0 then x else Shr(x / 2, n - 1)
  }

  /** `x << n` */
  function Shl(x: nat, n: nat): nat
  {
    if n == 0 then x else 2 * Shl(x, n - 1)
  }

  /** `QrCode::getBit` */
  predicate GetBit(x: nat, i: nat)
  {
    Shr(x, i) % 2 == 1
  }

  /** `a ^ b` */
  function Xor(a: nat, b: nat): nat
    decreases a + b
  {
    if a == 0 then b
    else if b == 0 then a
    else 2 * Xor(a / 2, b / 2) + (a + b) % 2
  }

  /** `a | b` */
  function Or(a: nat, b: nat): nat
    decreases a + b
  {
    if a == 0 then b
    else if b == 0 then a
    else 2 * Or(a / 2, b / 2) + (if a % 2 == 1 || b % 2 == 1 then 1 else 0)
  }

  /** A multiplication by one bit. */
  function Select(bit: bool, x: nat): (r: nat)
    ensures r <= x
  {
    if bit then x else 0
  }

  // ----- shifts

  lemma {:induction false} ShrStep(x: nat, n: nat)
    ensures Shr(x, n + 1) == Shr(x, n) / 2
  {
    if n > 0 { ShrStep(x / 2, n - 1); }
  }

  lemma {:induction false} ShrBound(x: nat, n: nat)
    ensures Shr(x, n) == 0 <==> x < Pow2(n)
  {
    if n > 0 { ShrBound(x / 2, n - 1); }
  }

  lemma {:induction false} ShrShl(a: nat, r: nat, n: nat)
    requires r < Pow2(n)
    ensures Shr(Shl(a, n) + r, n) == a
  {
    if n > 0 { ShrShl(a, r / 2, n - 1); }
  }

  // ----- exclusive or

  lemma {:induction false} XorComm(a: nat, b: nat)
    ensures Xor(a, b) == Xor(b, a)
    decreases a + b
  {
    if a != 0 && b != 0 { XorComm(a / 2, b / 2); }
  }

  lemma {:induction false} XorHalves(a: nat, b: nat)
    ensures Xor(a, b) / 2 == Xor(a / 2, b / 2)
    ensures Xor(a, b) % 2 == (a + b) % 2
  {
  }

  lemma {:induction false} XorParity(a: nat, b: nat, a': nat)
    requires a % 2 == a' % 2
    ensures Xor(a, b) % 2 == (a' + b) % 2
  {
    XorHalves(a, b);
  }

  lemma {:induction false} XorAssoc(a: nat, b: nat, c: nat)
    ensures Xor(Xor(a, b), c) == Xor(a, Xor(b, c))
    decreases a + b + c
  {
    if a != 0 && b != 0 && c != 0 {
      var l, r := Xor(Xor(a, b), c), Xor(a, Xor(b, c));
      assert l / 2 == r / 2 by {
        XorHalves(a, b);
        XorHalves(b, c);
        XorHalves(Xor(a, b), c);
        XorHalves(a, Xor(b, c));
        XorAssoc(a / 2, b / 2, c / 2);
      }
      assert l % 2 == r % 2 by {
        XorParity(Xor(a, b), c, a + b);
        XorParity(a, b, a);
        XorParity(b, c, b);
        XorParity(Xor(b, c), a, b + c);
        XorComm(a, Xor(b, c));
      }
    }
  }

  lemma {:induction false} XorSelf(a: nat)
    ensures Xor(a, a) == 0
  {
    if a != 0 { XorSelf(a / 2); }
  }

  lemma {:induction false} XorDouble(a: nat, b: nat)
    ensures Xor(2 * a, 2 * b) == 2 * Xor(a, b)
  {
  }

  lemma {:induction false} XorBound(a: nat, b: nat, n: nat)
    requires a < Pow2(n) && b < Pow2(n)
    ensures Xor(a, b) < Pow2(n)
  {
    if n > 0 {
      XorBound(a / 2, b / 2, n - 1);
      XorHalves(a, b);
    }
  }

  lemma {:induction false} XorShr(a: nat, b: nat, n: nat)
    ensures Shr(Xor(a, b), n) == Xor(Shr(a, n), Shr(b, n))
  {
    if n > 0 {
      XorHalves(a, b);
      XorShr(a / 2, b / 2, n - 1);
    }
  }

  /** (a ^ b) ^ (c ^ d) == (a ^ c) ^ (b ^ d) */
  lemma {:induction false} XorSwap(a: nat, b: nat, c: nat, d: nat)
    ensures Xor(Xor(a, b), Xor(c, d)) == Xor(Xor(a, c), Xor(b, d))
  {
    calc {
      Xor(Xor(a, b), Xor(c, d));
      { XorAssoc(a, b, Xor(c, d)); XorAssoc(b, c, d); }
      Xor(a, Xor(Xor(b, c), d));
      { XorComm(b, c); XorAssoc(c, b, d); }
      Xor(a, Xor(c, Xor(b, d)));
      { XorAssoc(a, c, Xor(b, d)); }
      Xor(Xor(a, c), Xor(b, d));
    }
  }

  lemma {:induction false} XorEven(p: nat, b: nat)
    requires Xor(p, b / 2) == p + b / 2
    ensures Xor(2 * p, b) == 2 * p + b
  {
    var x, c := Xor(2 * p, b), b / 2;
    XorHalves(2 * p, b);
    assert (2 * p) / 2 == p;
    assert x / 2 == p + c;
    assert x % 2 == (2 * p + b) % 2 == b % 2;
    assert b == 2 * c + b % 2;
  }

  /** Without common bits, exclusive or (and or) is addition. */
  lemma {:induction false} XorDisjoint(a: nat, b: nat, n: nat)
    requires b < Pow2(n)
    ensures Xor(Shl(a, n), b) == Shl(a, n) + b
  {
    if n > 0 {
      var p := Shl(a, n - 1);
      XorDisjoint(a, b / 2, n - 1);
      XorEven(p, b);
    }
  }

  /** One reduction step keeps `n` bits when the polynomial `g` has degree `n`. */
  lemma {:induction false} ReduceBound(z: nat, g: nat, n: nat)
    requires n >= 1 && z < Pow2(n) && Shr(g, n) == 1
    ensures Shr(z, n - 1) <= 1
    ensures Xor(2 * z, Select(Shr(z, n - 1) == 1, g)) < Pow2(n)
  {
    ShrBound(z, n);
    ShrStep(z, n - 1);
    var m := Select(Shr(z, n - 1) == 1, g);
    XorShr(2 * z, m, n);
    XorSelf(1);
    ShrOfZero(n);
    ShrBound(Xor(2 * z, m), n);
  }

  lemma {:induction false} ShrOfZero(n: nat)
    ensures Shr(0, n) == 0
  {
    if n > 0 { ShrOfZero(n - 1); }
  }

  /** High bits and low bits do not interfere. */
  lemma {:induction false} OrDisjoint(a: nat, b: nat, n: nat)
    requires b < Pow2(n)
    ensures Or(Shl(a, n), b) == Shl(a, n) + b
  {
    if n > 0 { OrDisjoint(a, b / 2, n - 1); }
  }

  // ----- big-endian bit strings

  /** The low `len` bits of `v`, most significant first. */
  function BitsOf(v: nat, len: nat): (r: seq<bool>)
    ensures |r| == len
  {
    if len == 0 then [] else BitsOf(v / 2, len - 1) + [v % 2 == 1]
  }

  function ValueOf(bits: seq<bool>): nat
  {
    if bits == [] then 0 else
      var k := |bits| - 1;
      2 * ValueOf(bits[..k]) + if bits[k] then 1 else 0
  }

  lemma {:induction false} ValueOfBitsOf(v: nat, len: nat)
    requires v < Pow2(len)
    ensures ValueOf(BitsOf(v, len)) == v
  {
    if len > 0 {
      ValueOfBitsOf(v / 2, len - 1);
      assert BitsOf(v, len)[..len - 1] == BitsOf(v / 2, len - 1);
    }
  }

  lemma {:induction false} ValueOfBound(bits: seq<bool>)
    ensures ValueOf(bits) < Pow2(|bits|)
  {
    if bits != [] { ValueOfBound(bits[..|bits| - 1]); }
  }

  lemma {:induction false} BitsOfValueOf(bits: seq<bool>)
    ensures BitsOf(ValueOf(bits), |bits|) == bits
  {
    if bits != [] { BitsOfValueOf(bits[..|bits| - 1]); }
  }

  lemma {:induction false} BitsOfEntry(v: nat, len: nat, i: nat)
    requires i < len
    ensures BitsOf(v, len)[i] == GetBit(v, len - 1 - i)
  {
    if i < len - 1 { BitsOfEntry(v / 2, len - 1, i); }
  }

  lemma {:induction false} ValueFromBits(bits: seq<bool>, v: nat)
    requires v < Pow2(|bits|)
    requires forall i :: 0 <= i < |bits| ==> bits[i] == GetBit(v, |bits| - 1 - i)
    ensures ValueOf(bits) == v
  {
    forall i | 0 <= i < |bits| ensures bits[i] == BitsOf(v, |bits|)[i] { BitsOfEntry(v, |bits|, i); }
    assert bits == BitsOf(v, |bits|);
    ValueOfBitsOf(v, |bits|);
  }

  // ----- codewords

  /** The bits of the codewords in the order in which they are placed. */
  function CodewordBits(data: seq<Byte>): (r: seq<bool>)
    ensures |r| == 8 * |data|
  {
    seq(8 * |data|, i requires 0 <= i < 8 * |data| => GetBit(data[i / 8], 7 - i % 8))
  }

  /** The first `k` groups of eight bits as codewords. */
  function PackFirst(bits: seq<bool>, k: nat): (r: seq<Byte>)
    requires 8 * k <= |bits|
    ensures |r| == k
  {
    seq(k, i requires 0 <= i < k => PackByte(bits[8 * i..8 * i + 8]))
  }

  function PackByte(bits: seq<bool>): Byte
    requires |bits| == 8
  {
    ValueOfBound(bits);
    assert Pow2(8) == 256;
    ValueOf(bits)
  }

  lemma {:induction false} GroupIndex(k: nat, t: nat)
    requires t < 8
    ensures (8 * k + t) / 8 == k && (8 * k + t) % 8 == t
  {
  }

  /** Packing bits that begin with those of codewords gives back the codewords. */
  lemma {:induction false} PackCodewordBits(bits: seq<bool>, data: seq<Byte>)
    requires CodewordBits(data) <= bits
    ensures PackFirst(bits, |data|) == data
  {
    forall k | 0 <= k < |data|
      ensures PackByte(bits[8 * k..8 * k + 8]) == data[k]
    {
      PackedGroup(bits[8 * k..8 * k + 8], data, k);
    }
  }

  lemma {:induction false} PackedGroup(group: seq<bool>, data: seq<Byte>, k: nat)
    requires |group| == 8 && k < |data|
    requires forall t :: 0 <= t < 8 ==> group[t] == CodewordBits(data)[8 * k + t]
    ensures PackByte(group) == data[k]
  {
    forall t | 0 <= t < 8 ensures group[t] == GetBit(data[k], 7 - t) { GroupIndex(k, t); }
    assert Pow2(8) == 256;
    ValueFromBits(group, data[k]);
  }

  /** The bits of packed codewords are the bits packed. */
  lemma {:induction false} CodewordBitsPack(bits: seq<bool>, k: nat)
    requires |bits| == 8 * k
    ensures CodewordBits(PackFirst(bits, k)) == bits
  {
    forall i | 0 <= i < |bits|
      ensures CodewordBits(PackFirst(bits, k))[i] == bits[i]
    {
      var j, t := i / 8, i % 8;
      assert i == 8 * j + t;
      PackedBit(bits[8 * j..8 * j + 8], t);
    }
  }

  lemma {:induction false} PackedBit(group: seq<bool>, t: nat)
    requires |group| == 8 && t < 8
    ensures GetBit(PackByte(group), 7 - t) == group[t]
  {
    BitsOfValueOf(group);
    BitsOfEntry(ValueOf(group), |group|, t);
  }
}
