/** Digits packed in groups into bit fields, as in the numeric and alphanumeric modes
    (sections 7.4.3 and 7.4.4 of ISO/IEC 18004). */
module Packing {
  import opened Bits
  import opened Division

  function Power(base: nat, k: nat): nat
  {
    if k == 0 then 1 else Power(base, k - 1) * base
  }

  /** A group of `k` digits to the base takes `widths[k]` bits; a full group has the most digits. */
  datatype Code = Code(base: nat, widths: seq<nat>) {
    /** Every group fits its field, and every field fits `BitBuffer::appendBits`. */
    ghost predicate Valid()
    {
      && base >= 1 && |widths| >= 2
      && forall k :: 0 <= k < |widths| ==> Power(base, k) <= Pow2(widths[k]) && widths[k] <= 31
    }

    function Group(): (g: nat)
      requires |widths| >= 2
      ensures g >= 1
    {
      |widths| - 1
    }

    function First(n: nat): (k: nat)
      requires |widths| >= 2
      ensures n > 0 ==> 1 <= k <= n
      ensures k < |widths|
    {
      if n < Group() then n else Group()
    }
  }

  const DECIMAL := Code(10, [0, 4, 7, 10])
  const BASE45 := Code(45, [0, 6, 11])

  lemma {:induction false} DecimalValid()
    ensures DECIMAL.Valid()
  {
    assert Power(10, 1) == 10 && Power(10, 2) == 100 && Power(10, 3) == 1000;
    assert Pow2(4) == 16 && Pow2(7) == 128 && Pow2(10) == 1024;
  }

  lemma {:induction false} Base45Valid()
    ensures BASE45.Valid()
  {
    assert Power(45, 1) == 45 && Power(45, 2) == 2025;
    assert Pow2(6) == 64 && Pow2(11) == 2048;
  }

  // ----- one group

  function Number(d: seq<nat>, base: nat): nat
  {
    if d == [] then 0 else Number(d[..|d| - 1], base) * base + d[|d| - 1]
  }

  predicate AreDigits(d: seq<nat>, base: nat)
  {
    forall i :: 0 <= i < |d| ==> d[i] < base
  }

  /** The `k` digits of a number, leading zeros included. */
  function Digits(v: nat, base: nat, k: nat): (d: seq<nat>)
    requires base >= 1
    ensures |d| == k
  {
    if k == 0 then [] else Digits(v / base, base, k - 1) + [v % base]
  }

  lemma {:induction false} SplitDigit(n: nat, base: nat, x: nat)
    requires x < base
    ensures (n * base + x) / base == n && (n * base + x) % base == x
  {
    var v := n * base + x;
    DivisionUnique(v, base, v / base, v % base, n, x);
  }

  lemma {:induction false} AppendDigit(n: nat, base: nat, x: nat, p: nat)
    requires x < base && n < p
    ensures n * base + x < p * base
  {
    assert (n + 1) * base <= p * base;
  }

  lemma {:induction false} NumberBound(d: seq<nat>, base: nat)
    requires AreDigits(d, base)
    ensures Number(d, base) < Power(base, |d|)
  {
    if d != [] {
      var k := |d| - 1;
      NumberBound(d[..k], base);
      AppendDigit(Number(d[..k], base), base, d[k], Power(base, k));
    }
  }

  lemma {:induction false} DigitsOfNumber(d: seq<nat>, base: nat)
    requires base >= 1 && AreDigits(d, base)
    ensures Digits(Number(d, base), base, |d|) == d
  {
    if d != [] {
      var k := |d| - 1;
      SplitDigit(Number(d[..k], base), base, d[k]);
      DigitsOfNumber(d[..k], base);
    }
  }

  /** A group of digits fits its field and can be read back from it. */
  lemma {:induction false} GroupFits(d: seq<nat>, c: Code)
    requires c.Valid() && |d| < |c.widths| && AreDigits(d, c.base)
    ensures Number(d, c.base) < Pow2(c.widths[|d|])
    ensures Digits(ValueOf(BitsOf(Number(d, c.base), c.widths[|d|])), c.base, |d|) == d
  {
    NumberBound(d, c.base);
    ValueOfBitsOf(Number(d, c.base), c.widths[|d|]);
    DigitsOfNumber(d, c.base);
  }

  // ----- all groups

  function Packed(d: seq<nat>, c: Code): seq<bool>
    requires |c.widths| >= 2
    decreases |d|
  {
    if d == [] then [] else
      var k := c.First(|d|);
      BitsOf(Number(d[..k], c.base), c.widths[k]) + Packed(d[k..], c)
  }

  function PackedLength(n: nat, c: Code): nat
    requires |c.widths| >= 2
  {
    if n == 0 then 0 else c.widths[c.First(n)] + PackedLength(n - c.First(n), c)
  }

  /** The reader: `n` digits from their fields. */
  function Unpacked(bits: seq<bool>, n: nat, c: Code): (d: seq<nat>)
    requires c.base >= 1 && |c.widths| >= 2 && |bits| == PackedLength(n, c)
    ensures |d| == n
    decreases n
  {
    if n == 0 then [] else
      var k := c.First(n);
      Digits(ValueOf(bits[..c.widths[k]]), c.base, k) + Unpacked(bits[c.widths[k]..], n - k, c)
  }

  lemma {:induction false} PackedHasLength(d: seq<nat>, c: Code)
    requires |c.widths| >= 2
    ensures |Packed(d, c)| == PackedLength(|d|, c)
    decreases |d|
  {
    if d != [] { PackedHasLength(d[c.First(|d|)..], c); }
  }

  /** Digit strings of every length are read back, leading zeros included. */
  lemma {:induction false} UnpackPacked(d: seq<nat>, c: Code)
    requires c.Valid() && AreDigits(d, c.base)
    ensures |Packed(d, c)| == PackedLength(|d|, c) && Unpacked(Packed(d, c), |d|, c) == d
    decreases |d|
  {
    PackedHasLength(d, c);
    if d != [] {
      var k := c.First(|d|);
      GroupFits(d[..k], c);
      UnpackPacked(d[k..], c);
      Split(BitsOf(Number(d[..k], c.base), c.widths[k]), Packed(d[k..], c));
      assert d == d[..k] + d[k..];
    }
  }

  lemma {:induction false} Split(a: seq<bool>, b: seq<bool>)
    ensures (a + b)[..|a|] == a && (a + b)[|a|..] == b
  {
  }

  /** Ten bits for three digits, seven for two and four for one. */
  lemma {:induction false} DecimalLength(n: nat)
    ensures PackedLength(n, DECIMAL) == 10 * (n / 3) + if n % 3 == 0 then 0 else 3 * (n % 3) + 1
  {
    if n >= 3 { DecimalLength(n - 3); }
    else if n == 2 { assert PackedLength(0, DECIMAL) == 0; }
    else if n == 1 { assert PackedLength(0, DECIMAL) == 0; }
  }

  /** Eleven bits for two characters and six for one. */
  lemma {:induction false} Base45Length(n: nat)
    ensures PackedLength(n, BASE45) == 11 * (n / 2) + 6 * (n % 2)
  {
    if n >= 2 { Base45Length(n - 2); }
    else if n == 1 { assert PackedLength(0, BASE45) == 0; }
  }

  // ----- the accumulating loop

  /** All groups but the pending one, of the `count` digits before `i`, have been appended. */
  ghost predicate HasPacked(bits: seq<bool>, c: Code, d: seq<nat>, i: nat, accum: nat, count: nat)
    requires |c.widths| >= 2
  {
    && count <= c.Group() && count <= i <= |d|
    && accum == Number(d[i - count..i], c.base)
    && bits + Packed(d[i - count..], c) == Packed(d, c)
  }

  lemma {:induction false} PackStart(c: Code, d: seq<nat>)
    requires |c.widths| >= 2
    ensures HasPacked([], c, d, 0, 0, 0)
  {
    assert d[0..0] == [] && d[0..] == d;
    assert [] + Packed(d, c) == Packed(d, c);
  }

  /** One more digit of the pending group. */
  lemma {:induction false} PackDigit(bits: seq<bool>, c: Code, d: seq<nat>, i: nat, accum: nat, count: nat)
    requires |c.widths| >= 2 && i < |d| && HasPacked(bits, c, d, i, accum, count) && count < c.Group()
    ensures HasPacked(bits, c, d, i + 1, accum * c.base + d[i], count + 1)
  {
    assert d[i - count..i + 1][..count] == d[i - count..i];
  }

  /** A full group or the incomplete last one is appended to its field, which it fits. */
  lemma {:induction false} Flush(bits: seq<bool>, c: Code, d: seq<nat>, i: nat, accum: nat, count: nat)
    requires c.Valid() && AreDigits(d, c.base) && HasPacked(bits, c, d, i, accum, count)
    requires count == c.Group() || (i == |d| && count > 0)
    ensures accum < Pow2(c.widths[count])
    ensures HasPacked(bits + BitsOf(accum, c.widths[count]), c, d, i, 0, 0)
  {
    var rest := d[i - count..];
    assert rest[..count] == d[i - count..i] && rest[count..] == d[i..];
    GroupFits(d[i - count..i], c);
    AppendField(bits, Packed(d, c), rest, c, accum, count);
    assert d[i - 0..i] == [];
  }

  lemma {:induction false} AppendField(bits: seq<bool>, all: seq<bool>, rest: seq<nat>, c: Code, v: nat, k: nat)
    requires |c.widths| >= 2 && |rest| > 0 && k == c.First(|rest|)
    requires v == Number(rest[..k], c.base) && bits + Packed(rest, c) == all
    ensures bits + BitsOf(v, c.widths[k]) + Packed(rest[k..], c) == all
  {
    Assoc(bits, BitsOf(v, c.widths[k]), Packed(rest[k..], c));
  }

  lemma {:induction false} Assoc(a: seq<bool>, b: seq<bool>, c: seq<bool>)
    ensures a + b + c == a + (b + c)
  {
  }

  lemma {:induction false} AllPacked(bits: seq<bool>, c: Code, d: seq<nat>, accum: nat)
    requires |c.widths| >= 2 && HasPacked(bits, c, d, |d|, accum, 0)
    ensures bits == Packed(d, c)
  {
    assert d[|d| - 0..] == [];
  }
}
