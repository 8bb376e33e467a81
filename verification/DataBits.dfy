/** Terminator, padding and packing of the data bit string (sections 7.4.9 and 7.4.10 of ISO/IEC 18004). */
module DataBits {
  import opened Bits
  import opened Packing
  import opened Segments
  import opened SegmentParsing

  // ----- padding

  function Zeros(n: nat): (bits: seq<bool>)
    ensures |bits| == n
  {
    seq(n, _ => false)
  }

  lemma {:induction false} ZeroBits(len: nat)
    ensures BitsOf(0, len) == Zeros(len) && ValueOf(Zeros(len)) == 0
  {
    if len > 0 {
      ZeroBits(len - 1);
      assert Zeros(len) == Zeros(len - 1) + [false];
      assert Zeros(len)[..len - 1] == Zeros(len - 1);
    }
  }

  /** Alternating pad codewords. */
  function PadBytes(n: nat, first: Byte, second: Byte): (data: seq<Byte>)
    ensures |data| == n
  {
    seq(n, i requires 0 <= i < n => if i % 2 == 0 then first else second)
  }

  /** How many zero bits end the data: a terminator of up to four, then the rest of the codeword. */
  function TerminatorLength(used: nat, capacity: nat): (n: nat)
    requires used <= capacity
  {
    var t := if capacity - used < 4 then capacity - used else 4;
    t + (8 - (used + t) % 8) % 8
  }

  /** The terminator ends on a codeword, within the capacity, and is long enough to be recognised. */
  lemma {:induction false} TerminatorFits(used: nat, codewords: nat, n: nat, pads: nat)
    requires used <= 8 * codewords && n == TerminatorLength(used, 8 * codewords)
    requires pads == (8 * codewords - used - n) / 8
    ensures used + n <= 8 * codewords && 8 * codewords - used - n == 8 * pads
    ensures n >= 4 || used + n == 8 * codewords
  {
  }

  /** Everything after the segments in a symbol of so many codewords. */
  function Padding(used: nat, codewords: nat): (tail: seq<bool>)
    requires used <= 8 * codewords
    ensures |tail| == 8 * codewords - used
  {
    var n := TerminatorLength(used, 8 * codewords);
    var pads := (8 * codewords - used - n) / 8;
    TerminatorFits(used, codewords, n, pads);
    Zeros(n) + CodewordBits(PadBytes(pads, 0xEC, 0x11))
  }

  /** A reader stops at the padding. */
  lemma {:induction false} PaddingEnds(used: nat, codewords: nat)
    requires used <= 8 * codewords
    ensures Ends(Padding(used, codewords))
  {
    var n := TerminatorLength(used, 8 * codewords);
    var pads := (8 * codewords - used - n) / 8;
    TerminatorFits(used, codewords, n, pads);
    if n >= 4 {
      assert Padding(used, codewords)[..4] == Zeros(4);
      ZeroBits(4);
    }
  }

  // ----- as the encoder does it

  lemma {:induction false} Alternate(a: nat, b: nat)
    ensures Xor(a, Xor(a, b)) == b && Xor(b, Xor(a, b)) == a
  {
    XorAssoc(a, a, b);
    XorSelf(a);
    XorComm(a, b);
    XorAssoc(b, b, a);
    XorSelf(b);
  }

  lemma {:induction false} PadStep(pads: seq<Byte>, k: nat, before: seq<bool>)
    requires k < |pads|
    ensures before + CodewordBits(pads[..k + 1]) == before + CodewordBits(pads[..k]) + BitsOf(pads[k], 8)
  {
    CodewordBitsSnoc(pads, k);
    Assoc(before, CodewordBits(pads[..k]), BitsOf(pads[k], 8));
  }

  /** The pad loop of `QrCode::encodeSegments`. */
  method AppendPads(bb: BitBuffer, capacity: nat, first: Byte, second: Byte, ghost pads: seq<Byte>)
    requires |bb.bits| + 8 * |pads| == capacity && pads == PadBytes(|pads|, first, second)
    modifies bb
    ensures bb.bits == old(bb.bits) + CodewordBits(pads)
  {
    var padByte := first;
    ghost var k: nat := 0;
    assert pads[..0] == [];
    while |bb.bits| < capacity
      invariant k <= |pads| && bb.bits == old(bb.bits) + CodewordBits(pads[..k])
      invariant padByte == if k % 2 == 0 then first else second
      decreases capacity - |bb.bits|
    {
      PadStep(pads, k, old(bb.bits));
      padByte := AppendPad(bb, padByte, first, second);
      k := k + 1;
    }
    assert pads[..k] == pads;
  }

  /** One pad byte, and the other one for the next time. */
  method AppendPad(bb: BitBuffer, padByte: Byte, first: Byte, second: Byte) returns (next: Byte)
    requires padByte == first || padByte == second
    modifies bb
    ensures bb.bits == old(bb.bits) + BitsOf(padByte, 8)
    ensures next == if padByte == first then second else first
  {
    ByteFits(padByte);
    var ok := bb.AppendBits(padByte, 8);
    Alternate(first, second);
    next := Xor(padByte, Xor(first, second));
  }

  method AppendZeros(bb: BitBuffer, len: nat)
    requires len <= 31
    modifies bb
    ensures bb.bits == old(bb.bits) + Zeros(len)
  {
    ZeroBits(len);
    var ok := bb.AppendBits(0, len);
  }

  /** Terminator and padding of `QrCode::encodeSegments`; its assertions hold. */
  method AddPadding(bb: BitBuffer, codewords: nat)
    requires |bb.bits| <= 8 * codewords
    modifies bb
    ensures bb.bits == old(bb.bits) + Padding(|old(bb.bits)|, codewords)
  {
    ghost var before := bb.bits;
    ghost var n := TerminatorLength(|before|, 8 * codewords);
    ghost var pads := (8 * codewords - |before| - n) / 8;
    TerminatorFits(|before|, codewords, n, pads);
    Terminate(bb, codewords * 8);
    AppendPads(bb, codewords * 8, 0xEC, 0x11, PadBytes(pads, 0xEC, 0x11));
    Assoc(before, Zeros(n), CodewordBits(PadBytes(pads, 0xEC, 0x11)));
  }

  /** Terminator and padding to a codeword. */
  method Terminate(bb: BitBuffer, dataCapacityBits: nat)
    requires |bb.bits| <= dataCapacityBits
    modifies bb
    ensures bb.bits == old(bb.bits) + Zeros(TerminatorLength(|old(bb.bits)|, dataCapacityBits))
  {
    var t := if dataCapacityBits - |bb.bits| < 4 then dataCapacityBits - |bb.bits| else 4;
    AppendZeros(bb, t);
    var z := (8 - |bb.bits| % 8) % 8;
    AppendZeros(bb, z);
  }

  // ----- packing

  /** Setting the bit below those already set. */
  lemma {:induction false} OrBelow(u: nat, b: nat, t: nat)
    requires b <= 1
    ensures Or(Shl(u, t + 1), Shl(b, t)) == Shl(2 * u + b, t)
  {
    if t > 0 { OrBelow(u, b, t - 1); }
  }

  lemma {:induction false} ShlBound(v: nat, t: nat, n: nat)
    requires v < Pow2(t)
    ensures Shl(v, n) < Pow2(t + n)
  {
    if n > 0 { ShlBound(v, t, n - 1); }
  }

  /** The first `t` bits of a codeword in their places. */
  function Partial(bits: seq<bool>): (b: Byte)
    requires |bits| <= 8
  {
    ValueOfBound(bits);
    ShlBound(ValueOf(bits), |bits|, 8 - |bits|);
    assert Pow2(8) == 256;
    Shl(ValueOf(bits), 8 - |bits|)
  }

  lemma {:induction false} PartialStep(bits: seq<bool>)
    requires 0 < |bits| <= 8
    ensures var k := |bits| - 1; Or(Partial(bits[..k]), Shl(if bits[k] then 1 else 0, 7 - k)) == Partial(bits)
  {
    var k := |bits| - 1;
    OrBelow(ValueOf(bits[..k]), if bits[k] then 1 else 0, 7 - k);
  }

  /** The first `t` bits of codeword `j` and all before it are packed. */
  ghost predicate PackedTo(a: seq<Byte>, bits: seq<bool>, j: nat, t: nat)
  {
    && |bits| == 8 * |a| && t <= 8 && j <= |a|
    && (forall m :: 0 <= m < j ==> a[m] == Partial(bits[8 * m..8 * m + 8]))
    && (forall m :: j < m < |a| ==> a[m] == 0)
    && (j < |a| ==> a[j] == Partial(bits[8 * j..8 * j + t]))
  }

  lemma {:induction false} PackStep(a: seq<Byte>, bits: seq<bool>, j: nat, t: nat)
    requires PackedTo(a, bits, j, t) && j < |a| && t < 8
    ensures var v := Or(a[j], Shl(if bits[8 * j + t] then 1 else 0, 7 - t));
            v < 256 && PackedTo(a[j := v], bits, j, t + 1)
  {
    var group := bits[8 * j..8 * j + t + 1];
    assert group[..t] == bits[8 * j..8 * j + t];
    PartialStep(group);
  }

  lemma {:induction false} PackNext(a: seq<Byte>, bits: seq<bool>, j: nat)
    requires PackedTo(a, bits, j, 8) && j < |a|
    ensures PackedTo(a, bits, j + 1, 0)
  {
    assert j + 1 < |a| ==> bits[8 * (j + 1)..8 * (j + 1) + 0] == [];
    ShlZero(8);
  }

  lemma {:induction false} ShlZero(n: nat)
    ensures Shl(0, n) == 0
  {
    if n > 0 { ShlZero(n - 1); }
  }

  lemma {:induction false} PackEmpty(a: seq<Byte>, bits: seq<bool>)
    requires |bits| == 8 * |a| && forall m :: 0 <= m < |a| ==> a[m] == 0
    ensures PackedTo(a, bits, 0, 0)
  {
    assert |a| > 0 ==> bits[8 * 0..8 * 0 + 0] == [];
    ShlZero(8);
  }

  lemma {:induction false} PackDone(a: seq<Byte>, bits: seq<bool>)
    requires PackedTo(a, bits, |a|, 0)
    ensures a == PackFirst(bits, |a|)
  {
  }

  lemma {:induction false} NextBit(i: nat)
    ensures if i % 8 < 7 then (i + 1) / 8 == i / 8 && (i + 1) % 8 == i % 8 + 1
            else (i + 1) / 8 == i / 8 + 1 && (i + 1) % 8 == 0
    ensures i == 8 * (i / 8) + i % 8
  {
  }

  /** The body of the packing loop. */
  method PackBit(a: array<Byte>, bits: seq<bool>, i: nat)
    requires i < |bits| && PackedTo(a[..], bits, i / 8, i % 8)
    modifies a
    ensures PackedTo(a[..], bits, (i + 1) / 8, (i + 1) % 8)
  {
    NextBit(i);
    var j, t := i / 8, i % 8;
    ghost var before := a[..];
    PackStep(before, bits, j, t);
    a[j] := Or(a[j], Shl(if bits[i] then 1 else 0, 7 - t));
    assert a[..] == before[j := a[j]];
    if t == 7 {
      PackNext(a[..], bits, j);
    }
  }

  /** The packing loop of `QrCode::encodeSegments`. */
  method PackCodewords(bits: seq<bool>) returns (dataCodewords: seq<Byte>)
    requires |bits| % 8 == 0
    ensures dataCodewords == PackFirst(bits, |bits| / 8)
  {
    var a := new Byte[|bits| / 8](_ => 0);
    PackEmpty(a[..], bits);
    for i := 0 to |bits|
      invariant PackedTo(a[..], bits, i / 8, i % 8)
    {
      PackBit(a, bits, i);
    }
    PackDone(a[..], bits);
    return a[..];
  }
}
