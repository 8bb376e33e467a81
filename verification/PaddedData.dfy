/** What the data codewords are, bit by bit before the padding and byte by byte in it. */
module PaddedData {
  import opened Bits
  import opened Segments
  import opened DataBits
  import opened Encoder

  lemma {:induction false} PadsBegin(used: nat, codewords: nat, t: nat, start: nat)
    requires used <= 8 * codewords && t == (if 8 * codewords - used < 4 then 8 * codewords - used else 4)
    requires start == (used + t + 7) / 8
    ensures start <= codewords && used + TerminatorLength(used, 8 * codewords) == 8 * start
  {
    RoundUp(used + t, start);
  }

  lemma {:induction false} RoundUp(s: nat, start: nat)
    requires start == (s + 7) / 8
    ensures 8 * start == s + (8 - s % 8) % 8
  {
    var q, r := s / 8, s % 8;
    assert s == 8 * q + r;
    if r == 0 {
      assert start == q;
    } else {
      assert start == q + 1;
    }
  }

  lemma {:induction false} PadByte(bits: seq<bool>, start: nat, pads: seq<Byte>, i: nat, codewords: nat)
    requires |bits| == 8 * codewords && start + |pads| == codewords && bits[8 * start..] == CodewordBits(pads)
    requires i < |pads|
    ensures PackFirst(bits, codewords)[start + i] == pads[i]
  {
    var k := start + i;
    var group := bits[8 * k..8 * k + 8];
    forall t | 0 <= t < 8
      ensures group[t] == CodewordBits(pads)[8 * i + t]
    {
      assert group[t] == bits[8 * start..][8 * i + t];
    }
    PackedGroup(group, pads, i);
  }

  /** The stream, at most four zero bits and those that complete the codeword, and then the pad codewords 0xEC and 0x11
      in turn. */
  lemma {:induction false} DataIs(stream: seq<bool>, codewords: nat, t: nat, start: nat)
    requires |stream| <= 8 * codewords
    requires t == (if 8 * codewords - |stream| < 4 then 8 * codewords - |stream| else 4)
    requires start == (|stream| + t + 7) / 8
    ensures start <= codewords
    ensures var bits := CodewordBits(DataFor(stream, codewords));
            bits[..|stream|] == stream && forall k :: |stream| <= k < 8 * start ==> !bits[k]
    ensures forall i :: start <= i < codewords ==>
              DataFor(stream, codewords)[i] == if (i - start) % 2 == 0 then 0xEC else 0x11
  {
    var n := TerminatorLength(|stream|, 8 * codewords);
    var pads := PadBytes(codewords - start, 0xEC, 0x11);
    var bits := stream + Padding(|stream|, codewords);
    PadsBegin(|stream|, codewords, t, start);
    CodewordBitsPack(bits, codewords);
    assert Padding(|stream|, codewords) == Zeros(n) + CodewordBits(pads);
    BitsAre(stream, n, CodewordBits(pads), bits, start);
    forall i | start <= i < codewords
      ensures DataFor(stream, codewords)[i] == if (i - start) % 2 == 0 then 0xEC else 0x11
    {
      PadByte(bits, start, pads, i - start, codewords);
    }
  }

  lemma {:induction false} BitsAre(stream: seq<bool>, n: nat, pads: seq<bool>, bits: seq<bool>, start: nat)
    requires bits == stream + (Zeros(n) + pads) && |stream| + n == 8 * start
    ensures bits[..|stream|] == stream && bits[8 * start..] == pads
    ensures forall k :: |stream| <= k < 8 * start ==> !bits[k]
  {
  }
}
