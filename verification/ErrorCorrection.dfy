/** Error correction of a whole symbol: every block gets its Reed-Solomon codewords. */
module ErrorCorrection {
  import opened Division
  import opened Bits
  import opened Gf256
  import opened Polynomials
  import opened ReedSolomon
  import opened Interleaving

  function BlockEcc(dat: seq<Byte>, n: nat): (ecc: seq<Byte>)
    requires n >= 1
    ensures |ecc| == n
  {
    Remainder(dat, Generator(n)[1..])
  }

  /** The error correction codewords of all blocks. */
  function EccBlocks(l: Layout, data: seq<Byte>): (ecc: seq<seq<Byte>>)
    requires l.Valid() && |data| == l.Start(l.blocks)
    ensures IsEcc(l, ecc)
  {
    seq(l.blocks, j requires 0 <= j < l.blocks => BlockEcc(DataBlock(l, data, j), l.ecc))
  }

  /** All codewords of the symbol in placement order. */
  function Encoded(l: Layout, data: seq<Byte>): seq<Byte>
    requires l.Valid() && |data| == l.Start(l.blocks)
  {
    Interleaved(l, data, EccBlocks(l, data))
  }

  /** The body of the split loop of `QrCode::addEccAndInterleave`. */
  method MakeBlock(l: Layout, data: seq<Byte>, i: nat, k: nat, rsDiv: Poly) returns (dat: seq<Byte>, next: nat)
    requires l.Valid() && |data| == l.Start(l.blocks) && i < l.blocks && k == l.Start(i)
    requires rsDiv == Generator(l.ecc)[1..]
    ensures dat == Block(l, data, EccBlocks(l, data), i) && next == l.Start(i + 1)
  {
    l.StartMonotone(i + 1, l.blocks);
    dat := data[k..k + l.len + if i < l.short then 0 else 1];
    next := k + |dat|;
    assert dat == DataBlock(l, data, i);
    var ecc := ComputeRemainder(dat, rsDiv);
    if i < l.short {
      dat := dat + [0];
    }
    dat := dat + ecc.value;
  }

  lemma {:induction false} TableStep(l: Layout, data: seq<Byte>, table: seq<seq<Byte>>, i: nat, block: seq<Byte>)
    requires l.Valid() && |data| == l.Start(l.blocks) && table == Table(l, data, EccBlocks(l, data)) && i < l.blocks
    requires block == Block(l, data, EccBlocks(l, data), i)
    ensures table[..i + 1] == table[..i] + [block]
  {
  }

  /** The split loop of `QrCode::addEccAndInterleave`. */
  method SplitBlocks(l: Layout, data: seq<Byte>) returns (blocks: seq<seq<Byte>>)
    requires l.Valid() && |data| == l.Start(l.blocks)
    ensures blocks == Table(l, data, EccBlocks(l, data))
  {
    blocks := [];
    ghost var table := Table(l, data, EccBlocks(l, data));
    var rsDiv := ComputeDivisor(l.ecc);
    var k := 0;
    for i := 0 to l.blocks
      invariant k == l.Start(i) && blocks == table[..i]
    {
      var dat, next := MakeBlock(l, data, i, k, rsDiv.value);
      TableStep(l, data, table, i, dat);
      blocks := blocks + [dat];
      k := next;
    }
  }

  /** `QrCode::addEccAndInterleave` once its parameters are looked up. */
  method AddEccAndInterleave(raw: nat, numBlocks: nat, blockEccLen: nat, data: seq<Byte>) returns (result: seq<Byte>)
    requires numBlocks >= 1 && 1 <= blockEccLen <= 255 && numBlocks * blockEccLen <= raw
    requires |data| == raw - numBlocks * blockEccLen
    ensures blockEccLen <= Quot(raw, numBlocks)
    ensures var l := LayoutOf(raw, numBlocks, blockEccLen);
            l.Valid() && |data| == l.Start(numBlocks) && result == Encoded(l, data)
    ensures |result| == raw
  {
    LayoutFits(raw, numBlocks, blockEccLen);
    QuotIsDivision(raw, numBlocks);
    var numShortBlocks := numBlocks - raw % numBlocks;
    var shortBlockLen := raw / numBlocks;
    var l := Layout(numBlocks, numShortBlocks, shortBlockLen - blockEccLen, blockEccLen);
    var blocks := SplitBlocks(l, data);
    result := InterleaveBlocks(l, blocks);
  }

  /** Every block read back is a Reed-Solomon codeword. */
  lemma {:induction false} BlockIsCodeword(l: Layout, data: seq<Byte>, j: nat, i: nat)
    requires l.Valid() && |data| == l.Start(l.blocks) && j < l.blocks && i < l.ecc
    requires |Encoded(l, data)| == l.Raw()
    ensures Eval(ReadData(l, Encoded(l, data), j) + ReadEcc(l, Encoded(l, data), j), Pow(2, i)) == 0
  {
    var ecc := EccBlocks(l, data);
    DataRecovered(l, data, ecc, j);
    EccRecovered(l, data, ecc, j);
    CodewordRoots(DataBlock(l, data, j), l.ecc, i);
  }
}
