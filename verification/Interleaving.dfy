/** Block split and interleaving (section 7.6 of ISO/IEC 18004), for any error correction codewords. */
module Interleaving {
  import opened Division
  import opened Bits

  /** `blocks` blocks of `ecc` error correction codewords; the first `short` of them hold
      `len` data codewords, the others `len + 1`. */
  datatype Layout = Layout(blocks: nat, short: nat, len: nat, ecc: nat) {

    ghost predicate Valid()
    {
      blocks >= 1 && 1 <= short <= blocks && 1 <= ecc <= 255
    }

    function DataLen(j: nat): nat
    {
      len + if j < short then 0 else 1
    }

    /** Where the data of block `j` starts. */
    function Start(j: nat): nat
    {
      if j == 0 then 0 else Start(j - 1) + DataLen(j - 1)
    }

    /** Columns of the table of blocks, including the one where short blocks are padded. */
    function Width(): nat
    {
      len + 1 + ecc
    }

    /** Whether block `j` has only padding at column `i`. */
    predicate Skipped(i: nat, j: nat)
    {
      i == len && j < short
    }

    /** Codewords emitted before column `i`. */
    function ColumnStart(i: nat): int
    {
      if i == 0 then 0 else ColumnStart(i - 1) + if i - 1 == len then blocks - short else blocks
    }

    /** Where codeword `i` of block `j` is after interleaving. */
    function Position(i: nat, j: nat): int
    {
      ColumnStart(i) + if i == len then j - short else j
    }

    lemma {:induction false} StartMonotone(j: nat, k: nat)
      requires j <= k
      ensures Start(j) <= Start(k)
      decreases k
    {
      if j < k { StartMonotone(j, k - 1); }
    }

    lemma {:induction false} StartClosedForm(j: nat)
      ensures Start(j) == j * len + if j <= short then 0 else j - short
    {
      if j > 0 {
        StartClosedForm(j - 1);
        assert (j - 1) * len + len == j * len;
      }
    }

    lemma {:induction false} ColumnStartClosedForm(i: nat)
      ensures ColumnStart(i) == i * blocks - if i > len then short else 0
    {
      if i > 0 {
        ColumnStartClosedForm(i - 1);
        assert (i - 1) * blocks + blocks == i * blocks;
      }
    }

    lemma {:induction false} ColumnStartMonotone(i: nat, k: nat)
      requires Valid() && i <= k
      ensures 0 <= ColumnStart(i) <= ColumnStart(k)
      decreases k
    {
      if i < k {
        ColumnStartMonotone(i, k - 1);
      } else if i > 0 {
        ColumnStartMonotone(i - 1, i - 1);
      }
    }

    /** All codewords, data and error correction. */
    function Raw(): int
    {
      ColumnStart(Width())
    }

    lemma {:induction false} PositionInRange(i: nat, j: nat)
      requires Valid() && j < blocks && i < Width() && !Skipped(i, j)
      ensures 0 <= Position(i, j) < Raw()
    {
      ColumnStartMonotone(0, i);
      ColumnStartMonotone(i + 1, Width());
    }
  }

  /** The parameter computation of `QrCode::addEccAndInterleave`. */
  function LayoutOf(raw: nat, blocks: nat, ecc: nat): Layout
    requires blocks >= 1 && ecc <= Quot(raw, blocks)
  {
    Layout(blocks, blocks - Rem(raw, blocks), Quot(raw, blocks) - ecc, ecc)
  }

  lemma {:induction false} LayoutSizes(raw: nat, blocks: nat, ecc: nat)
    requires blocks >= 1 && blocks * ecc <= raw
    ensures ecc <= Quot(raw, blocks)
  {
    var s := Quot(raw, blocks);
    QuotRem(raw, blocks);
    if s < ecc {
      MulMonotone(s + 1, ecc, blocks);
    }
  }

  /** The blocks take exactly the data codewords and the table exactly the raw ones. */
  lemma {:induction false} LayoutFits(raw: nat, blocks: nat, ecc: nat)
    requires blocks >= 1 && blocks * ecc <= raw && 1 <= ecc <= 255
    ensures ecc <= Quot(raw, blocks)
    ensures var l := LayoutOf(raw, blocks, ecc);
            l.Valid() && l.Start(blocks) == raw - blocks * ecc && l.Raw() == raw
  {
    LayoutSizes(raw, blocks, ecc);
    var l, s, r := LayoutOf(raw, blocks, ecc), Quot(raw, blocks), Rem(raw, blocks);
    QuotRem(raw, blocks);
    LayoutArithmetic(raw, blocks, ecc, s, r);
    l.StartClosedForm(blocks);
    l.ColumnStartClosedForm(s + 1);
  }

  lemma {:induction false} LayoutArithmetic(raw: int, blocks: int, ecc: int, s: int, r: int)
    requires raw == s * blocks + r
    ensures blocks * (s - ecc) + r == raw - blocks * ecc
    ensures (s + 1) * blocks - (blocks - r) == raw
  {
  }

  // ----- interleaving any table of blocks

  predicate IsTable(l: Layout, bs: seq<seq<Byte>>)
  {
    |bs| == l.blocks && forall j :: 0 <= j < |bs| ==> |bs[j]| == l.Width()
  }

  /** The codewords emitted for column `i` of the first `n` blocks. */
  function Column(l: Layout, bs: seq<seq<Byte>>, i: nat, n: nat): seq<Byte>
    requires IsTable(l, bs) && n <= l.blocks && i < l.Width()
  {
    if n == 0 then [] else Column(l, bs, i, n - 1) + if l.Skipped(i, n - 1) then [] else [bs[n - 1][i]]
  }

  /** The codewords emitted for the first `i` columns. */
  function Columns(l: Layout, bs: seq<seq<Byte>>, i: nat): seq<Byte>
    requires IsTable(l, bs) && i <= l.Width()
  {
    if i == 0 then [] else Columns(l, bs, i - 1) + Column(l, bs, i - 1, l.blocks)
  }

  lemma {:induction false} ColumnLength(l: Layout, bs: seq<seq<Byte>>, i: nat, n: nat)
    requires IsTable(l, bs) && n <= l.blocks && i < l.Width()
    ensures |Column(l, bs, i, n)| == if i != l.len then n else if n <= l.short then 0 else n - l.short
  {
    if n > 0 { ColumnLength(l, bs, i, n - 1); }
  }

  lemma {:induction false} ColumnsLength(l: Layout, bs: seq<seq<Byte>>, i: nat)
    requires l.Valid() && IsTable(l, bs) && i <= l.Width()
    ensures |Columns(l, bs, i)| == l.ColumnStart(i)
  {
    if i > 0 {
      ColumnsLength(l, bs, i - 1);
      ColumnLength(l, bs, i - 1, l.blocks);
    }
  }

  lemma {:induction false} ColumnEntry(l: Layout, bs: seq<seq<Byte>>, i: nat, j: nat, n: nat)
    requires IsTable(l, bs) && j < n <= l.blocks && i < l.Width() && !l.Skipped(i, j)
    ensures var p := |Column(l, bs, i, j)|;
            p < |Column(l, bs, i, n)| && Column(l, bs, i, n)[p] == bs[j][i]
  {
    if j < n - 1 { ColumnEntry(l, bs, i, j, n - 1); }
  }

  /** Every codeword that is not padding is found at its position. */
  lemma {:induction false} ColumnsEntry(l: Layout, bs: seq<seq<Byte>>, i: nat, j: nat, n: nat)
    requires l.Valid() && IsTable(l, bs) && j < l.blocks && i < n <= l.Width() && !l.Skipped(i, j)
    ensures var p := l.Position(i, j);
            0 <= p < |Columns(l, bs, n)| && Columns(l, bs, n)[p] == bs[j][i]
  {
    if i < n - 1 {
      ColumnsEntry(l, bs, i, j, n - 1);
    } else {
      ColumnEntry(l, bs, i, j, l.blocks);
      ColumnLength(l, bs, i, j);
      ColumnsLength(l, bs, i);
    }
  }

  // ----- the blocks of a symbol

  function DataBlock(l: Layout, data: seq<Byte>, j: nat): (b: seq<Byte>)
    requires |data| == l.Start(l.blocks) && j < l.blocks
    ensures |b| == l.DataLen(j)
  {
    l.StartMonotone(j + 1, l.blocks);
    data[l.Start(j)..l.Start(j + 1)]
  }

  /** Error correction codewords for every block. */
  predicate IsEcc(l: Layout, ecc: seq<seq<Byte>>)
  {
    |ecc| == l.blocks && forall j :: 0 <= j < |ecc| ==> |ecc[j]| == l.ecc
  }

  /** The data of block `j`, padding if it is short, and its error correction codewords. */
  function Block(l: Layout, data: seq<Byte>, ecc: seq<seq<Byte>>, j: nat): (b: seq<Byte>)
    requires |data| == l.Start(l.blocks) && IsEcc(l, ecc) && j < l.blocks
    ensures |b| == l.Width()
  {
    DataBlock(l, data, j) + (if j < l.short then [0] else []) + ecc[j]
  }

  function Table(l: Layout, data: seq<Byte>, ecc: seq<seq<Byte>>): (bs: seq<seq<Byte>>)
    requires |data| == l.Start(l.blocks) && IsEcc(l, ecc)
    ensures IsTable(l, bs)
  {
    seq(l.blocks, j requires 0 <= j < l.blocks => Block(l, data, ecc, j))
  }

  function Interleaved(l: Layout, data: seq<Byte>, ecc: seq<seq<Byte>>): seq<Byte>
    requires |data| == l.Start(l.blocks) && IsEcc(l, ecc)
  {
    Columns(l, Table(l, data, ecc), l.Width())
  }

  /** The interleaving loops of `QrCode::addEccAndInterleave`. */
  method InterleaveBlocks(l: Layout, blocks: seq<seq<Byte>>) returns (result: seq<Byte>)
    requires l.Valid() && IsTable(l, blocks)
    ensures result == Columns(l, blocks, l.Width()) && |result| == l.Raw()
  {
    result := [];
    for i := 0 to |blocks[0]|
      invariant result == Columns(l, blocks, i)
    {
      ghost var before := result;
      for j := 0 to |blocks|
        invariant result == before + Column(l, blocks, i, j)
      {
        if i != l.len || j >= l.short {
          result := result + [blocks[j][i]];
        }
      }
    }
    ColumnsLength(l, blocks, l.Width());
  }

  // ----- nothing is lost

  /** The de-interleaver: the data codewords of block `j`. */
  function ReadData(l: Layout, all: seq<Byte>, j: nat): (r: seq<Byte>)
    requires l.Valid() && |all| == l.Raw() && j < l.blocks
    ensures |r| == l.DataLen(j)
  {
    seq(l.DataLen(j), i requires 0 <= i < l.DataLen(j) => l.PositionInRange(i, j); all[l.Position(i, j)])
  }

  /** The de-interleaver: the error correction codewords of block `j`. */
  function ReadEcc(l: Layout, all: seq<Byte>, j: nat): (r: seq<Byte>)
    requires l.Valid() && |all| == l.Raw() && j < l.blocks
    ensures |r| == l.ecc
  {
    seq(l.ecc, i requires 0 <= i < l.ecc =>
      l.PositionInRange(l.len + 1 + i, j); all[l.Position(l.len + 1 + i, j)])
  }

  /** The data codewords of the first `n` blocks. */
  function Deinterleave(l: Layout, all: seq<Byte>, n: nat): seq<Byte>
    requires l.Valid() && |all| == l.Raw() && n <= l.blocks
  {
    if n == 0 then [] else Deinterleave(l, all, n - 1) + ReadData(l, all, n - 1)
  }

  lemma {:induction false} TableEntry(l: Layout, data: seq<Byte>, ecc: seq<seq<Byte>>, i: nat, j: nat)
    requires l.Valid() && |data| == l.Start(l.blocks) && IsEcc(l, ecc)
    requires j < l.blocks && i < l.Width() && !l.Skipped(i, j)
    ensures var all := Interleaved(l, data, ecc); var p := l.Position(i, j);
            0 <= p < |all| && all[p] == Block(l, data, ecc, j)[i]
  {
    ColumnsEntry(l, Table(l, data, ecc), i, j, l.Width());
  }

  lemma {:induction false} InterleavedLength(l: Layout, data: seq<Byte>, ecc: seq<seq<Byte>>)
    requires l.Valid() && |data| == l.Start(l.blocks) && IsEcc(l, ecc)
    ensures |Interleaved(l, data, ecc)| == l.Raw()
  {
    ColumnsLength(l, Table(l, data, ecc), l.Width());
  }

  lemma {:induction false} DataRecovered(l: Layout, data: seq<Byte>, ecc: seq<seq<Byte>>, j: nat)
    requires l.Valid() && |data| == l.Start(l.blocks) && IsEcc(l, ecc) && j < l.blocks
    requires |Interleaved(l, data, ecc)| == l.Raw()
    ensures ReadData(l, Interleaved(l, data, ecc), j) == DataBlock(l, data, j)
  {
    forall i | 0 <= i < l.DataLen(j)
      ensures ReadData(l, Interleaved(l, data, ecc), j)[i] == DataBlock(l, data, j)[i]
    {
      TableEntry(l, data, ecc, i, j);
    }
  }

  lemma {:induction false} EccRecovered(l: Layout, data: seq<Byte>, ecc: seq<seq<Byte>>, j: nat)
    requires l.Valid() && |data| == l.Start(l.blocks) && IsEcc(l, ecc) && j < l.blocks
    requires |Interleaved(l, data, ecc)| == l.Raw()
    ensures ReadEcc(l, Interleaved(l, data, ecc), j) == ecc[j]
  {
    forall i | 0 <= i < l.ecc
      ensures ReadEcc(l, Interleaved(l, data, ecc), j)[i] == ecc[j][i]
    {
      TableEntry(l, data, ecc, l.len + 1 + i, j);
    }
  }

  lemma {:induction false} DeinterleavePrefix(l: Layout, data: seq<Byte>, ecc: seq<seq<Byte>>, n: nat)
    requires l.Valid() && |data| == l.Start(l.blocks) && IsEcc(l, ecc) && n <= l.blocks
    requires |Interleaved(l, data, ecc)| == l.Raw()
    ensures l.Start(n) <= |data| && Deinterleave(l, Interleaved(l, data, ecc), n) == data[..l.Start(n)]
  {
    l.StartMonotone(n, l.blocks);
    if n > 0 {
      DeinterleavePrefix(l, data, ecc, n - 1);
      DataRecovered(l, data, ecc, n - 1);
    }
  }

  /** De-interleaving returns exactly the data codewords, and every block's own error correction. */
  lemma {:induction false} DeinterleaveInverts(l: Layout, data: seq<Byte>, ecc: seq<seq<Byte>>)
    requires l.Valid() && |data| == l.Start(l.blocks) && IsEcc(l, ecc)
    ensures |Interleaved(l, data, ecc)| == l.Raw()
    ensures Deinterleave(l, Interleaved(l, data, ecc), l.blocks) == data
    ensures forall j :: 0 <= j < l.blocks ==> ReadEcc(l, Interleaved(l, data, ecc), j) == ecc[j]
  {
    InterleavedLength(l, data, ecc);
    DeinterleavePrefix(l, data, ecc, l.blocks);
    forall j | 0 <= j < l.blocks
      ensures ReadEcc(l, Interleaved(l, data, ecc), j) == ecc[j]
    {
      EccRecovered(l, data, ecc, j);
    }
  }
}
