/** What the finder, alignment and timing patterns of the finished symbol look like. */
module PatternShapes {
  import opened Wrappers
  import opened Bits
  import opened Versions
  import opened Zigzag
  import opened FunctionPatterns
  import opened FormatInfo
  import opened Penalty
  import opened Symbols

  // ----- fixed modules

  /** Timing, finder and alignment modules that hold no bit have their colour in the finished symbol. */
  lemma {:induction false} StaticKept(ver: int, ecl: Ecc, codewords: seq<Byte>, msk: nat, n: nat, c: Cell)
    requires ver >= 1 && msk < 8 && n == SizeOf(ver) && InGrid(c, n)
    requires IsTiming(c) || FinderAt(n, c).Some? || AlignmentAt(ver, c).Some?
    requires FormatIndex(n, c).None? && VersionIndex(ver, c).None?
    ensures At(Symbol(ver, ecl, codewords, msk), n, c) == StaticColour(ver, c)
  {
    FunctionGridCells(ver);
    PatternGridCells(ver, ecl);
    PatternKept(ver, ecl, codewords, msk, n, c);
  }

  /** Near the edges only the first and the last alignment position can be close. */
  lemma {:induction false} NearEdge(ver: int, x: int)
    requires 2 <= ver <= MAX_VERSION
    ensures x <= 8 ==> AxisIndex(ver, x, AlignCount(ver)) <= 0
    ensures x >= SizeOf(ver) - 8 ==> AxisIndex(ver, x, AlignCount(ver)) in {-1, AlignCount(ver) - 1}
  {
    var k := AlignCount(ver);
    var i := AxisIndex(ver, x, k);
    AlignmentSpacing(ver);
    if i >= 0 {
      AxisIndexUnique(ver, x, i, k);
      if x <= 8 && i > 0 { AlignOrder(ver, 0, i); }
      if x >= SizeOf(ver) - 8 && i < k - 1 { AlignOrder(ver, i, k - 1); }
    }
  }

  predicate IsFinder(n: int, centre: Cell)
  {
    centre == (3, 3) || centre == (n - 4, 3) || centre == (3, n - 4)
  }

  lemma {:induction false} NoAlignmentOnFinder(ver: int, centre: Cell, c: Cell)
    requires 1 <= ver <= MAX_VERSION && IsFinder(SizeOf(ver), centre) && Within(c, centre, 4)
    ensures AlignmentAt(ver, c).None?
  {
    if ver >= 2 {
      NearEdge(ver, c.0);
      NearEdge(ver, c.1);
    }
  }

  lemma {:induction false} FinderModule(ver: int, ecl: Ecc, codewords: seq<Byte>, msk: nat, n: nat, centre: Cell,
                                        c: Cell)
    requires 1 <= ver <= MAX_VERSION && msk < 8 && n == SizeOf(ver)
    requires IsFinder(n, centre) && Within(c, centre, 4) && InGrid(c, n)
    ensures At(Symbol(ver, ecl, codewords, msk), n, c) == FinderColour(centre, c)
  {
    NoAlignmentOnFinder(ver, centre, c);
    FindersApart(n, (n - 4, 3), (3, n - 4));
    assert FinderAt(n, c) == Some(centre);
    StaticKept(ver, ecl, codewords, msk, n, c);
  }

  // ----- shapes

  /** Runs of the lengths 1:1:3:1:1 and 1:1:1:1:1, beginning black. */
  const FINDER_RUNS := [0, 1, 1, 3, 1, 1]
  const ALIGNMENT_RUNS := [0, 1, 1, 1, 1, 1]

  lemma {:induction false} SpellFive(a: nat, b: nat, c: nat, d: nat, e: nat)
    ensures Expand([0, a, b, c, d, e])
            == Repeat(a, true) + Repeat(b, false) + Repeat(c, true) + Repeat(d, false) + Repeat(e, true)
  {
    assert [0, a, b, c, d, e] == [] + [0] + [a] + [b] + [c] + [d] + [e];
    ExpandSnoc([], 0);
    ExpandSnoc([] + [0], a);
    ExpandSnoc([] + [0] + [a], b);
    ExpandSnoc([] + [0] + [a] + [b], c);
    ExpandSnoc([] + [0] + [a] + [b] + [c], d);
    ExpandSnoc([] + [0] + [a] + [b] + [c] + [d], e);
    assert [] + Repeat(0, false) + Repeat(a, true) == Repeat(a, true);
  }

  lemma {:induction false} SpelledShapes()
    ensures Expand(FINDER_RUNS) == [true, false, true, true, true, false, true]
    ensures Expand(ALIGNMENT_RUNS) == [true, false, true, false, true]
  {
    SpellFive(1, 1, 3, 1, 1);
    SpellFive(1, 1, 1, 1, 1);
    assert Repeat(1, true) == [true] && Repeat(1, false) == [false] && Repeat(3, true) == [true, true, true];
  }

  /** The modules from `c` on to the right, and downwards. */
  ghost predicate RowReads(m: Grid, n: nat, c: Cell, line: seq<bool>)
    requires IsGrid(m, n)
  {
    forall i :: 0 <= i < |line| ==> InGrid((c.0 + i, c.1), n) && At(m, n, (c.0 + i, c.1)) == line[i]
  }

  ghost predicate ColumnReads(m: Grid, n: nat, c: Cell, line: seq<bool>)
    requires IsGrid(m, n)
  {
    forall i :: 0 <= i < |line| ==> InGrid((c.0, c.1 + i), n) && At(m, n, (c.0, c.1 + i)) == line[i]
  }

  /** All modules of one ring around the middle, up to the given one, have one colour. */
  ghost predicate HasRings(m: Grid, n: nat, centre: Cell, r: nat)
    requires IsGrid(m, n)
  {
    forall c: Cell :: InGrid(c, n) && Dist(c, centre) <= r ==>
      InGrid((centre.0 - Dist(c, centre), centre.1), n) &&
      At(m, n, c) == At(m, n, (centre.0 - Dist(c, centre), centre.1))
  }

  /** The row and the column through the middle of a finder pattern have the runs 1:1:3:1:1, and all modules of one
      ring around the middle have one colour; the outermost ring, as far as it is in the symbol, is white. */
  lemma {:induction false} FinderShape(ver: int, ecl: Ecc, codewords: seq<Byte>, msk: nat, n: nat, centre: Cell)
    requires 1 <= ver <= MAX_VERSION && msk < 8 && n == SizeOf(ver) && IsFinder(n, centre)
    ensures RowReads(Symbol(ver, ecl, codewords, msk), n, (centre.0 - 3, centre.1), Expand(FINDER_RUNS))
    ensures ColumnReads(Symbol(ver, ecl, codewords, msk), n, (centre.0, centre.1 - 3), Expand(FINDER_RUNS))
    ensures HasRings(Symbol(ver, ecl, codewords, msk), n, centre, 3)
    ensures forall c: Cell :: InGrid(c, n) && Dist(c, centre) == 4 ==> !At(Symbol(ver, ecl, codewords, msk), n, c)
  {
    var m := Symbol(ver, ecl, codewords, msk);
    forall c: Cell | InGrid(c, n) && Within(c, centre, 4)
      ensures At(m, n, c) == FinderColour(centre, c)
    {
      FinderModule(ver, ecl, codewords, msk, n, centre, c);
    }
    FinderColours(m, n, centre);
  }

  lemma {:induction false} FinderColours(m: Grid, n: nat, centre: Cell)
    requires IsGrid(m, n) && n >= 21 && IsFinder(n, centre)
    requires forall c: Cell :: InGrid(c, n) && Within(c, centre, 4) ==> At(m, n, c) == FinderColour(centre, c)
    ensures RowReads(m, n, (centre.0 - 3, centre.1), Expand(FINDER_RUNS))
    ensures ColumnReads(m, n, (centre.0, centre.1 - 3), Expand(FINDER_RUNS))
    ensures HasRings(m, n, centre, 3)
    ensures forall c: Cell :: InGrid(c, n) && Dist(c, centre) == 4 ==> !At(m, n, c)
  {
    FinderLines(m, n, centre);
  }

  lemma {:induction false} FinderLines(m: Grid, n: nat, centre: Cell)
    requires IsGrid(m, n) && n >= 21 && IsFinder(n, centre)
    requires forall c: Cell :: InGrid(c, n) && Within(c, centre, 4) ==> At(m, n, c) == FinderColour(centre, c)
    ensures RowReads(m, n, (centre.0 - 3, centre.1), Expand(FINDER_RUNS))
    ensures ColumnReads(m, n, (centre.0, centre.1 - 3), Expand(FINDER_RUNS))
  {
    SpelledShapes();
  }

  lemma {:induction false} AlignmentModule(ver: int, ecl: Ecc, codewords: seq<Byte>, msk: nat, n: nat, i: nat, j: nat,
                                           c: Cell)
    requires 2 <= ver <= MAX_VERSION && msk < 8 && n == SizeOf(ver) && DrawnAlignment(ver, i, j)
    requires Within(c, (AlignPos(ver, i), AlignPos(ver, j)), 2)
    ensures var centre := (AlignPos(ver, i), AlignPos(ver, j));
            InGrid(c, n) && At(Symbol(ver, ecl, codewords, msk), n, c) == AlignmentColour(centre, c)
  {
    AlignmentSpacing(ver);
    AlignInside(ver, i);
    AlignInside(ver, j);
    PatternCells(ver, i, j);
    assert AlignmentAt(ver, c) == Some((AlignPos(ver, i), AlignPos(ver, j)));
    NoBitOnAlignment(ver, n, i, j, c);
    StaticKept(ver, ecl, codewords, msk, n, c);
  }

  /** Alignment patterns are clear of format and version information. */
  lemma {:induction false} NoBitOnAlignment(ver: int, n: int, i: nat, j: nat, c: Cell)
    requires 2 <= ver <= MAX_VERSION && n == SizeOf(ver) && DrawnAlignment(ver, i, j)
    requires Within(c, (AlignPos(ver, i), AlignPos(ver, j)), 2)
    ensures FormatIndex(n, c).None? && VersionIndex(ver, c).None?
  {
    var k := AlignCount(ver);
    AlignmentSpacing(ver);
    PatternCells(ver, i, j);
    NearEdge(ver, c.0);
    NearEdge(ver, c.1);
    if i > 0 { AlignOrder(ver, 0, i); }
    if j > 0 { AlignOrder(ver, 0, j); }
    if i < k - 1 { AlignOrder(ver, i, k - 1); }
    if j < k - 1 { AlignOrder(ver, j, k - 1); }
  }

  /** The row and the column through the middle of an alignment pattern have the runs 1:1:1:1:1, and all modules of
      one ring around the middle have one colour. */
  lemma {:induction false} AlignmentShape(ver: int, ecl: Ecc, codewords: seq<Byte>, msk: nat, n: nat, i: nat, j: nat)
    requires 2 <= ver <= MAX_VERSION && msk < 8 && n == SizeOf(ver) && DrawnAlignment(ver, i, j)
    ensures var m, x, y := Symbol(ver, ecl, codewords, msk), AlignPos(ver, i), AlignPos(ver, j);
            && RowReads(m, n, (x - 2, y), Expand(ALIGNMENT_RUNS))
            && ColumnReads(m, n, (x, y - 2), Expand(ALIGNMENT_RUNS)) && HasRings(m, n, (x, y), 2)
  {
    var m, centre := Symbol(ver, ecl, codewords, msk), (AlignPos(ver, i), AlignPos(ver, j));
    forall c: Cell | Within(c, centre, 2)
      ensures InGrid(c, n) && At(m, n, c) == AlignmentColour(centre, c)
    {
      AlignmentModule(ver, ecl, codewords, msk, n, i, j, c);
    }
    AlignmentColours(m, n, centre);
  }

  lemma {:induction false} AlignmentColours(m: Grid, n: nat, centre: Cell)
    requires IsGrid(m, n)
    requires forall c: Cell :: Within(c, centre, 2) ==> InGrid(c, n) && At(m, n, c) == AlignmentColour(centre, c)
    ensures RowReads(m, n, (centre.0 - 2, centre.1), Expand(ALIGNMENT_RUNS))
    ensures ColumnReads(m, n, (centre.0, centre.1 - 2), Expand(ALIGNMENT_RUNS))
    ensures HasRings(m, n, centre, 2)
  {
    SpelledShapes();
  }

  // ----- timing

  lemma {:induction false} AlignPosEven(ver: int, i: nat)
    requires 2 <= ver <= MAX_VERSION && i < AlignCount(ver)
    ensures AlignPos(ver, i) % 2 == 0
    decreases AlignCount(ver) - i
  {
    if 0 < i < AlignCount(ver) - 1 { AlignPosEven(ver, i + 1); }
  }

  lemma {:induction false} TimingCell(ver: int, ecl: Ecc, codewords: seq<Byte>, msk: nat, n: nat, x: int, c: Cell)
    requires 1 <= ver <= MAX_VERSION && msk < 8 && n == SizeOf(ver) && 8 <= x < n - 8 && (c == (x, 6) || c == (6, x))
    ensures At(Symbol(ver, ecl, codewords, msk), n, c) == StaticColour(ver, c)
  {
    StaticKept(ver, ecl, codewords, msk, n, c);
  }

  /** Between the finder patterns the timing row and column alternate, beginning black, also where alignment patterns
      cross them. */
  lemma {:induction false} TimingShape(ver: int, ecl: Ecc, codewords: seq<Byte>, msk: nat, n: nat, x: int)
    requires 1 <= ver <= MAX_VERSION && msk < 8 && n == SizeOf(ver) && 8 <= x < n - 8
    ensures At(Symbol(ver, ecl, codewords, msk), n, (x, 6)) == (x % 2 == 0)
    ensures At(Symbol(ver, ecl, codewords, msk), n, (6, x)) == (x % 2 == 0)
  {
    TimingModule(ver, x);
    TimingCell(ver, ecl, codewords, msk, n, x, (x, 6));
    TimingCell(ver, ecl, codewords, msk, n, x, (6, x));
  }

  lemma {:induction false} TimingModule(ver: int, x: int)
    requires 1 <= ver <= MAX_VERSION && 8 <= x < SizeOf(ver) - 8
    ensures StaticColour(ver, (x, 6)) == (x % 2 == 0) == StaticColour(ver, (6, x))
  {
    if ver >= 2 {
      var k := AlignCount(ver);
      var i := AxisIndex(ver, x, k);
      AlignmentSpacing(ver);
      AxisIndexUnique(ver, 6, 0, k);
      if i >= 0 {
        AxisIndexUnique(ver, x, i, k);
        AlignPosEven(ver, i);
      }
    }
  }

  // ----- the dark module

  /** The module above the format bits at the lower left is always black. */
  lemma {:induction false} DarkModule(ver: int, ecl: Ecc, codewords: seq<Byte>, msk: nat, n: nat)
    requires ver >= 1 && msk < 8 && n == SizeOf(ver)
    ensures At(Symbol(ver, ecl, codewords, msk), n, (8, n - 8))
  {
    DarkInAny(Masked(Unmasked(ver, ecl, codewords), FunctionGrid(ver), n, msk), n, FormatWord(ecl, msk), (8, n - 8));
  }

  lemma {:induction false} DarkInAny(m: Grid, n: nat, word: nat, c: Cell)
    requires IsGrid(m, n) && n >= 21 && c == (8, n - 8)
    ensures At(WithFormat(m, n, word), n, c)
  {
    WithFormatCells(m, n, word);
    assert InGrid(c, n) && FormatIndex(n, c) == Some(DARK);
  }
}
