/** The modules that `QrCode::drawFunctionPatterns` reserves, their colours, and their number. */
module FunctionPatterns {
  import opened Wrappers
  import opened Bits
  import opened Versions
  import opened Zigzag
  import opened Counting

  function Abs(x: int): nat
  {
    if x < 0 then -x else x
  }

  /** Chebyshev distance. */
  function Dist(c: Cell, d: Cell): nat
  {
    var dx, dy := Abs(c.0 - d.0), Abs(c.1 - d.1);
    if dx < dy then dy else dx
  }

  /** At most `r` rows and columns away. */
  predicate Within(c: Cell, d: Cell, r: nat)
  {
    d.0 - r <= c.0 <= d.0 + r && d.1 - r <= c.1 <= d.1 + r
  }

  // ----- alignment pattern positions

  function AlignCount(ver: int): nat
  {
    if ver <= 1 then 0 else ver / 7 + 2
  }

  function AlignStep(ver: int): int
    requires ver >= 2
  {
    var numAlign := AlignCount(ver);
    if ver == 32 then 26 else (ver * 4 + numAlign * 2 + 1) / (numAlign * 2 - 2) * 2
  }

  /** Position `i` of `QrCode::getAlignmentPatternPositions`. */
  function AlignPos(ver: int, i: nat): int
    requires ver >= 2
    decreases AlignCount(ver) - i
  {
    if i == 0 then 6
    else if i >= AlignCount(ver) - 1 then SizeOf(ver) - 7
    else AlignPos(ver, i + 1) - AlignStep(ver)
  }

  lemma {:induction false} AlignmentSpacing(ver: int)
    requires 2 <= ver <= MAX_VERSION
    ensures 2 <= AlignCount(ver) <= 7
    ensures AlignStep(ver) >= 12 && AlignPos(ver, 0) + 12 <= AlignPos(ver, 1)
  {
    var n := AlignCount(ver);
    assert n == 2 || n == 3 || n == 4 || n == 5 || n == 6 || n == 7;
    AlignPosClosedForm(ver, 1);
  }

  lemma {:induction false} AlignPosClosedForm(ver: int, i: nat)
    requires ver >= 2 && 1 <= i < AlignCount(ver)
    ensures AlignPos(ver, i) == SizeOf(ver) - 7 - (AlignCount(ver) - 1 - i) * AlignStep(ver)
    decreases AlignCount(ver) - i
  {
    if i < AlignCount(ver) - 1 {
      AlignPosClosedForm(ver, i + 1);
      var m, s := AlignCount(ver) - 1 - i, AlignStep(ver);
      assert m * s == (m - 1) * s + s;
    }
  }

  /** The gap to the next position. */
  lemma {:induction false} AlignGap(ver: int, i: nat)
    requires 2 <= ver <= MAX_VERSION && i + 1 < AlignCount(ver)
    ensures AlignPos(ver, i + 1) >= AlignPos(ver, i) + 10
  {
    AlignmentSpacing(ver);
  }

  lemma {:induction false} AlignOrder(ver: int, i: nat, k: nat)
    requires 2 <= ver <= MAX_VERSION && i < k < AlignCount(ver)
    ensures AlignPos(ver, i) + 10 <= AlignPos(ver, k)
    decreases k
  {
    AlignGap(ver, k - 1);
    if i < k - 1 { AlignOrder(ver, i, k - 1); }
  }

  /** Which of the first `k` positions the coordinate is within 2 of, or -1. */
  function AxisIndex(ver: int, x: int, k: nat): (i: int)
    requires ver >= 2
    ensures -1 <= i < k
  {
    if k == 0 then -1 else if -2 <= x - AlignPos(ver, k - 1) <= 2 then k - 1 else AxisIndex(ver, x, k - 1)
  }

  lemma {:induction false} AxisIndexUnique(ver: int, x: int, i: nat, k: nat)
    requires 2 <= ver <= MAX_VERSION && i < k <= AlignCount(ver)
    ensures AxisIndex(ver, x, k) == i <==> -2 <= x - AlignPos(ver, i) <= 2
  {
    if i < k - 1 {
      AlignOrder(ver, i, k - 1);
      AxisIndexUnique(ver, x, i, k - 1);
    }
  }

  /** The cells of a pattern are those with the axis indices of its centre. */
  lemma {:induction false} PatternCells(ver: int, i: nat, j: nat)
    requires 2 <= ver <= MAX_VERSION && i < AlignCount(ver) && j < AlignCount(ver)
    ensures var k := AlignCount(ver); forall c: Cell ::
              Within(c, (AlignPos(ver, i), AlignPos(ver, j)), 2) <==>
                AxisIndex(ver, c.0, k) == i && AxisIndex(ver, c.1, k) == j
  {
    var k := AlignCount(ver);
    forall c: Cell
      ensures Within(c, (AlignPos(ver, i), AlignPos(ver, j)), 2) <==>
              AxisIndex(ver, c.0, k) == i && AxisIndex(ver, c.1, k) == j
    {
      AxisIndexUnique(ver, c.0, i, k);
      AxisIndexUnique(ver, c.1, j, k);
    }
  }

  lemma {:induction false} AlignInside(ver: int, i: nat)
    requires 2 <= ver <= MAX_VERSION && i < AlignCount(ver)
    ensures 6 <= AlignPos(ver, i) <= SizeOf(ver) - 7
  {
    AlignmentSpacing(ver);
    if 0 < i { AlignOrder(ver, 0, i); }
    if i < AlignCount(ver) - 1 { AlignOrder(ver, i, AlignCount(ver) - 1); }
  }

  /** All pairs of positions but the three finder corners. */
  predicate DrawnAlignment(ver: int, i: int, j: int)
  {
    var last := AlignCount(ver) - 1;
    0 <= i <= last && 0 <= j <= last && !(i == 0 && j == 0) && !(i == 0 && j == last) && !(i == last && j == 0)
  }

  /** The centre of the alignment pattern that covers the cell. */
  function AlignmentAt(ver: int, c: Cell): Option<Cell>
  {
    if ver < 2 then None else
      var k := AlignCount(ver);
      var i, j := AxisIndex(ver, c.0, k), AxisIndex(ver, c.1, k);
      if DrawnAlignment(ver, i, j) then Some((AlignPos(ver, i), AlignPos(ver, j))) else None
  }

  /** Whether the pattern that covers the cell comes before pair (i, j). */
  predicate AlignedBefore(ver: int, i: int, j: int, c: Cell)
  {
    ver >= 2 &&
    var k := AlignCount(ver);
    var a, b := AxisIndex(ver, c.0, k), AxisIndex(ver, c.1, k);
    DrawnAlignment(ver, a, b) && (a < i || (a == i && b < j))
  }

  predicate AlignedColour(ver: int, c: Cell)
  {
    var a := AlignmentAt(ver, c);
    a.Some? && AlignmentColour(a.value, c)
  }

  // ----- the other patterns

  predicate IsTiming(c: Cell)
  {
    c.0 == 6 || c.1 == 6
  }

  /** The centre of the finder pattern (with its separator) that covers the cell. */
  function FinderAt(n: int, c: Cell): Option<Cell>
  {
    if Within(c, (3, 3), 4) then Some((3, 3))
    else if Within(c, (n - 4, 3), 4) then Some((n - 4, 3))
    else if Within(c, (3, n - 4), 4) then Some((3, n - 4))
    else None
  }

  lemma {:induction false} FindersApart(n: int, a: Cell, b: Cell)
    requires n >= 21 && a == (n - 4, 3) && b == (3, n - 4)
    ensures forall c: Cell :: Within(c, (3, 3), 4) ==> !Within(c, a, 4) && !Within(c, b, 4)
    ensures forall c: Cell :: Within(c, a, 4) ==> !Within(c, b, 4)
  {
  }

  /** The module that is always black, as an index after the 15 format bits. */
  const DARK := 15

  /** Which format bit of the first copy the cell holds. */
  function FirstCopyIndex(c: Cell): Option<nat>
  {
    if c.0 == 8 && 0 <= c.1 <= 5 then Some(c.1)
    else if c == (8, 7) then Some(6)
    else if c == (8, 8) then Some(7)
    else if c == (7, 8) then Some(8)
    else if c.1 == 8 && 0 <= c.0 <= 5 then Some(14 - c.0)
    else None
  }

  /** Which format bit of the second copy the cell holds. */
  function SecondCopyIndex(n: int, c: Cell): Option<nat>
  {
    if c.1 == 8 && n - 8 <= c.0 <= n - 1 then Some(n - 1 - c.0)
    else if c.0 == 8 && n - 7 <= c.1 <= n - 1 then Some(c.1 - n + 15)
    else if c == (8, n - 8) then Some(DARK)
    else None
  }

  function FormatIndex(n: int, c: Cell): Option<nat>
  {
    if FirstCopyIndex(c).Some? then FirstCopyIndex(c) else SecondCopyIndex(n, c)
  }

  /** Which version bit the cell holds. */
  function VersionIndex(ver: int, c: Cell): (i: Option<nat>)
    ensures i.Some? ==> ver >= 7 && i.value < 18
  {
    var n := SizeOf(ver);
    if ver < 7 then None
    else if n - 11 <= c.0 <= n - 9 && 0 <= c.1 <= 5 then Some(3 * c.1 + c.0 - (n - 11))
    else if n - 11 <= c.1 <= n - 9 && 0 <= c.0 <= 5 then Some(3 * c.0 + c.1 - (n - 11))
    else None
  }

  /** The two cells of a version bit. */
  lemma {:induction false} VersionCells(ver: int, i: nat, a: int, b: int)
    requires ver >= 7 && i < 18 && a == SizeOf(ver) - 11 + i % 3 && b == i / 3
    ensures InGrid((a, b), SizeOf(ver)) && InGrid((b, a), SizeOf(ver))
    ensures forall c: Cell :: VersionIndex(ver, c) == Some(i) <==> c == (a, b) || c == (b, a)
  {
  }

  /** Colour of the module that holds a version bit. */
  predicate VersionColour(bits: nat, i: Option<nat>)
  {
    i.Some? && GetBit(bits, i.value)
  }

  predicate IsFunction(ver: int, c: Cell)
  {
    var n := SizeOf(ver);
    IsTiming(c) || FinderAt(n, c).Some? || AlignmentAt(ver, c).Some? || FormatIndex(n, c).Some? ||
    VersionIndex(ver, c).Some?
  }

  // ----- colours

  /** Timing modules alternate, beginning black. */
  predicate TimingColour(c: Cell)
  {
    (if c.0 == 6 then c.1 else c.0) % 2 == 0
  }

  predicate FinderColour(centre: Cell, c: Cell)
  {
    Dist(c, centre) != 2 && Dist(c, centre) != 4
  }

  predicate FinderColourAt(n: int, c: Cell)
  {
    FinderAt(n, c).Some? && FinderColour(FinderAt(n, c).value, c)
  }

  predicate AlignmentColour(centre: Cell, c: Cell)
  {
    Dist(c, centre) != 1
  }

  /** Colour of a format module for the 15-bit word `bits`. */
  predicate FormatColour(bits: nat, i: nat)
  {
    i == DARK || GetBit(bits, i)
  }

  /** Colour of the module that holds the given format bit, if any. */
  predicate BitColour(bits: nat, i: Option<nat>)
  {
    i.Some? && FormatColour(bits, i.value)
  }

  /** Colour of the cell after timing, finder and alignment patterns are drawn, in this order. */
  predicate StaticColour(ver: int, c: Cell)
  {
    var a, f := AlignmentAt(ver, c), FinderAt(SizeOf(ver), c);
    if a.Some? then AlignmentColour(a.value, c)
    else if f.Some? then FinderColour(f.value, c)
    else IsTiming(c) && TimingColour(c)
  }

  // ----- counting

  /** Coordinates within 2 of one of the positions 1 to `k`. */
  function Band(ver: int, k: nat): set<int>
    requires ver >= 2
  {
    if k == 0 then {} else Band(ver, k - 1) + Stripe(ver, k)
  }

  lemma {:induction false} BandMember(ver: int, k: nat, x: int)
    requires 2 <= ver <= MAX_VERSION && k < AlignCount(ver)
    ensures x in Band(ver, k) <==> 1 <= AxisIndex(ver, x, AlignCount(ver)) <= k
  {
    if k > 0 {
      BandMember(ver, k - 1, x);
      AxisIndexUnique(ver, x, k, AlignCount(ver));
    }
  }

  function Stripe(ver: int, k: nat): set<int>
    requires ver >= 2
  {
    Range(AlignPos(ver, k) - 2, AlignPos(ver, k) + 3)
  }

  lemma {:induction false} StripeIsNew(ver: int, k: nat, x: int)
    requires 2 <= ver <= MAX_VERSION && 1 <= k < AlignCount(ver) && x in Stripe(ver, k)
    ensures x !in Band(ver, k - 1)
  {
    BandMember(ver, k - 1, x);
    AxisIndexUnique(ver, x, k, AlignCount(ver));
  }

  lemma {:induction false} BandSize(ver: int, k: nat)
    requires 2 <= ver <= MAX_VERSION && k < AlignCount(ver)
    ensures |Band(ver, k)| == 5 * k
  {
    if k > 0 {
      BandSize(ver, k - 1);
      forall x | x in Stripe(ver, k) ensures x !in Band(ver, k - 1) { StripeIsNew(ver, k, x); }
      DisjointSize(Band(ver, k - 1), Stripe(ver, k));
      RangeSize(AlignPos(ver, k) - 2, AlignPos(ver, k) + 3);
    }
  }

  lemma {:induction false} BandBounds(ver: int, k: nat, x: int)
    requires 2 <= ver <= MAX_VERSION && k < AlignCount(ver) && x in Band(ver, k)
    ensures 14 <= x <= AlignPos(ver, k) + 2
  {
    AlignmentSpacing(ver);
    if k > 1 {
      AlignOrder(ver, 1, k);
      AlignOrder(ver, k - 1, k);
      if x in Band(ver, k - 1) { BandBounds(ver, k - 1, x); }
    }
  }

  // ----- the function modules as disjoint rectangles

  function Square(n: int): set<Cell>
  {
    Product(Range(0, n), Range(0, n))
  }

  /** Finder patterns, separators and format bits. */
  function Corners(n: int): set<Cell>
  {
    Product(Range(0, 9), Range(0, 9)) + Product(Range(n - 8, n), Range(0, 9)) + Product(Range(0, 9), Range(n - 8, n))
  }

  /** Timing modules outside the corners. */
  function Timing(n: int): set<Cell>
  {
    Product(Range(9, n - 8), {6}) + Product({6}, Range(9, n - 8))
  }

  function VersionArea(n: int): set<Cell>
  {
    Product(Range(0, 6), Range(n - 11, n - 8)) + Product(Range(n - 11, n - 8), Range(0, 6))
  }

  const BESIDE_TIMING := {4, 5, 7, 8}

  /** Alignment modules outside the timing patterns. */
  function Alignment(ver: int): set<Cell>
    requires ver >= 2
  {
    var all, inner := Band(ver, AlignCount(ver) - 1), Band(ver, AlignCount(ver) - 2);
    Product(all, all) + Product(inner, BESIDE_TIMING) + Product(BESIDE_TIMING, inner)
  }

  lemma {:induction false} CornersSum(near: set<int>, far: set<int>)
    requires near !! far && |near| == 9 && |far| == 8
    ensures |Product(near, near) + Product(far, near) + Product(near, far)| == 225
  {
    ProductSize(near, near, 9, 9);
    ProductSize(far, near, 8, 9);
    ProductSize(near, far, 9, 8);
    ProductsDisjoint(near, near, far, near);
    ProductsDisjoint(near, near, near, far);
    ProductsDisjoint(far, near, near, far);
    ThreeDisjointSize(Product(near, near), Product(far, near), Product(near, far));
  }

  lemma {:induction false} CrossSum(xs: set<int>, ys: set<int>, a: nat, b: nat)
    requires xs !! ys && |xs| == a && |ys| == b
    ensures |Product(xs, ys) + Product(ys, xs)| == 2 * (a * b)
  {
    ProductSize(xs, ys, a, b);
    ProductSize(ys, xs, b, a);
    ProductsDisjoint(xs, ys, ys, xs);
    DisjointSize(Product(xs, ys), Product(ys, xs));
  }

  lemma {:induction false} CornersSize(n: int)
    requires n >= 21
    ensures |Corners(n)| == 225
  {
    RangeSize(0, 9);
    RangeSize(n - 8, n);
    RangesDisjoint(0, 9, n - 8, n);
    CornersSum(Range(0, 9), Range(n - 8, n));
  }

  lemma {:induction false} RangesDisjoint(a: int, b: int, c: int, d: int)
    requires b <= c
    ensures Range(a, b) !! Range(c, d)
  {
  }

  lemma {:induction false} TimingSize(n: int)
    requires n >= 21
    ensures |Timing(n)| == 2 * (n - 17)
  {
    RangeSize(9, n - 8);
    CrossSum(Range(9, n - 8), {6}, n - 17, 1);
  }

  lemma {:induction false} VersionAreaSize(n: int)
    requires n >= 45
    ensures |VersionArea(n)| == 36
  {
    RangeSize(n - 11, n - 8);
    RangeSize(0, 6);
    RangesDisjoint(0, 6, n - 11, n - 8);
    CrossSum(Range(0, 6), Range(n - 11, n - 8), 6, 3);
  }

  /** Where alignment modules outside the timing patterns lie. */
  lemma {:induction false} AlignmentBounds(ver: int, x: int)
    requires 2 <= ver <= MAX_VERSION
    ensures x in Band(ver, AlignCount(ver) - 1) ==> 14 <= x < SizeOf(ver) - 4
    ensures x in Band(ver, AlignCount(ver) - 2) ==> 14 <= x < SizeOf(ver) - 14
  {
    var k := AlignCount(ver);
    AlignmentSpacing(ver);
    if x in Band(ver, k - 1) { BandBounds(ver, k - 1, x); }
    if x in Band(ver, k - 2) {
      BandBounds(ver, k - 2, x);
      AlignOrder(ver, k - 2, k - 1);
    }
  }

  lemma {:induction false} BandsAvoidTiming(ver: int)
    requires 2 <= ver <= MAX_VERSION
    ensures Band(ver, AlignCount(ver) - 1) !! BESIDE_TIMING && Band(ver, AlignCount(ver) - 2) !! BESIDE_TIMING
  {
    AlignmentBounds(ver, 4);
    AlignmentBounds(ver, 5);
    AlignmentBounds(ver, 7);
    AlignmentBounds(ver, 8);
  }

  lemma {:induction false} AlignmentSize(ver: int, a: nat, b: nat)
    requires 2 <= ver <= MAX_VERSION && a == 5 * (AlignCount(ver) - 1) && b == 5 * (AlignCount(ver) - 2)
    ensures |Alignment(ver)| == a * a + 8 * b
  {
    BandSize(ver, AlignCount(ver) - 1);
    BandSize(ver, AlignCount(ver) - 2);
    BandsAvoidTiming(ver);
    AlignmentSum(Band(ver, AlignCount(ver) - 1), Band(ver, AlignCount(ver) - 2), BESIDE_TIMING, a, b);
  }

  lemma {:induction false} AlignmentSum(all: set<int>, inner: set<int>, four: set<int>, a: nat, b: nat)
    requires all !! four && inner !! four && |all| == a && |inner| == b && |four| == 4
    ensures |Product(all, all) + Product(inner, four) + Product(four, inner)| == a * a + 8 * b
  {
    ProductSize(all, all, a, a);
    ProductSize(inner, four, b, 4);
    ProductSize(four, inner, 4, b);
    ProductsDisjoint(all, all, inner, four);
    ProductsDisjoint(all, all, four, inner);
    ProductsDisjoint(inner, four, four, inner);
    ThreeDisjointSize(Product(all, all), Product(inner, four), Product(four, inner));
  }

  lemma {:induction false} SquareArithmetic(ver: int, n: int)
    requires n == 4 * ver + 17
    ensures n * n - 225 - 2 * (n - 17) == (16 * ver + 128) * ver + 64
  {
  }

  lemma {:induction false} AlignmentArithmetic(k: int, a: int, b: int)
    requires a == 5 * (k - 1) && b == 5 * (k - 2)
    ensures a * a + 8 * b == (25 * k - 10) * k - 55
  {
  }

  /** The closed form of `QrCode::getNumRawDataModules` is what the rectangles leave of the square. */
  lemma {:induction false} CapacityArithmetic(ver: int, n: int, a: int, b: int, align: int, version: int)
    requires ver >= 1 && n == SizeOf(ver) && a == 5 * (AlignCount(ver) - 1) && b == 5 * (AlignCount(ver) - 2)
    requires align == if ver < 2 then 0 else a * a + 8 * b
    requires version == if ver < 7 then 0 else 36
    ensures n * n - (225 + 2 * (n - 17) + align + version) == NumRawDataModules(ver)
  {
    SquareArithmetic(ver, n);
    AlignmentArithmetic(AlignCount(ver), a, b);
  }

  function AlignmentOrNone(ver: int): set<Cell>
  {
    if ver < 2 then {} else Alignment(ver)
  }

  function VersionOrNone(ver: int): set<Cell>
  {
    if ver < 7 then {} else VersionArea(SizeOf(ver))
  }

  /** All function modules of the symbol. */
  function FunctionCells(ver: int): set<Cell>
  {
    Corners(SizeOf(ver)) + Timing(SizeOf(ver)) + AlignmentOrNone(ver) + VersionOrNone(ver)
  }

  /** The axis index of a coordinate tells which bands it is in. */
  lemma {:induction false} AxisBands(ver: int, x: int)
    requires 2 <= ver <= MAX_VERSION
    ensures var k := AlignCount(ver); var i := AxisIndex(ver, x, k);
            && (x in Band(ver, k - 1) <==> i >= 1)
            && (x in Band(ver, k - 2) <==> 1 <= i <= k - 2)
            && (x in BESIDE_TIMING <==> i == 0 && x != 6)
  {
    var k := AlignCount(ver);
    BandMember(ver, k - 1, x);
    BandMember(ver, k - 2, x);
    AxisIndexUnique(ver, x, 0, k);
  }

  /** Up to the timing patterns the alignment patterns are the three products. */
  lemma {:induction false} AlignmentCell(ver: int, c: Cell)
    requires 2 <= ver <= MAX_VERSION && !IsTiming(c)
    ensures c in Alignment(ver) <==> AlignmentAt(ver, c).Some?
  {
    AxisBands(ver, c.0);
    AxisBands(ver, c.1);
  }

  predicate CornerOrTiming(n: int, c: Cell)
  {
    || (0 <= c.0 < 9 && 0 <= c.1 < 9)
    || (n - 8 <= c.0 < n && 0 <= c.1 < 9)
    || (0 <= c.0 < 9 && n - 8 <= c.1 < n)
    || (9 <= c.0 < n - 8 && c.1 == 6)
    || (c.0 == 6 && 9 <= c.1 < n - 8)
  }

  lemma {:induction false} CornerMember(n: int, c: Cell)
    ensures c in Corners(n) + Timing(n) <==> CornerOrTiming(n, c)
  {
  }

  lemma {:induction false} CornerGeometry(n: int, c: Cell)
    requires n >= 21
    ensures CornerOrTiming(n, c) <==> InGrid(c, n) && (IsTiming(c) || FinderAt(n, c).Some? || FormatIndex(n, c).Some?)
  {
    if c.1 == 8 || c.0 == 8 || c.0 == 6 || c.1 == 6 {
    } else if c.0 < 9 {
    } else {
    }
  }

  /** Corner modules are those of finder patterns, format bits and the timing modules between them. */
  lemma {:induction false} CornerCell(n: int, c: Cell)
    requires n >= 21
    ensures c in Corners(n) + Timing(n) <==>
            InGrid(c, n) && (IsTiming(c) || FinderAt(n, c).Some? || FormatIndex(n, c).Some?)
  {
    CornerMember(n, c);
    CornerGeometry(n, c);
  }

  lemma {:induction false} AlignmentInside(ver: int, c: Cell)
    requires 2 <= ver <= MAX_VERSION && c in Alignment(ver)
    ensures InGrid(c, SizeOf(ver)) && !IsTiming(c)
    ensures c !in Corners(SizeOf(ver)) && (ver >= 7 ==> c !in VersionArea(SizeOf(ver)))
  {
    AlignmentBounds(ver, c.0);
    AlignmentBounds(ver, c.1);
  }

  lemma {:induction false} VersionCell(ver: int, c: Cell)
    requires MIN_VERSION <= ver
    ensures c in VersionOrNone(ver) <==> VersionIndex(ver, c).Some?
    ensures VersionIndex(ver, c).Some? ==> InGrid(c, SizeOf(ver))
  {
  }

  /** Alignment modules, those on a timing pattern left out. */
  lemma {:induction false} AlignmentOffTiming(ver: int, c: Cell)
    requires MIN_VERSION <= ver <= MAX_VERSION
    ensures c in AlignmentOrNone(ver) ==> InGrid(c, SizeOf(ver)) && !IsTiming(c)
    ensures !IsTiming(c) ==> (c in AlignmentOrNone(ver) <==> AlignmentAt(ver, c).Some?)
  {
    if ver >= 2 {
      if c in Alignment(ver) { AlignmentInside(ver, c); }
      if !IsTiming(c) { AlignmentCell(ver, c); }
    }
  }

  /** The rectangles are exactly the cells that `drawFunctionPatterns` marks. */
  lemma {:induction false} FunctionCell(ver: int, c: Cell)
    requires MIN_VERSION <= ver <= MAX_VERSION
    ensures c in FunctionCells(ver) <==> InGrid(c, SizeOf(ver)) && IsFunction(ver, c)
  {
    CornerCell(SizeOf(ver), c);
    AlignmentOffTiming(ver, c);
    VersionCell(ver, c);
  }

  lemma {:induction false} GroupsDisjoint(ver: int)
    requires MIN_VERSION <= ver <= MAX_VERSION
    ensures Corners(SizeOf(ver)) !! Timing(SizeOf(ver))
    ensures Corners(SizeOf(ver)) + Timing(SizeOf(ver)) !! AlignmentOrNone(ver)
    ensures Corners(SizeOf(ver)) + Timing(SizeOf(ver)) + AlignmentOrNone(ver) !! VersionOrNone(ver)
  {
    forall c: Cell | c in AlignmentOrNone(ver)
      ensures c !in Corners(SizeOf(ver)) && c !in Timing(SizeOf(ver)) && c !in VersionOrNone(ver)
    {
      AlignmentInside(ver, c);
    }
  }

  lemma {:induction false} FunctionCellsSum(ver: int, n: nat)
    requires MIN_VERSION <= ver <= MAX_VERSION && n == SizeOf(ver)
    ensures |FunctionCells(ver)| == 225 + 2 * (n - 17) + |AlignmentOrNone(ver)| + |VersionOrNone(ver)|
  {
    GroupsDisjoint(ver);
    CornersSize(n);
    TimingSize(n);
    DisjointSize(Corners(n), Timing(n));
    DisjointSize(Corners(n) + Timing(n), AlignmentOrNone(ver));
    DisjointSize(Corners(n) + Timing(n) + AlignmentOrNone(ver), VersionOrNone(ver));
  }

  lemma {:induction false} FunctionCellsSize(ver: int, n: nat)
    requires MIN_VERSION <= ver <= MAX_VERSION && n == SizeOf(ver)
    ensures NumRawDataModules(ver) == n * n - |FunctionCells(ver)|
  {
    var a, b := 5 * (AlignCount(ver) - 1), 5 * (AlignCount(ver) - 2);
    FunctionCellsSum(ver, n);
    if ver >= 7 { VersionAreaSize(n); }
    if ver >= 2 { AlignmentSize(ver, a, b); }
    CapacityArithmetic(ver, n, a, b, |AlignmentOrNone(ver)|, |VersionOrNone(ver)|);
  }

  // ----- the capacity of a symbol

  /** The `isFunction` grid of the symbol. */
  function FunctionGrid(ver: int): (g: Grid)
    requires ver >= 1
    ensures IsGrid(g, SizeOf(ver))
  {
    Tabulate(SizeOf(ver), (c: Cell) => IsFunction(ver, c))
  }

  lemma {:induction false} FunctionGridCells(ver: int)
    requires ver >= 1
    ensures forall c: Cell :: InGrid(c, SizeOf(ver)) ==> At(FunctionGrid(ver), SizeOf(ver), c) == IsFunction(ver, c)
  {
    TabulateCells(SizeOf(ver), (c: Cell) => IsFunction(ver, c));
  }

  ghost function FreeSet(fn: Grid, n: nat, cells: seq<Cell>): set<Cell>
    requires IsGrid(fn, n) && AllInGrid(cells, n)
  {
    set c: Cell | c in cells && !At(fn, n, c)
  }

  lemma {:induction false} FreeCountIsCardinality(fn: Grid, n: nat, cells: seq<Cell>)
    requires IsGrid(fn, n) && AllInGrid(cells, n) && Distinct(cells)
    ensures FreeCount(fn, n, cells) == |FreeSet(fn, n, cells)|
  {
    if cells == [] {
      assert FreeSet(fn, n, cells) == {};
    } else {
      var k := |cells| - 1;
      FreeCountIsCardinality(fn, n, cells[..k]);
      var rest, last := FreeSet(fn, n, cells[..k]), cells[k];
      assert last !in cells[..k];
      assert FreeSet(fn, n, cells) == if At(fn, n, last) then rest else rest + {last};
    }
  }

  /** `fn` marks exactly these cells, among them column 6. */
  ghost predicate Marks(fn: Grid, n: nat, marked: set<Cell>)
  {
    && IsGrid(fn, n)
    && (forall c: Cell :: c in marked <==> InGrid(c, n) && At(fn, n, c))
    && (forall c: Cell :: InGrid(c, n) && c.0 == 6 ==> c in marked)
  }

  lemma {:induction false} FreeCells(fn: Grid, marked: set<Cell>, n: nat)
    requires n % 2 == 1 && n >= 7 && Marks(fn, n, marked) && AllInGrid(Scan(n), n)
    ensures FreeSet(fn, n, Scan(n)) == Square(n) - marked && marked <= Square(n)
  {
    ScanIsBijective(n);
  }

  lemma {:induction false} FunctionGridMarks(ver: int)
    requires MIN_VERSION <= ver <= MAX_VERSION
    ensures Marks(FunctionGrid(ver), SizeOf(ver), FunctionCells(ver))
  {
    FunctionGridCells(ver);
    forall c: Cell
      ensures c in FunctionCells(ver) <==> InGrid(c, SizeOf(ver)) && At(FunctionGrid(ver), SizeOf(ver), c)
    {
      FunctionCell(ver, c);
    }
  }

  lemma {:induction false} ScanInGrid(n: nat)
    requires n % 2 == 1 && n >= 7
    ensures AllInGrid(Scan(n), n) && Distinct(Scan(n))
  {
    ScanIsBijective(n);
    forall i | 0 <= i < |Scan(n)| ensures InGrid(Scan(n)[i], n) { assert Scan(n)[i] in Scan(n); }
  }

  /** With column 6 reserved, what is not marked is all that the scan finds free. */
  lemma {:induction false} FreeCountOf(fn: Grid, marked: set<Cell>, n: nat, k: nat)
    requires n % 2 == 1 && n >= 7 && Marks(fn, n, marked) && |marked| == k
    ensures AllInGrid(Scan(n), n) && FreeCount(fn, n, Scan(n)) == n * n - k
  {
    ScanInGrid(n);
    FreeCells(fn, marked, n);
    FreeCountIsCardinality(fn, n, Scan(n));
    SquareSize(n, n);
    DifferenceSize(Square(n), marked);
  }

  lemma {:induction false} SquareSize(n: int, k: nat)
    requires n == k
    ensures |Square(n)| == k * k
  {
    RangeSize(0, n);
    ProductSize(Range(0, n), Range(0, n), k, k);
  }

  /** The modules left by the function patterns are exactly as many as the closed form says. */
  lemma {:induction false} CapacityIsExact(ver: int, n: nat)
    requires MIN_VERSION <= ver <= MAX_VERSION && n == SizeOf(ver)
    ensures AllInGrid(Scan(n), n) && FreeCount(FunctionGrid(ver), n, Scan(n)) == NumRawDataModules(ver)
  {
    SizeIsOdd(ver, n);
    var fn, marked := FunctionGrid(ver), FunctionCells(ver);
    assert Marks(fn, n, marked) by { FunctionGridMarks(ver); }
    assert NumRawDataModules(ver) == n * n - |marked| by { FunctionCellsSize(ver, n); }
    FreeCountOf(fn, marked, n, |marked|);
  }
}
