/** The symbol builder: the private drawing methods of the constructor of `QrCode`, on its grids. */
module QrCodes {
  import opened Wrappers
  import opened Bits
  import opened Versions
  import opened Zigzag
  import opened FunctionPatterns
  import opened FormatInfo
  import opened SymbolPenalty
  import opened Symbols
  import opened ErrorCorrection

  class QrCode {
    const version: int
    const size: nat
    const errorCorrectionLevel: Ecc
    var mask: int
    var modules: Grid
    var isFunction: Grid

    ghost predicate Valid()
      reads this
    {
      && MIN_VERSION <= version <= MAX_VERSION && size == SizeOf(version)
      && IsGrid(modules, size) && IsGrid(isFunction, size)
    }

    /** Both grids all white. */
    constructor (ver: int, ecl: Ecc)
      requires MIN_VERSION <= ver <= MAX_VERSION
      ensures Valid() && version == ver && errorCorrectionLevel == ecl
      ensures forall c: Cell :: InGrid(c, size) ==> !At(modules, size, c) && !At(isFunction, size, c)
    {
      version, errorCorrectionLevel, mask := ver, ecl, -1;
      var n := ver * 4 + 17;
      size := n;
      modules := seq(n, _ => seq(n, _ => false));
      isFunction := seq(n, _ => seq(n, _ => false));
    }

    /** `QrCode::setFunctionModule` */
    method SetFunctionModule(x: int, y: int, isBlack: bool)
      requires Valid() && InGrid((x, y), size)
      modifies this`modules, this`isFunction
      ensures Valid()
      ensures modules == Put(old(modules), size, (x, y), isBlack)
      ensures isFunction == Put(old(isFunction), size, (x, y), true)
    {
      modules := modules[y := modules[y][x := isBlack]];
      isFunction := isFunction[y := isFunction[y][x := true]];
    }

    /** The cells of `region` have become function modules of the given colours; no other cell has changed. */
    twostate predicate Painted(region: Cell -> bool, colour: Cell -> bool)
      reads this
    {
      && Valid() && old(Valid())
      && forall c: Cell :: InGrid(c, size) ==>
           && At(isFunction, size, c) == (region(c) || At(old(isFunction), size, c))
           && At(modules, size, c) == if region(c) then colour(c) else At(old(modules), size, c)
    }

    /** The timing loop of `QrCode::drawFunctionPatterns`. */
    method DrawTimingPatterns()
      requires Valid()
      modifies this`modules, this`isFunction
      ensures Painted((c: Cell) => IsTiming(c), (c: Cell) => TimingColour(c))
    {
      for i := 0 to size
        invariant Painted((c: Cell) => (c.0 == 6 && c.1 < i) || (c.1 == 6 && c.0 < i),
                          (c: Cell) => (if c.0 == 6 && c.1 < i then c.1 else c.0) % 2 == 0)
      {
        SetFunctionModule(6, i, i % 2 == 0);
        SetFunctionModule(i, 6, i % 2 == 0);
      }
    }

    /** The inner loop of `QrCode::drawFinderPattern`. */
    method DrawFinderRow(x: int, y: int, dy: int)
      requires Valid() && Abs(dy) <= 4
      modifies this`modules, this`isFunction
      ensures Painted((c: Cell) => -4 <= c.0 - x <= 4 && c.1 == y + dy, (c: Cell) => FinderColour((x, y), c))
    {
      for dx := -4 to 5
        invariant Painted((c: Cell) => -4 <= c.0 - x < dx && c.1 == y + dy, (c: Cell) => FinderColour((x, y), c))
      {
        var dist := if Abs(dx) < Abs(dy) then Abs(dy) else Abs(dx);
        var xx, yy := x + dx, y + dy;
        if 0 <= xx < size && 0 <= yy < size {
          SetFunctionModule(xx, yy, dist != 2 && dist != 4);
        }
      }
    }

    /** `QrCode::drawFinderPattern` */
    method DrawFinderPattern(x: int, y: int)
      requires Valid()
      modifies this`modules, this`isFunction
      ensures Painted((c: Cell) => Within(c, (x, y), 4), (c: Cell) => FinderColour((x, y), c))
    {
      for dy := -4 to 5
        invariant Painted((c: Cell) => -4 <= c.0 - x <= 4 && -4 <= c.1 - y < dy, (c: Cell) => FinderColour((x, y), c))
      {
        DrawFinderRow(x, y, dy);
      }
    }

    /** The inner loop of `QrCode::drawAlignmentPattern`. */
    method DrawAlignmentRow(x: int, y: int, dy: int)
      requires Valid() && Abs(dy) <= 2 && 2 <= x < size - 2 && 2 <= y < size - 2
      modifies this`modules, this`isFunction
      ensures Painted((c: Cell) => -2 <= c.0 - x <= 2 && c.1 == y + dy, (c: Cell) => AlignmentColour((x, y), c))
    {
      for dx := -2 to 3
        invariant Painted((c: Cell) => -2 <= c.0 - x < dx && c.1 == y + dy, (c: Cell) => AlignmentColour((x, y), c))
      {
        SetFunctionModule(x + dx, y + dy, (if Abs(dx) < Abs(dy) then Abs(dy) else Abs(dx)) != 1);
      }
    }

    /** `QrCode::drawAlignmentPattern` */
    method DrawAlignmentPattern(x: int, y: int)
      requires Valid() && 2 <= x < size - 2 && 2 <= y < size - 2
      modifies this`modules, this`isFunction
      ensures Painted((c: Cell) => Within(c, (x, y), 2), (c: Cell) => AlignmentColour((x, y), c))
    {
      for dy := -2 to 3
        invariant Painted((c: Cell) => -2 <= c.0 - x <= 2 && -2 <= c.1 - y < dy,
                          (c: Cell) => AlignmentColour((x, y), c))
      {
        DrawAlignmentRow(x, y, dy);
      }
    }

    // The loops of `QrCode::drawFormatBits`.

    method DrawTopFormat(bits: nat)
      requires Valid()
      modifies this`modules, this`isFunction
      ensures Painted((c: Cell) => c.0 == 8 && 0 <= c.1 <= 5, (c: Cell) => c.1 >= 0 && GetBit(bits, c.1))
    {
      for i := 0 to 6
        invariant Painted((c: Cell) => c.0 == 8 && 0 <= c.1 < i, (c: Cell) => c.1 >= 0 && GetBit(bits, c.1))
      {
        SetFunctionModule(8, i, GetBit(bits, i));
      }
    }

    method DrawLeftFormat(bits: nat)
      requires Valid()
      modifies this`modules, this`isFunction
      ensures Painted((c: Cell) => c.1 == 8 && 0 <= c.0 <= 5, (c: Cell) => c.0 <= 14 && GetBit(bits, 14 - c.0))
    {
      for i := 9 to 15
        invariant Painted((c: Cell) => c.1 == 8 && 14 - i < c.0 <= 5, (c: Cell) => c.0 <= 14 && GetBit(bits, 14 - c.0))
      {
        SetFunctionModule(14 - i, 8, GetBit(bits, i));
      }
    }

    method DrawRightFormat(bits: nat, n: nat)
      requires Valid() && n == size
      modifies this`modules, this`isFunction
      ensures Painted((c: Cell) => c.1 == 8 && n - 8 <= c.0 <= n - 1, (c: Cell) => c.0 < n && GetBit(bits, n - 1 - c.0))
    {
      for i := 0 to 8
        invariant Painted((c: Cell) => c.1 == 8 && n - 1 - i < c.0 <= n - 1,
                          (c: Cell) => c.0 < n && GetBit(bits, n - 1 - c.0))
      {
        SetFunctionModule(size - 1 - i, 8, GetBit(bits, i));
      }
    }

    method DrawBottomFormat(bits: nat, n: nat)
      requires Valid() && n == size
      modifies this`modules, this`isFunction
      ensures Painted((c: Cell) => c.0 == 8 && n - 7 <= c.1 <= n - 1,
                      (c: Cell) => c.1 >= n - 15 && GetBit(bits, c.1 - n + 15))
    {
      for i := 8 to 15
        invariant Painted((c: Cell) => c.0 == 8 && n - 7 <= c.1 < n - 15 + i,
                          (c: Cell) => c.1 >= n - 15 && GetBit(bits, c.1 - n + 15))
      {
        SetFunctionModule(8, size - 15 + i, GetBit(bits, i));
      }
    }

    method DrawCornerFormat(bits: nat)
      requires Valid()
      modifies this`modules, this`isFunction
      ensures Painted((c: Cell) => c == (8, 7) || c == (8, 8) || c == (7, 8),
                      (c: Cell) => BitColour(bits, FirstCopyIndex(c)))
    {
      SetFunctionModule(8, 7, GetBit(bits, 6));
      SetFunctionModule(8, 8, GetBit(bits, 7));
      SetFunctionModule(7, 8, GetBit(bits, 8));
    }

    method DrawFirstCopy(bits: nat)
      requires Valid()
      modifies this`modules, this`isFunction
      ensures Painted((c: Cell) => FirstCopyIndex(c).Some?, (c: Cell) => BitColour(bits, FirstCopyIndex(c)))
    {
      DrawTopFormat(bits);
      DrawCornerFormat(bits);
      DrawLeftFormat(bits);
    }

    method DrawSecondCopy(bits: nat, n: nat)
      requires Valid() && n == size
      modifies this`modules, this`isFunction
      ensures Painted((c: Cell) => SecondCopyIndex(n, c).Some?, (c: Cell) => BitColour(bits, SecondCopyIndex(n, c)))
    {
      DrawRightFormat(bits, n);
      DrawBottomFormat(bits, n);
      SetFunctionModule(8, size - 8, true);
    }

    /** `QrCode::drawFormatBits` */
    method DrawFormatBits(msk: int)
      requires Valid() && 0 <= msk < 8
      modifies this`modules, this`isFunction
      ensures Valid() && modules == WithFormat(old(modules), size, FormatWord(errorCorrectionLevel, msk))
      ensures forall c: Cell :: InGrid(c, size) ==>
                At(isFunction, size, c) == (FormatIndex(size, c).Some? || At(old(isFunction), size, c))
    {
      var bits := FormatBits(errorCorrectionLevel, msk);
      DrawFirstCopy(bits);
      DrawSecondCopy(bits, size);
      WithFormatCells(old(modules), size, bits);
      SameGrid(modules, WithFormat(old(modules), size, bits), size);
    }

    /** The loop body of `QrCode::drawVersion`. */
    method DrawVersionBit(v: int, i: nat, bit: bool)
      requires Valid() && v == version >= 7 && i < 18
      modifies this`modules, this`isFunction
      ensures Painted((c: Cell) => VersionIndex(v, c) == Some(i), (c: Cell) => bit)
    {
      var a := size - 11 + i % 3;
      var b := i / 3;
      VersionCells(v, i, a, b);
      SetFunctionModule(a, b, bit);
      SetFunctionModule(b, a, bit);
    }

    /** The loop of `QrCode::drawVersion`. */
    method DrawVersionWord(v: int, bits: nat)
      requires Valid() && v == version >= 7
      modifies this`modules, this`isFunction
      ensures Painted((c: Cell) => VersionIndex(v, c).Some?, (c: Cell) => VersionColour(bits, VersionIndex(v, c)))
    {
      for i := 0 to 18
        invariant Painted((c: Cell) => VersionIndex(v, c).Some? && VersionIndex(v, c).value < i,
                          (c: Cell) => VersionColour(bits, VersionIndex(v, c)))
      {
        DrawVersionBit(v, i, GetBit(bits, i));
      }
    }

    /** `QrCode::drawVersion` */
    method DrawVersion(v: int)
      requires Valid() && v == version
      modifies this`modules, this`isFunction
      ensures Painted((c: Cell) => VersionIndex(v, c).Some?,
                      (c: Cell) => v >= 0 && VersionColour(VersionWord(v), VersionIndex(v, c)))
    {
      if version < 7 {
        return;
      }
      var bits := VersionBits(version);
      DrawVersionWord(v, bits);
    }

    /** `QrCode::getAlignmentPatternPositions` */
    method GetAlignmentPatternPositions() returns (result: seq<int>)
      requires Valid()
      ensures |result| == AlignCount(version)
      ensures forall i :: 0 <= i < |result| ==> result[i] == AlignPos(version, i)
    {
      if version == 1 {
        return [];
      }
      var numAlign := version / 7 + 2;
      var step := if version == 32 then 26 else (version * 4 + numAlign * 2 + 1) / (numAlign * 2 - 2) * 2;
      result := [];
      var pos := size - 7;
      for i := 0 to numAlign - 1
        invariant |result| == i
        invariant i < numAlign - 1 ==> pos == AlignPos(version, numAlign - 1 - i)
        invariant forall j :: 0 <= j < i ==> result[j] == AlignPos(version, numAlign - i + j)
      {
        result := [pos] + result;
        pos := pos - step;
      }
      result := [6] + result;
    }

    /** The inner alignment loop of `QrCode::drawFunctionPatterns`. */
    method DrawAlignmentLine(alignPatPos: seq<int>, i: nat, v: int)
      requires Valid() && v == version && |alignPatPos| == AlignCount(v) && i < |alignPatPos|
      requires forall k :: 0 <= k < |alignPatPos| ==> alignPatPos[k] == AlignPos(v, k)
      modifies this`modules, this`isFunction
      ensures Painted((c: Cell) => AlignedBefore(v, i + 1, 0, c) && !AlignedBefore(v, i, 0, c),
                      (c: Cell) => AlignedColour(v, c))
    {
      var numAlign := |alignPatPos|;
      for j := 0 to numAlign
        invariant Painted((c: Cell) => AlignedBefore(v, i, j, c) && !AlignedBefore(v, i, 0, c),
                          (c: Cell) => AlignedColour(v, c))
      {
        if !((i == 0 && j == 0) || (i == 0 && j == numAlign - 1) || (i == numAlign - 1 && j == 0)) {
          PatternCells(v, i, j);
          AlignInside(v, i);
          AlignInside(v, j);
          DrawAlignmentPattern(alignPatPos[i], alignPatPos[j]);
        }
      }
    }

    /** The alignment loops of `QrCode::drawFunctionPatterns`. */
    method DrawAlignmentPatterns(v: int)
      requires Valid() && v == version
      modifies this`modules, this`isFunction
      ensures Painted((c: Cell) => AlignmentAt(v, c).Some?, (c: Cell) => AlignedColour(v, c))
    {
      var alignPatPos := GetAlignmentPatternPositions();
      for i := 0 to |alignPatPos|
        invariant Painted((c: Cell) => AlignedBefore(v, i, 0, c), (c: Cell) => AlignedColour(v, c))
      {
        DrawAlignmentLine(alignPatPos, i, v);
      }
    }

    method DrawFinderPatterns(n: nat)
      requires Valid() && n == size
      modifies this`modules, this`isFunction
      ensures Painted((c: Cell) => FinderAt(n, c).Some?, (c: Cell) => FinderColourAt(n, c))
    {
      FindersApart(n, (n - 4, 3), (3, n - 4));
      DrawFinderPattern(3, 3);
      DrawFinderPattern(size - 4, 3);
      DrawFinderPattern(3, size - 4);
    }

    /** `QrCode::drawFunctionPatterns` before the configuration data. */
    method DrawStaticPatterns()
      requires Valid()
      requires forall c: Cell :: InGrid(c, size) ==> !At(modules, size, c) && !At(isFunction, size, c)
      modifies this`modules, this`isFunction
      ensures Valid()
      ensures forall c: Cell :: InGrid(c, size) ==>
                && At(isFunction, size, c) == (IsTiming(c) || FinderAt(size, c).Some? || AlignmentAt(version, c).Some?)
                && At(modules, size, c) == StaticColour(version, c)
    {
      DrawTimingPatterns();
      DrawFinderPatterns(size);
      DrawAlignmentPatterns(version);
    }

    /** `QrCode::drawFunctionPatterns`: every function module is marked and has its colour. */
    method DrawFunctionPatterns()
      requires Valid()
      requires forall c: Cell :: InGrid(c, size) ==> !At(modules, size, c) && !At(isFunction, size, c)
      modifies this`modules, this`isFunction
      ensures Valid() && isFunction == FunctionGrid(version) && modules == PatternGrid(version, errorCorrectionLevel)
    {
      DrawStaticPatterns();
      WithFormatCells(modules, size, FormatWord(errorCorrectionLevel, 0));
      DrawFormatBits(0);
      DrawVersion(version);
      FunctionGridCells(version);
      PatternGridCells(version, errorCorrectionLevel);
      SameGrid(isFunction, FunctionGrid(version), size);
      SameGrid(modules, PatternGrid(version, errorCorrectionLevel), size);
    }

    /** The cells of `done` hold the bits, and `i` counts them. */
    ghost predicate HasPlaced(base: Grid, done: seq<Cell>, bits: seq<bool>, i: nat)
      reads this
    {
      && Valid() && IsGrid(base, size) && AllInGrid(done, size)
      && modules == Place(base, isFunction, size, done, bits)
      && i == PlacedCount(isFunction, size, done, bits)
    }

    /** The innermost statement of `QrCode::drawCodewords`. */
    method PlaceBit(x: nat, y: nat, data: seq<Byte>, i: nat, ghost base: Grid, ghost done: seq<Cell>)
      returns (next: nat)
      requires InGrid((x, y), size) && HasPlaced(base, done, CodewordBits(data), i)
      modifies this`modules
      ensures HasPlaced(base, done + [(x, y)], CodewordBits(data), next)
    {
      PlaceSnoc(base, isFunction, size, done, (x, y), CodewordBits(data));
      next := i;
      if !isFunction[y][x] && i < |data| * 8 {
        modules := modules[y := modules[y][x := GetBit(data[i / 8], 7 - i % 8)]];
        next := i + 1;
      }
    }

    /** The two columns of a pair at one height. */
    method PlaceTwo(right: nat, y: nat, data: seq<Byte>, i: nat, ghost base: Grid, ghost done: seq<Cell>)
      returns (next: nat)
      requires 1 <= right < size && y < size && HasPlaced(base, done, CodewordBits(data), i)
      modifies this`modules
      ensures HasPlaced(base, done + [(right, y)] + [(right - 1, y)], CodewordBits(data), next)
    {
      next := PlaceBit(right, y, data, i, base, done);
      next := PlaceBit(right - 1, y, data, next, base, done + [(right, y)]);
    }

    /** One step of the vertical loop. */
    method PlaceRow(right: nat, vert: nat, data: seq<Byte>, i: nat, ghost base: Grid, ghost done: seq<Cell>)
      returns (next: nat)
      requires 1 <= right < size && vert < size
      requires HasPlaced(base, done + PairCells(size, right, vert), CodewordBits(data), i)
      modifies this`modules
      ensures HasPlaced(base, done + PairCells(size, right, vert + 1), CodewordBits(data), next)
    {
      PairStep(size, right, vert, done);
      var y := if Upward(right) then size - 1 - vert else vert;
      next := PlaceTwo(right, y, data, i, base, done + PairCells(size, right, vert));
    }

    /** The vertical loop of `QrCode::drawCodewords` for one pair of columns. */
    method DrawPair(right: nat, data: seq<Byte>, i: nat, ghost base: Grid, ghost done: seq<Cell>) returns (next: nat)
      requires 1 <= right < size && HasPlaced(base, done, CodewordBits(data), i)
      modifies this`modules
      ensures HasPlaced(base, done + PairCells(size, right, size), CodewordBits(data), next)
    {
      next := i;
      assert done + PairCells(size, right, 0) == done;
      for vert := 0 to size
        invariant HasPlaced(base, done + PairCells(size, right, vert), CodewordBits(data), next)
      {
        next := PlaceRow(right, vert, data, next, base, done);
      }
    }

    /** One step of the horizontal loop. */
    method DrawColumns(right: nat, data: seq<Byte>, i: nat, ghost base: Grid, ghost done: seq<Cell>,
                       ghost all: seq<Cell>)
      returns (next: nat, ghost more: seq<Cell>)
      requires 1 <= right < size && done + ScanFrom(size, right) == all
      requires HasPlaced(base, done, CodewordBits(data), i)
      modifies this`modules
      ensures more + ScanFrom(size, SkipTiming(right) - 2) == all && HasPlaced(base, more, CodewordBits(data), next)
    {
      var from := if right == 6 then 5 else right;
      ScanStep(size, right, done);
      more := done + PairCells(size, from, size);
      next := DrawPair(from, data, i, base, done);
    }

    /** The loops of `QrCode::drawCodewords`, whatever the function modules are. */
    method DrawScan(data: seq<Byte>) returns (i: nat)
      requires Valid()
      modifies this`modules
      ensures HasPlaced(old(modules), Scan(size), CodewordBits(data), i)
    {
      i := 0;
      ghost var done: seq<Cell> := [];
      ghost var all := Scan(size);
      var right := size - 1;
      ScanStart(size);
      while right >= 1
        invariant right < size && done + ScanFrom(size, right) == all
        invariant HasPlaced(old(modules), done, CodewordBits(data), i)
        decreases right
      {
        i, done := DrawColumns(right, data, i, old(modules), done, all);
        if right == 6 {
          right := 5;
        }
        right := right - 2;
      }
      assert done == all;
    }

    /** `QrCode::drawCodewords`: the zigzag scan places all bits around the function modules. */
    method DrawCodewords(data: seq<Byte>) returns (r: Result<()>)
      requires Valid() && isFunction == FunctionGrid(version)
      modifies this`modules
      ensures Valid() && AllInGrid(Scan(size), size)
      ensures r == if |data| == RawCodewords(version) then Ok(()) else Err(InvalidArgument)
      ensures modules == if r.Ok? then Place(old(modules), isFunction, size, Scan(size), CodewordBits(data))
                         else old(modules)
    {
      CapacityIsExact(version, size);
      if |data| != NumRawDataModules(version) / 8 {
        return Err(InvalidArgument);
      }
      var i := DrawScan(data);
      assert i == |data| * 8;
      return Ok(());
    }

    /** The loops of `QrCode::applyMask`. */
    method MaskModules(msk: nat)
      requires Valid() && msk < 8
      modifies this`modules
      ensures Valid() && modules == Masked(old(modules), isFunction, size, msk)
    {
      MaskedCells(modules, isFunction, size, msk);
      for y := 0 to size
        invariant Valid()
        invariant forall c: Cell :: InGrid(c, size) ==>
                    At(modules, size, c) ==
                      At(if c.1 < y then Masked(old(modules), isFunction, size, msk) else old(modules), size, c)
      {
        for x := 0 to size
          invariant Valid()
          invariant forall c: Cell :: InGrid(c, size) ==>
                      At(modules, size, c) ==
                        At(if c.1 < y || (c.1 == y && c.0 < x) then Masked(old(modules), isFunction, size, msk)
                           else old(modules), size, c)
        {
          var invert := MaskBit(msk, (x, y));
          assert modules[y][x] == At(modules, size, (x, y));
          modules := modules[y := modules[y][x := modules[y][x] != (invert && !isFunction[y][x])]];
        }
      }
      SameGrid(modules, Masked(old(modules), isFunction, size, msk), size);
    }

    /** `QrCode::applyMask` */
    method ApplyMask(msk: int) returns (r: Result<()>)
      requires Valid()
      modifies this`modules
      ensures Valid() && r == if 0 <= msk < 8 then Ok(()) else Err(DomainError)
      ensures modules == if r.Ok? then Masked(old(modules), isFunction, size, msk) else old(modules)
    {
      if msk < 0 || msk > 7 {
        return Err(DomainError);
      }
      MaskModules(msk);
      return Ok(());
    }

    /** `QrCode::addEccAndInterleave` */
    method AddEcc(data: seq<Byte>) returns (r: Result<seq<Byte>>)
      requires Valid()
      ensures r == CodewordsOrError(version, errorCorrectionLevel, data)
      ensures r.Ok? ==> |r.value| == RawCodewords(version)
    {
      if |data| != NumDataCodewords(version, errorCorrectionLevel) {
        return Err(InvalidArgument);
      }
      var numBlocks := NumErrorCorrectionBlocks(errorCorrectionLevel, version);
      var blockEccLen := EccCodewordsPerBlock(errorCorrectionLevel, version);
      var rawCodewords := NumRawDataModules(version) / 8;
      DataCodewords(version, errorCorrectionLevel, rawCodewords, numBlocks, blockEccLen);
      var all := AddEccAndInterleave(rawCodewords, numBlocks, blockEccLen, data);
      AllCodewordsLength(version, errorCorrectionLevel, data);
      return Ok(all);
    }

    /** `QrCode::drawFormatBits` once the format modules are function modules. */
    method RedrawFormatBits(msk: nat)
      requires Valid() && msk < 8 && FormatMarked(isFunction, size)
      modifies this`modules, this`isFunction
      ensures Valid() && isFunction == old(isFunction)
      ensures modules == WithFormat(old(modules), size, FormatWord(errorCorrectionLevel, msk))
    {
      DrawFormatBits(msk);
      SameGrid(isFunction, old(isFunction), size);
    }

    /** Masking and drawing the format, whatever format bits are left over from before. */
    method Finish(msk: nat, ghost base: Grid, ghost before: nat)
      requires Valid() && msk < 8 && FormatMarked(isFunction, size)
      requires IsGrid(base, size) && modules == WithFormat(base, size, before)
      modifies this`modules, this`isFunction
      ensures Valid() && isFunction == old(isFunction)
      ensures modules == Finished(base, isFunction, size, errorCorrectionLevel, msk)
    {
      Trial(base, isFunction, size, errorCorrectionLevel, msk, before);
      var applied := ApplyMask(msk);
      RedrawFormatBits(msk);
    }

    /** Masking again brings the unmasked modules back. */
    method Unmask(msk: nat, ghost base: Grid)
      requires Valid() && msk < 8 && FormatMarked(isFunction, size)
      requires IsGrid(base, size) && modules == Finished(base, isFunction, size, errorCorrectionLevel, msk)
      modifies this`modules
      ensures Valid() && modules == WithFormat(base, size, FormatWord(errorCorrectionLevel, msk))
    {
      Trial(base, isFunction, size, errorCorrectionLevel, msk, 0);
      var applied := ApplyMask(msk);
    }

    /** One trial of the automatic mask choice: the penalty is that of the finished symbol. */
    method TryMask(i: nat, ghost base: Grid, ghost before: nat, ghost penalties: seq<int>) returns (penalty: int)
      requires Valid() && i < 8 && FormatMarked(isFunction, size)
      requires IsGrid(base, size) && modules == WithFormat(base, size, before)
      requires penalties == MaskPenalties(base, isFunction, size, errorCorrectionLevel)
      modifies this`modules, this`isFunction
      ensures Valid() && isFunction == old(isFunction)
      ensures penalty == penalties[i] < LONG_MAX
      ensures modules == WithFormat(base, size, FormatWord(errorCorrectionLevel, i))
    {
      Finish(i, base, before);
      SizeIsOdd(version, size);
      PenaltyBelowLimit(modules, size);
      penalty := GetPenaltyScore(modules, size);
      Unmask(i, base);
    }

    /** The automatic choice: the first mask of least penalty; the modules end up unmasked,
        with the format bits of some mask. */
    method ChooseMask(ghost base: Grid, ghost before: nat, ghost penalties: seq<int>)
      returns (msk: int, ghost left: nat)
      requires Valid() && FormatMarked(isFunction, size)
      requires IsGrid(base, size) && modules == WithFormat(base, size, before)
      requires penalties == MaskPenalties(base, isFunction, size, errorCorrectionLevel)
      modifies this`modules, this`isFunction
      ensures Valid() && isFunction == old(isFunction) && modules == WithFormat(base, size, left)
      ensures IsFirstLeast(penalties, msk)
    {
      var minPenalty := LONG_MAX;
      msk, left := -1, before;
      for i := 0 to 8
        invariant Valid() && isFunction == old(isFunction) && modules == WithFormat(base, size, left)
        invariant if i == 0 then minPenalty == LONG_MAX
                  else IsFirstLeast(penalties[..i], msk) && minPenalty == penalties[msk]
      {
        var penalty := TryMask(i, base, left, penalties);
        left := FormatWord(errorCorrectionLevel, i);
        FirstLeastStep(penalties, i, msk);
        if penalty < minPenalty {
          msk := i;
          minPenalty := penalty;
        }
      }
      assert penalties[..8] == penalties;
    }

    /** The masking part of the constructor. */
    method DoMasking(msk: int, ghost base: Grid, ghost before: nat, ghost penalties: seq<int>)
      requires Valid() && -1 <= msk < 8 && FormatMarked(isFunction, size)
      requires IsGrid(base, size) && modules == WithFormat(base, size, before)
      requires penalties == MaskPenalties(base, isFunction, size, errorCorrectionLevel)
      modifies this`modules, this`isFunction, this`mask
      ensures Valid() && IsChoice(penalties, msk, mask)
      ensures modules == Finished(base, old(isFunction), size, errorCorrectionLevel, mask)
    {
      var chosen := msk;
      ghost var left := before;
      if msk == -1 {
        chosen, left := ChooseMask(base, before, penalties);
      }
      assert 0 <= chosen < 8;
      mask := chosen;
      Finish(chosen, base, left);
    }

    /** The masking part of the constructor on the drawn symbol. */
    method MaskSymbol(msk: int, ghost codewords: seq<Byte>)
      requires Valid() && -1 <= msk < 8 && isFunction == FunctionGrid(version)
      requires modules == Unmasked(version, errorCorrectionLevel, codewords)
      modifies this`modules, this`isFunction, this`mask
      ensures Valid() && Depicts(modules, mask, version, errorCorrectionLevel, codewords, msk)
    {
      UnmaskedFormat(version, errorCorrectionLevel, codewords, size);
      FunctionGridFormat(version, size);
      DoMasking(msk, modules, FormatWord(errorCorrectionLevel, 0),
                MaskPenalties(modules, isFunction, size, errorCorrectionLevel));
    }

    /** Drawing and masking the codewords on the function patterns. */
    method Compose(codewords: seq<Byte>, msk: int)
      requires Valid() && -1 <= msk < 8 && |codewords| == RawCodewords(version)
      requires isFunction == FunctionGrid(version) && modules == PatternGrid(version, errorCorrectionLevel)
      modifies this`modules, this`isFunction, this`mask
      ensures Depicts(modules, mask, version, errorCorrectionLevel, codewords, msk)
    {
      var drawn := DrawCodewords(codewords);
      MaskSymbol(msk, codewords);
      isFunction := [];
    }

    /** The constructor after its argument checks. */
    method Build(dataCodewords: seq<Byte>, msk: int) returns (allCodewords: Result<seq<Byte>>)
      requires Valid() && -1 <= msk < 8
      requires forall c: Cell :: InGrid(c, size) ==> !At(modules, size, c) && !At(isFunction, size, c)
      modifies this`modules, this`isFunction, this`mask
      ensures allCodewords == CodewordsOrError(version, errorCorrectionLevel, dataCodewords)
      ensures allCodewords.Ok? ==> Depicts(modules, mask, version, errorCorrectionLevel, allCodewords.value, msk)
    {
      DrawFunctionPatterns();
      allCodewords := AddEcc(dataCodewords);
      if allCodewords.Ok? {
        Compose(allCodewords.value, msk);
      }
    }

    /** The constructor of `QrCode`. */
    static method Create(ver: int, ecl: Ecc, dataCodewords: seq<Byte>, msk: int) returns (r: Result<QrCode>)
      ensures r.Err? <==> !(MIN_VERSION <= ver <= MAX_VERSION && -1 <= msk <= 7 &&
                            |dataCodewords| == NumDataCodewords(ver, ecl))
      ensures r.Err? ==> r.error ==
                           if MIN_VERSION <= ver <= MAX_VERSION && -1 <= msk <= 7 then InvalidArgument else DomainError
      ensures r.Ok? ==> r.value.version == ver && r.value.size == SizeOf(ver) && r.value.errorCorrectionLevel == ecl
      ensures r.Ok? ==> Depicts(r.value.modules, r.value.mask, ver, ecl, AllCodewords(ver, ecl, dataCodewords), msk)
    {
      if ver < MIN_VERSION || ver > MAX_VERSION || msk < -1 || msk > 7 {
        return Err(DomainError);
      }
      var q := new QrCode(ver, ecl);
      var allCodewords := q.Build(dataCodewords, msk);
      if allCodewords.Err? {
        return Err(allCodewords.error);
      }
      return Ok(q);
    }
  }

  /** The symbol with an automatically chosen mask is the one made with that mask given. */
  method AutomaticIsForced(ver: int, ecl: Ecc, dataCodewords: seq<Byte>)
    returns (auto: Result<QrCode>, forced: Result<QrCode>)
    ensures auto.Err? <==> !(MIN_VERSION <= ver <= MAX_VERSION && |dataCodewords| == NumDataCodewords(ver, ecl))
    ensures auto.Ok? <==> forced.Ok?
    ensures auto.Ok? ==> forced.value.mask == auto.value.mask && forced.value.modules == auto.value.modules
  {
    auto := QrCode.Create(ver, ecl, dataCodewords, -1);
    forced := QrCode.Create(ver, ecl, dataCodewords, if auto.Ok? then auto.value.mask else 0);
    if auto.Ok? {
      MaskDetermines(auto.value.modules, auto.value.mask, -1, forced.value.modules, forced.value.mask,
                     ver, ecl, AllCodewords(ver, ecl, dataCodewords));
    }
  }
}
