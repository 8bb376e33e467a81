/** The finished symbol as a value: function patterns, placed codewords, mask and format
    information, and how a reader takes it apart again. */
module Symbols {
  import opened Wrappers
  import opened Bits
  import opened Versions
  import opened Zigzag
  import opened FunctionPatterns
  import opened FormatInfo
  import opened SymbolPenalty
  import opened Interleaving
  import opened ErrorCorrection
  import opened Gf256
  import opened Polynomials

  // ----- masking

  /** The mask patterns of `QrCode::applyMask`. */
  predicate MaskBit(msk: nat, c: Cell)
    requires msk < 8 && c.0 >= 0 && c.1 >= 0
  {
    var x, y := c.0, c.1;
    match msk
    case 0 => (x + y) % 2 == 0
    case 1 => y % 2 == 0
    case 2 => x % 3 == 0
    case 3 => (x + y) % 3 == 0
    case 4 => (x / 3 + y / 2) % 2 == 0
    case 5 => x * y % 2 + x * y % 3 == 0
    case 6 => (x * y % 2 + x * y % 3) % 2 == 0
    case _ => ((x + y) % 2 + x * y % 3) % 2 == 0
  }

  /** `m` with the modules that are not function modules inverted where the mask says so. */
  function Masked(m: Grid, fn: Grid, n: nat, msk: nat): (r: Grid)
    requires IsGrid(m, n) && IsGrid(fn, n) && msk < 8
    ensures IsGrid(r, n)
  {
    Tabulate(n, (c: Cell) => InGrid(c, n) && At(m, n, c) != (MaskBit(msk, c) && !At(fn, n, c)))
  }

  lemma {:induction false} MaskedCells(m: Grid, fn: Grid, n: nat, msk: nat)
    requires IsGrid(m, n) && IsGrid(fn, n) && msk < 8
    ensures forall c: Cell :: InGrid(c, n) ==>
              At(Masked(m, fn, n, msk), n, c) == (At(m, n, c) != (MaskBit(msk, c) && !At(fn, n, c)))
  {
    TabulateCells(n, (c: Cell) => InGrid(c, n) && At(m, n, c) != (MaskBit(msk, c) && !At(fn, n, c)));
  }

  /** `m` with both copies of the format word drawn. */
  function WithFormat(m: Grid, n: nat, word: nat): (r: Grid)
    requires IsGrid(m, n)
    ensures IsGrid(r, n)
  {
    Tabulate(n, (c: Cell) => InGrid(c, n) &&
      if FormatIndex(n, c).Some? then FormatColour(word, FormatIndex(n, c).value) else At(m, n, c))
  }

  lemma {:induction false} WithFormatCells(m: Grid, n: nat, word: nat)
    requires IsGrid(m, n)
    ensures forall c: Cell :: InGrid(c, n) ==>
              At(WithFormat(m, n, word), n, c) ==
              if FormatIndex(n, c).Some? then FormatColour(word, FormatIndex(n, c).value) else At(m, n, c)
  {
    TabulateCells(n, (c: Cell) => InGrid(c, n) &&
      if FormatIndex(n, c).Some? then FormatColour(word, FormatIndex(n, c).value) else At(m, n, c));
  }

  /** All format modules are function modules. */
  ghost predicate FormatMarked(fn: Grid, n: nat)
  {
    IsGrid(fn, n) && forall c: Cell :: InGrid(c, n) && FormatIndex(n, c).Some? ==> At(fn, n, c)
  }

  lemma {:induction false} MaskTwice(m: Grid, fn: Grid, n: nat, msk: nat)
    requires IsGrid(m, n) && IsGrid(fn, n) && msk < 8
    ensures Masked(Masked(m, fn, n, msk), fn, n, msk) == m
  {
    MaskedCells(m, fn, n, msk);
    MaskedCells(Masked(m, fn, n, msk), fn, n, msk);
    SameGrid(Masked(Masked(m, fn, n, msk), fn, n, msk), m, n);
  }

  lemma {:induction false} FormatOverwrites(m: Grid, n: nat, word: nat, word': nat)
    requires IsGrid(m, n)
    ensures WithFormat(WithFormat(m, n, word), n, word') == WithFormat(m, n, word')
  {
    WithFormatCells(m, n, word);
    WithFormatCells(m, n, word');
    WithFormatCells(WithFormat(m, n, word), n, word');
    SameGrid(WithFormat(WithFormat(m, n, word), n, word'), WithFormat(m, n, word'), n);
  }

  /** Format modules are function modules, so masking and drawing the format commute. */
  lemma {:induction false} MaskAndFormatCommute(m: Grid, fn: Grid, n: nat, msk: nat, word: nat)
    requires IsGrid(m, n) && FormatMarked(fn, n) && msk < 8
    ensures Masked(WithFormat(m, n, word), fn, n, msk) == WithFormat(Masked(m, fn, n, msk), n, word)
  {
    WithFormatCells(m, n, word);
    MaskedCells(m, fn, n, msk);
    MaskedCells(WithFormat(m, n, word), fn, n, msk);
    WithFormatCells(Masked(m, fn, n, msk), n, word);
    SameGrid(Masked(WithFormat(m, n, word), fn, n, msk), WithFormat(Masked(m, fn, n, msk), n, word), n);
  }

  /** The final grid for a mask, from the grid with the unmasked codewords. */
  function Finished(base: Grid, fn: Grid, n: nat, ecl: Ecc, msk: nat): (r: Grid)
    requires IsGrid(base, n) && IsGrid(fn, n) && msk < 8
    ensures IsGrid(r, n)
  {
    WithFormat(Masked(base, fn, n, msk), n, FormatWord(ecl, msk))
  }

  /** A mask trial: whatever format bits are left over, masking and drawing the format give the
      finished symbol, and masking again brings the unmasked modules back. */
  lemma {:induction false} Trial(base: Grid, fn: Grid, n: nat, ecl: Ecc, msk: nat, before: nat)
    requires IsGrid(base, n) && FormatMarked(fn, n) && msk < 8
    ensures var word := FormatWord(ecl, msk);
            && WithFormat(Masked(WithFormat(base, n, before), fn, n, msk), n, word) == Finished(base, fn, n, ecl, msk)
            && Masked(Finished(base, fn, n, ecl, msk), fn, n, msk) == WithFormat(base, n, word)
  {
    var word, masked := FormatWord(ecl, msk), Masked(base, fn, n, msk);
    MaskAndFormatCommute(base, fn, n, msk, before);
    FormatOverwrites(masked, n, before, word);
    MaskAndFormatCommute(masked, fn, n, msk, word);
    MaskTwice(base, fn, n, msk);
  }

  /** The penalties of the finished symbols for all masks. */
  ghost function MaskPenalties(base: Grid, fn: Grid, n: nat, ecl: Ecc): (p: seq<int>)
    requires IsGrid(base, n) && IsGrid(fn, n) && n >= 1
    ensures |p| == 8
  {
    seq(8, k requires 0 <= k < 8 => GridPenalty(Finished(base, fn, n, ecl, k), n))
  }

  /** Position of the least number, and the first such. */
  predicate IsFirstLeast(p: seq<int>, k: int)
  {
    0 <= k < |p| && forall i :: 0 <= i < |p| ==> if i < k then p[k] < p[i] else p[k] <= p[i]
  }

  lemma {:induction false} FirstLeastStep(p: seq<int>, i: nat, k: int)
    requires i < |p| && (i == 0 || IsFirstLeast(p[..i], k))
    ensures IsFirstLeast(p[..i + 1], if i == 0 || p[i] < p[k] then i else k)
  {
    assert p[..i + 1] == p[..i] + [p[i]];
  }

  /** The requested mask or, for -1, the first of least penalty. */
  predicate IsChoice(penalties: seq<int>, msk: int, mask: int)
  {
    0 <= mask < 8 && if msk == -1 then IsFirstLeast(penalties, mask) else mask == msk
  }

  // ----- the grid before masking

  /** Colours of the function modules, with the format bits of mask 0; data modules white. */
  function PatternGrid(ver: int, ecl: Ecc): (g: Grid)
    requires ver >= 1
    ensures IsGrid(g, SizeOf(ver))
  {
    Tabulate(SizeOf(ver), (c: Cell) => ver >= 1 && PatternColour(ver, ecl, c))
  }

  lemma {:induction false} PatternGridCells(ver: int, ecl: Ecc)
    requires ver >= 1
    ensures forall c: Cell :: InGrid(c, SizeOf(ver)) ==>
                At(PatternGrid(ver, ecl), SizeOf(ver), c) == PatternColour(ver, ecl, c)
  {
    TabulateCells(SizeOf(ver), (c: Cell) => ver >= 1 && PatternColour(ver, ecl, c));
  }

  predicate PatternColour(ver: int, ecl: Ecc, c: Cell)
    requires ver >= 1
  {
    var f, v := FormatIndex(SizeOf(ver), c), VersionIndex(ver, c);
    if v.Some? then VersionColour(VersionWord(ver), v)
    else if f.Some? then FormatColour(FormatWord(ecl, 0), f.value)
    else StaticColour(ver, c)
  }

  /** All codewords placed, no mask applied. */
  ghost function Unmasked(ver: int, ecl: Ecc, codewords: seq<Byte>): (g: Grid)
    requires ver >= 1
    ensures IsGrid(g, SizeOf(ver))
  {
    ScanOfVersion(ver, SizeOf(ver));
    Place(PatternGrid(ver, ecl), FunctionGrid(ver), SizeOf(ver), Scan(SizeOf(ver)), CodewordBits(codewords))
  }

  lemma {:induction false} ScanOfVersion(ver: int, n: nat)
    requires ver >= 1 && n == SizeOf(ver)
    ensures AllInGrid(Scan(n), n) && Distinct(Scan(n))
  {
    SizeIsOdd(ver, n);
    ScanInGrid(n);
  }

  /** The symbol of the codewords with a given mask. */
  ghost function Symbol(ver: int, ecl: Ecc, codewords: seq<Byte>, msk: nat): (g: Grid)
    requires ver >= 1 && msk < 8
    ensures IsGrid(g, SizeOf(ver))
  {
    Finished(Unmasked(ver, ecl, codewords), FunctionGrid(ver), SizeOf(ver), ecl, msk)
  }

  /** What the encoder promises of a symbol: it is the finished symbol for its mask, which is the
      requested one or, for -1, the first of least penalty. */
  ghost predicate Depicts(m: Grid, mask: int, ver: int, ecl: Ecc, codewords: seq<Byte>, msk: int)
    requires ver >= 1
  {
    && IsChoice(MaskPenalties(Unmasked(ver, ecl, codewords), FunctionGrid(ver), SizeOf(ver), ecl), msk, mask)
    && m == Symbol(ver, ecl, codewords, mask)
  }

  /** Two symbols of the same codewords with the same mask are the same. */
  lemma {:induction false} MaskDetermines(m: Grid, mask: int, msk: int, m': Grid, mask': int, ver: int, ecl: Ecc,
                                          codewords: seq<Byte>)
    requires ver >= 1 && Depicts(m, mask, ver, ecl, codewords, msk) && Depicts(m', mask', ver, ecl, codewords, mask)
    ensures mask' == mask && m' == m
  {
  }

  // ----- reading

  /** Where bit `i` of the first copy of the format word is. */
  function FormatCell(i: nat): Cell
    requires i < 15
  {
    if i <= 5 then (8, i) else if i == 6 then (8, 7) else if i == 7 then (8, 8)
    else if i == 8 then (7, 8) else (14 - i, 8)
  }

  /** Where bit `i` of the second copy is. */
  function SecondFormatCell(n: int, i: nat): Cell
    requires i < 15
  {
    if i < 8 then (n - 1 - i, 8) else (8, n - 15 + i)
  }

  function FormatCells(n: int, second: bool): (cells: seq<Cell>)
    ensures |cells| == 15
  {
    seq(15, i requires 0 <= i < 15 => if second then SecondFormatCell(n, i) else FormatCell(i))
  }

  ghost function CellBits(m: Grid, n: nat, cells: seq<Cell>): (bits: seq<bool>)
    requires IsGrid(m, n) && AllInGrid(cells, n)
    ensures |bits| == |cells|
  {
    seq(|cells|, t requires 0 <= t < |cells| => At(m, n, cells[|cells| - 1 - t]))
  }

  /** The word whose bit `i` is in cell `i`. */
  ghost function ReadWord(m: Grid, n: nat, cells: seq<Cell>): nat
    requires IsGrid(m, n) && AllInGrid(cells, n)
  {
    ValueOf(CellBits(m, n, cells))
  }

  lemma {:induction false} WordRead(m: Grid, n: nat, cells: seq<Cell>, word: nat)
    requires IsGrid(m, n) && AllInGrid(cells, n) && word < Pow2(|cells|)
    requires forall i :: 0 <= i < |cells| ==> At(m, n, cells[i]) == GetBit(word, i)
    ensures ReadWord(m, n, cells) == word
  {
    ValueFromBits(CellBits(m, n, cells), word);
  }

  lemma {:induction false} FormatCellIndex(n: nat, second: bool, i: nat)
    requires n >= 21 && i < 15
    ensures var c := FormatCells(n, second)[i]; InGrid(c, n) && FormatIndex(n, c) == Some(i)
  {
  }

  /** Either copy of the format word gives level and mask. */
  lemma {:induction false} FormatReadable(m: Grid, n: nat, ecl: Ecc, msk: nat, second: bool)
    requires IsGrid(m, n) && n >= 21 && msk < 8
    ensures AllInGrid(FormatCells(n, second), n)
    ensures ReadFormatWord(ReadWord(WithFormat(m, n, FormatWord(ecl, msk)), n, FormatCells(n, second))) == (ecl, msk)
  {
    var word, cells := FormatWord(ecl, msk), FormatCells(n, second);
    WithFormatCells(m, n, word);
    forall i | 0 <= i < 15
      ensures InGrid(cells[i], n) && At(WithFormat(m, n, word), n, cells[i]) == GetBit(word, i)
    {
      FormatCellIndex(n, second, i);
    }
    FormatWordBound(ecl, msk);
    WordRead(WithFormat(m, n, word), n, cells, word);
    FormatWordReadable(ecl, msk);
  }

  lemma {:induction false} FunctionGridFormat(ver: int, n: nat)
    requires ver >= 1 && n == SizeOf(ver)
    ensures FormatMarked(FunctionGrid(ver), n)
  {
    FunctionGridCells(ver);
  }

  /** The unmasked symbol already has the format bits of mask 0. */
  lemma {:induction false} UnmaskedFormat(ver: int, ecl: Ecc, codewords: seq<Byte>, n: nat)
    requires ver >= 1 && n == SizeOf(ver)
    ensures Unmasked(ver, ecl, codewords) == WithFormat(Unmasked(ver, ecl, codewords), n, FormatWord(ecl, 0))
  {
    ScanOfVersion(ver, n);
    FunctionGridFormat(ver, n);
    PatternFormat(ver, ecl, n);
    PlacedFormat(PatternGrid(ver, ecl), FunctionGrid(ver), n, Scan(n), CodewordBits(codewords), FormatWord(ecl, 0));
  }

  lemma {:induction false} PatternFormat(ver: int, ecl: Ecc, n: nat)
    requires ver >= 1 && n == SizeOf(ver)
    ensures forall c: Cell :: InGrid(c, n) && FormatIndex(n, c).Some? ==>
              At(PatternGrid(ver, ecl), n, c) == FormatColour(FormatWord(ecl, 0), FormatIndex(n, c).value)
  {
    PatternGridCells(ver, ecl);
    forall c: Cell | InGrid(c, n) && FormatIndex(n, c).Some?
      ensures PatternColour(ver, ecl, c) == FormatColour(FormatWord(ecl, 0), FormatIndex(n, c).value)
    {
      FormatApart(ver, n, c);
    }
  }

  /** No format bit is on a version bit. */
  lemma {:induction false} FormatApart(ver: int, n: nat, c: Cell)
    requires ver >= 1 && n == SizeOf(ver) && FormatIndex(n, c).Some?
    ensures VersionIndex(ver, c).None?
  {
  }

  lemma {:induction false} PlacedFormat(m: Grid, fn: Grid, n: nat, cells: seq<Cell>, bits: seq<bool>, word: nat)
    requires IsGrid(m, n) && FormatMarked(fn, n) && AllInGrid(cells, n)
    requires forall c: Cell :: InGrid(c, n) && FormatIndex(n, c).Some? ==>
                 At(m, n, c) == FormatColour(word, FormatIndex(n, c).value)
    ensures Place(m, fn, n, cells, bits) == WithFormat(Place(m, fn, n, cells, bits), n, word)
  {
    var g := Place(m, fn, n, cells, bits);
    WithFormatCells(g, n, word);
    forall c: Cell | InGrid(c, n)
      ensures At(g, n, c) == At(WithFormat(g, n, word), n, c)
    {
      if FormatIndex(n, c).Some? { PlaceFrame(m, fn, n, cells, bits, c); }
    }
    SameGrid(g, WithFormat(g, n, word), n);
  }

  // ----- the version word

  /** Where bit `i` of either copy of the version word is. */
  function VersionCellAt(n: int, i: nat, second: bool): Cell
  {
    if second then (i / 3, n - 11 + i % 3) else (n - 11 + i % 3, i / 3)
  }

  function VersionWordCells(n: int, second: bool): (cells: seq<Cell>)
    ensures |cells| == 18
  {
    seq(18, i requires 0 <= i < 18 => VersionCellAt(n, i, second))
  }

  /** Function modules other than those of the format keep their colour to the end. */
  lemma {:induction false} PatternKept(ver: int, ecl: Ecc, codewords: seq<Byte>, msk: nat, n: nat, c: Cell)
    requires ver >= 1 && msk < 8 && n == SizeOf(ver) && InGrid(c, n) &&
             At(FunctionGrid(ver), n, c) && FormatIndex(n, c).None?
    ensures At(Symbol(ver, ecl, codewords, msk), n, c) == At(PatternGrid(ver, ecl), n, c)
  {
    var base, fn := Unmasked(ver, ecl, codewords), FunctionGrid(ver);
    ScanOfVersion(ver, n);
    WithFormatCells(Masked(base, fn, n, msk), n, FormatWord(ecl, msk));
    MaskedCells(base, fn, n, msk);
    PlaceFrame(PatternGrid(ver, ecl), fn, n, Scan(n), CodewordBits(codewords), c);
  }

  lemma {:induction false} VersionBitKept(ver: int, ecl: Ecc, codewords: seq<Byte>, msk: nat, n: nat, i: nat,
                                          second: bool)
    requires 7 <= ver <= MAX_VERSION && msk < 8 && n == SizeOf(ver) && i < 18
    ensures var c := VersionCellAt(n, i, second);
            InGrid(c, n) && At(Symbol(ver, ecl, codewords, msk), n, c) == GetBit(VersionWord(ver), i)
  {
    var c := VersionCellAt(n, i, second);
    VersionCells(ver, i, n - 11 + i % 3, i / 3);
    VersionModuleKept(ver, ecl, codewords, msk, n, i, c);
  }

  lemma {:induction false} VersionModuleKept(ver: int, ecl: Ecc, codewords: seq<Byte>, msk: nat, n: nat, i: nat,
                                             c: Cell)
    requires ver >= 1 && msk < 8 && n == SizeOf(ver) && InGrid(c, n) && VersionIndex(ver, c) == Some(i)
    ensures At(Symbol(ver, ecl, codewords, msk), n, c) == GetBit(VersionWord(ver), i)
  {
    if FormatIndex(n, c).Some? { FormatApart(ver, n, c); }
    FunctionGridCells(ver);
    PatternGridCells(ver, ecl);
    PatternKept(ver, ecl, codewords, msk, n, c);
  }

  /** From version 7 on, either copy of the version word in the final symbol gives the version. */
  lemma {:induction false} VersionReadable(ver: int, ecl: Ecc, codewords: seq<Byte>, msk: nat, n: nat, second: bool)
    requires 7 <= ver <= MAX_VERSION && msk < 8 && n == SizeOf(ver)
    ensures AllInGrid(VersionWordCells(n, second), n)
    ensures Shr(ReadWord(Symbol(ver, ecl, codewords, msk), n, VersionWordCells(n, second)), 12) == ver
  {
    var cells := VersionWordCells(n, second);
    forall i | 0 <= i < 18
      ensures InGrid(cells[i], n) && At(Symbol(ver, ecl, codewords, msk), n, cells[i]) == GetBit(VersionWord(ver), i)
    {
      VersionBitKept(ver, ecl, codewords, msk, n, i, second);
    }
    VersionWordBound(ver, 18);
    WordRead(Symbol(ver, ecl, codewords, msk), n, cells, VersionWord(ver));
    VersionWordReadable(ver);
  }

  // ----- the reader

  /** The modules of the data area, unmasked and in scan order. */
  ghost function ReadBits(m: Grid, ver: int, msk: nat): (bits: seq<bool>)
    requires ver >= 1 && IsGrid(m, SizeOf(ver)) && msk < 8
  {
    ScanOfVersion(ver, SizeOf(ver));
    ReadFree(Masked(m, FunctionGrid(ver), SizeOf(ver), msk), FunctionGrid(ver), SizeOf(ver), Scan(SizeOf(ver)))
  }

  lemma {:induction false} FormatNotRead(base: Grid, fn: Grid, n: nat, word: nat)
    requires IsGrid(base, n) && FormatMarked(fn, n) && AllInGrid(Scan(n), n)
    ensures ReadFree(WithFormat(base, n, word), fn, n, Scan(n)) == ReadFree(base, fn, n, Scan(n))
  {
    WithFormatCells(base, n, word);
    ReadFrame(WithFormat(base, n, word), base, fn, n, Scan(n));
  }

  /** Modules for data are white before they are placed. */
  lemma {:induction false} DataModulesWhite(ver: int, ecl: Ecc, n: nat)
    requires ver >= 1 && n == SizeOf(ver)
    ensures forall c: Cell :: InGrid(c, n) && !At(FunctionGrid(ver), n, c) ==> !At(PatternGrid(ver, ecl), n, c)
  {
    PatternGridCells(ver, ecl);
    FunctionGridCells(ver);
  }

  lemma {:induction false} WhiteRead(m: Grid, fn: Grid, n: nat, cells: seq<Cell>)
    requires IsGrid(m, n) && IsGrid(fn, n) && AllInGrid(cells, n)
    requires forall c: Cell :: InGrid(c, n) && !At(fn, n, c) ==> !At(m, n, c)
    ensures forall i :: 0 <= i < |ReadFree(m, fn, n, cells)| ==> !ReadFree(m, fn, n, cells)[i]
  {
    if cells != [] { WhiteRead(m, fn, n, cells[..|cells| - 1]); }
  }

  /** A reader who undoes the mask and follows the scan finds the placed bits; the remainder modules are white. */
  lemma {:induction false} BitsRead(ver: int, ecl: Ecc, codewords: seq<Byte>, msk: nat, n: nat)
    requires ver >= 1 && msk < 8 && n == SizeOf(ver)
    ensures AllInGrid(Scan(n), n)
    ensures ReadBits(Symbol(ver, ecl, codewords, msk), ver, msk)
            == Overlay(ReadFree(PatternGrid(ver, ecl), FunctionGrid(ver), n, Scan(n)), CodewordBits(codewords))
    ensures var bits := ReadBits(Symbol(ver, ecl, codewords, msk), ver, msk);
            forall i :: 8 * |codewords| <= i < |bits| ==> !bits[i]
  {
    var fn, base := FunctionGrid(ver), Unmasked(ver, ecl, codewords);
    ScanOfVersion(ver, n);
    FunctionGridFormat(ver, n);
    Trial(base, fn, n, ecl, msk, 0);
    FormatNotRead(base, fn, n, FormatWord(ecl, msk));
    ReadPlaced(PatternGrid(ver, ecl), fn, n, Scan(n), CodewordBits(codewords));
    DataModulesWhite(ver, ecl, n);
    WhiteRead(PatternGrid(ver, ecl), fn, n, Scan(n));
  }

  /** Between none and seven data modules are left over. */
  lemma {:induction false} RemainderBits(ver: int)
    requires MIN_VERSION <= ver <= MAX_VERSION
    ensures 0 <= NumRawDataModules(ver) - 8 * RawCodewords(ver) < 8
    ensures RawCodewords(ver) >= 26
  {
    RawModulesInRange(ver);
  }

  ghost function ReadCodewords(m: Grid, ver: int, msk: nat): (all: seq<Byte>)
    requires MIN_VERSION <= ver <= MAX_VERSION && IsGrid(m, SizeOf(ver)) && msk < 8
    ensures |all| == RawCodewords(ver)
  {
    CapacityIsExact(ver, SizeOf(ver));
    RemainderBits(ver);
    PackFirst(ReadBits(m, ver, msk), RawCodewords(ver))
  }

  lemma {:induction false} CodewordsRead(ver: int, ecl: Ecc, codewords: seq<Byte>, msk: nat)
    requires MIN_VERSION <= ver <= MAX_VERSION && |codewords| == RawCodewords(ver) && msk < 8
    ensures ReadCodewords(Symbol(ver, ecl, codewords, msk), ver, msk) == codewords
  {
    BitsRead(ver, ecl, codewords, msk, SizeOf(ver));
    CapacityIsExact(ver, SizeOf(ver));
    RemainderBits(ver);
    PackCodewordBits(ReadBits(Symbol(ver, ecl, codewords, msk), ver, msk), codewords);
  }

  // ----- data codewords

  /** Block structure for a version and level. */
  function SymbolLayout(ver: int, ecl: Ecc): (l: Layout)
    requires MIN_VERSION <= ver <= MAX_VERSION
    ensures l.Valid() && l.Start(l.blocks) == NumDataCodewords(ver, ecl) && l.Raw() == RawCodewords(ver)
  {
    var raw, blocks, ecc := RawCodewords(ver), NumErrorCorrectionBlocks(ecl, ver), EccCodewordsPerBlock(ecl, ver);
    DataCodewords(ver, ecl, raw, blocks, ecc);
    LayoutFits(raw, blocks, ecc);
    LayoutOf(raw, blocks, ecc)
  }

  /** Data and error correction codewords in placement order. */
  function AllCodewords(ver: int, ecl: Ecc, data: seq<Byte>): seq<Byte>
    requires MIN_VERSION <= ver <= MAX_VERSION && |data| == NumDataCodewords(ver, ecl)
  {
    Encoded(SymbolLayout(ver, ecl), data)
  }

  /** The codewords to draw; data of the wrong length is refused. */
  function CodewordsOrError(ver: int, ecl: Ecc, data: seq<Byte>): (r: Result<seq<Byte>>)
    requires MIN_VERSION <= ver <= MAX_VERSION
  {
    if |data| == NumDataCodewords(ver, ecl) then Ok(AllCodewords(ver, ecl, data)) else Err(InvalidArgument)
  }

  lemma {:induction false} AllCodewordsLength(ver: int, ecl: Ecc, data: seq<Byte>)
    requires MIN_VERSION <= ver <= MAX_VERSION && |data| == NumDataCodewords(ver, ecl)
    ensures |AllCodewords(ver, ecl, data)| == RawCodewords(ver)
  {
    var l := SymbolLayout(ver, ecl);
    InterleavedLength(l, data, EccBlocks(l, data));
  }

  /** A symbol as a reader sees it. */
  datatype Reading = Reading(ecl: Ecc, mask: nat, data: seq<Byte>)

  /** The reader: format word, unmasking, scan and de-interleaving, from the modules alone. */
  ghost function ReadSymbol(m: Grid, ver: int): Reading
    requires MIN_VERSION <= ver <= MAX_VERSION && IsGrid(m, SizeOf(ver))
  {
    var n := SizeOf(ver);
    assert AllInGrid(FormatCells(n, false), n);
    var (ecl, msk) := ReadFormatWord(ReadWord(m, n, FormatCells(n, false)));
    var l := SymbolLayout(ver, ecl);
    Reading(ecl, msk, Deinterleave(l, ReadCodewords(m, ver, msk), l.blocks))
  }

  /** Reading a symbol gives back its level, mask and data codewords. */
  lemma {:induction false} SymbolRoundTrip(ver: int, ecl: Ecc, data: seq<Byte>, msk: nat)
    requires MIN_VERSION <= ver <= MAX_VERSION && |data| == NumDataCodewords(ver, ecl) && msk < 8
    ensures ReadSymbol(Symbol(ver, ecl, AllCodewords(ver, ecl, data), msk), ver) == Reading(ecl, msk, data)
  {
    var l, all := SymbolLayout(ver, ecl), AllCodewords(ver, ecl, data);
    FormatReadable(Masked(Unmasked(ver, ecl, all), FunctionGrid(ver), SizeOf(ver), msk), SizeOf(ver), ecl, msk, false);
    DeinterleaveInverts(l, data, EccBlocks(l, data));
    AllCodewordsLength(ver, ecl, data);
    CodewordsRead(ver, ecl, all, msk);
  }

  /** Every block of the symbol is a Reed-Solomon codeword. */
  lemma {:induction false} BlocksAreCodewords(ver: int, ecl: Ecc, data: seq<Byte>, msk: nat, j: nat, i: nat)
    requires MIN_VERSION <= ver <= MAX_VERSION && |data| == NumDataCodewords(ver, ecl) && msk < 8
    requires j < SymbolLayout(ver, ecl).blocks && i < SymbolLayout(ver, ecl).ecc
    ensures var l, all := SymbolLayout(ver, ecl),
                          ReadCodewords(Symbol(ver, ecl, AllCodewords(ver, ecl, data), msk), ver, msk);
            Eval(ReadData(l, all, j) + ReadEcc(l, all, j), Pow(2, i)) == 0
  {
    AllCodewordsLength(ver, ecl, data);
    CodewordsRead(ver, ecl, AllCodewords(ver, ecl, data), msk);
    BlockIsCodeword(SymbolLayout(ver, ecl), data, j, i);
  }
}
