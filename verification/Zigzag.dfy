/** Codeword placement (section 7.7.3 of ISO/IEC 18004): the zigzag scan, what it writes
    around the function modules, and reading it back. */
module Zigzag {

  type Grid = seq<seq<bool>>

  type Cell = (int, int)

  /** A square of `n * n` modules, row by row. */
  ghost predicate IsGrid(g: Grid, n: nat)
  {
    |g| == n && forall y :: 0 <= y < n ==> |g[y]| == n
  }

  predicate InGrid(c: Cell, n: nat)
  {
    0 <= c.0 < n && 0 <= c.1 < n
  }

  function At(g: Grid, n: nat, c: Cell): bool
    requires IsGrid(g, n) && InGrid(c, n)
  {
    g[c.1][c.0]
  }

  function Put(g: Grid, n: nat, c: Cell, b: bool): (r: Grid)
    requires IsGrid(g, n) && InGrid(c, n)
    ensures IsGrid(r, n) && forall d: Cell :: InGrid(d, n) ==> At(r, n, d) == if d == c then b else At(g, n, d)
  {
    g[c.1 := g[c.1][c.0 := b]]
  }

  /** The grid of the values of `f`. */
  function Tabulate(n: nat, f: Cell -> bool): (g: Grid)
    ensures IsGrid(g, n)
  {
    seq(n, y => seq(n, x => f((x, y))))
  }

  lemma {:induction false} TabulateCells(n: nat, f: Cell -> bool)
    ensures forall c: Cell :: InGrid(c, n) ==> At(Tabulate(n, f), n, c) == f(c)
  {
    assert forall c: Cell :: c == (c.0, c.1);
  }

  lemma {:induction false} SameGrid(g: Grid, h: Grid, n: nat)
    requires IsGrid(g, n) && IsGrid(h, n)
    requires forall c: Cell :: InGrid(c, n) ==> At(g, n, c) == At(h, n, c)
    ensures g == h
  {
    forall y | 0 <= y < n
      ensures g[y] == h[y]
    {
      forall x | 0 <= x < n ensures g[y][x] == h[y][x] { assert At(g, n, (x, y)) == At(h, n, (x, y)); }
    }
  }

  // ----- the scan order

  predicate Upward(right: int)
  {
    (right + 1) / 2 % 2 == 0
  }

  /** The cells of columns `right` and `right - 1` after `rows` steps. */
  function PairCells(n: nat, right: int, rows: nat): (s: seq<Cell>)
    requires rows <= n
    ensures |s| == 2 * rows
  {
    if rows == 0 then [] else
      var y := if Upward(right) then n - rows else rows - 1;
      PairCells(n, right, rows - 1) + [(right, y), (right - 1, y)]
  }

  /** The left column pairs start one further left, past the vertical timing pattern. */
  function SkipTiming(right: int): int
  {
    if right == 6 then 5 else right
  }

  /** The cells scanned from column pair `right` on. */
  function ScanFrom(n: nat, right: int): seq<Cell>
    decreases right
  {
    if right < 1 then [] else
      PairCells(n, SkipTiming(right), n) + ScanFrom(n, SkipTiming(right) - 2)
  }

  function Scan(n: nat): seq<Cell>
  {
    ScanFrom(n, n - 1)
  }

  ghost predicate Distinct(s: seq<Cell>)
  {
    forall i, j :: 0 <= i < j < |s| ==> s[i] != s[j]
  }

  /** The values of the loop variable `right`. */
  ghost predicate PairStart(right: int)
  {
    if right >= 6 then right % 2 == 0 else right >= -1 && right % 2 == 1
  }

  lemma {:induction false} PairCellsAreColumns(n: nat, right: int, rows: nat)
    requires rows <= n
    ensures Distinct(PairCells(n, right, rows))
    ensures forall c: Cell :: c in PairCells(n, right, rows) <==>
                              (right - 1 <= c.0 <= right &&
                               if Upward(right) then n - rows <= c.1 < n else 0 <= c.1 < rows)
  {
    if rows > 0 {
      PairCellsAreColumns(n, right, rows - 1);
    }
  }

  /** The scan meets every cell outside column 6 exactly once. */
  lemma {:induction false} ScanFromIsBijective(n: nat, right: int)
    requires PairStart(right)
    ensures Distinct(ScanFrom(n, right))
    ensures forall c: Cell :: c in ScanFrom(n, right) <==> (0 <= c.0 <= right && c.0 != 6 && 0 <= c.1 < n)
    decreases right
  {
    if right >= 1 {
      var r := SkipTiming(right);
      PairCellsAreColumns(n, r, n);
      ScanFromIsBijective(n, r - 2);
      DistinctConcat(PairCells(n, r, n), ScanFrom(n, r - 2), r);
    }
  }

  lemma {:induction false} DistinctConcat(s: seq<Cell>, t: seq<Cell>, r: int)
    requires Distinct(s) && Distinct(t)
    requires forall c: Cell :: c in s ==> r - 1 <= c.0
    requires forall c: Cell :: c in t ==> c.0 <= r - 2
    ensures Distinct(s + t)
  {
    forall i, j | 0 <= i < j < |s + t|
      ensures (s + t)[i] != (s + t)[j]
    {
      if i < |s| <= j {
        assert s[i] in s && t[j - |s|] in t;
      }
    }
  }

  lemma {:induction false} ScanIsBijective(n: nat)
    requires n % 2 == 1 && n >= 7
    ensures Distinct(Scan(n))
    ensures forall c: Cell :: c in Scan(n) <==> InGrid(c, n) && c.0 != 6
  {
    ScanFromIsBijective(n, n - 1);
  }

  // ----- writing and reading along a list of cells

  ghost predicate AllInGrid(cells: seq<Cell>, n: nat)
  {
    forall i :: 0 <= i < |cells| ==> InGrid(cells[i], n)
  }

  /** How many of the cells are not function modules. */
  ghost function FreeCount(fn: Grid, n: nat, cells: seq<Cell>): nat
    requires IsGrid(fn, n) && AllInGrid(cells, n)
  {
    if cells == [] then 0 else
      var k := |cells| - 1;
      FreeCount(fn, n, cells[..k]) + if At(fn, n, cells[k]) then 0 else 1
  }

  /** `m` with the bits written into the free cells, in order, until they run out. */
  ghost function Place(m: Grid, fn: Grid, n: nat, cells: seq<Cell>, bits: seq<bool>): (r: Grid)
    requires IsGrid(m, n) && IsGrid(fn, n) && AllInGrid(cells, n)
    ensures IsGrid(r, n)
  {
    if cells == [] then m else
      var k := |cells| - 1;
      var i := FreeCount(fn, n, cells[..k]);
      var p := Place(m, fn, n, cells[..k], bits);
      if !At(fn, n, cells[k]) && i < |bits| then Put(p, n, cells[k], bits[i]) else p
  }

  /** The modules of the free cells, in order. */
  ghost function ReadFree(m: Grid, fn: Grid, n: nat, cells: seq<Cell>): (r: seq<bool>)
    requires IsGrid(m, n) && IsGrid(fn, n) && AllInGrid(cells, n)
    ensures |r| == FreeCount(fn, n, cells)
  {
    if cells == [] then [] else
      var k := |cells| - 1;
      ReadFree(m, fn, n, cells[..k]) + if At(fn, n, cells[k]) then [] else [At(m, n, cells[k])]
  }

  lemma {:induction false} PlaceFrame(m: Grid, fn: Grid, n: nat, cells: seq<Cell>, bits: seq<bool>, c: Cell)
    requires IsGrid(m, n) && IsGrid(fn, n) && AllInGrid(cells, n) && InGrid(c, n)
    requires c !in cells || At(fn, n, c)
    ensures At(Place(m, fn, n, cells, bits), n, c) == At(m, n, c)
  {
    if cells != [] { PlaceFrame(m, fn, n, cells[..|cells| - 1], bits, c); }
  }

  lemma {:induction false} ReadFrame(m: Grid, m': Grid, fn: Grid, n: nat, cells: seq<Cell>)
    requires IsGrid(m, n) && IsGrid(m', n) && IsGrid(fn, n) && AllInGrid(cells, n)
    requires forall c: Cell :: c in cells && !At(fn, n, c) ==> At(m, n, c) == At(m', n, c)
    ensures ReadFree(m, fn, n, cells) == ReadFree(m', fn, n, cells)
  {
    if cells != [] { ReadFrame(m, m', fn, n, cells[..|cells| - 1]); }
  }

  /** The last cell written does not disturb the earlier ones. */
  lemma {:induction false} PrefixKept(m: Grid, fn: Grid, n: nat, cells: seq<Cell>, bits: seq<bool>, k: nat)
    requires IsGrid(m, n) && IsGrid(fn, n) && AllInGrid(cells, n) && Distinct(cells) && k + 1 == |cells|
    ensures ReadFree(Place(m, fn, n, cells, bits), fn, n, cells[..k]) ==
            ReadFree(Place(m, fn, n, cells[..k], bits), fn, n, cells[..k])
  {
    ReadFrame(Place(m, fn, n, cells, bits), Place(m, fn, n, cells[..k], bits), fn, n, cells[..k]);
  }

  /** `was` with its beginning replaced by the bits. */
  function Overlay(was: seq<bool>, bits: seq<bool>): (r: seq<bool>)
    ensures |r| == |was|
  {
    if |was| <= |bits| then bits[..|was|] else bits + was[|bits|..]
  }

  lemma {:induction false} OverlaySnoc(was: seq<bool>, bits: seq<bool>, w: bool)
    ensures Overlay(was + [w], bits) == Overlay(was, bits) + [if |was| < |bits| then bits[|was|] else w]
  {
  }

  /** What the last cell of the list holds after the bits are placed. */
  lemma {:induction false} LastPlaced(m: Grid, fn: Grid, n: nat, cells: seq<Cell>, bits: seq<bool>, k: nat)
    requires IsGrid(m, n) && IsGrid(fn, n) && AllInGrid(cells, n) && Distinct(cells) && k + 1 == |cells|
    requires !At(fn, n, cells[k])
    ensures var i := FreeCount(fn, n, cells[..k]);
            At(Place(m, fn, n, cells, bits), n, cells[k]) == if i < |bits| then bits[i] else At(m, n, cells[k])
  {
    PlaceFrame(m, fn, n, cells[..k], bits, cells[k]);
  }

  /** Reading returns the bits written, then the free modules that were left alone. */
  lemma {:induction false} ReadPlaced(m: Grid, fn: Grid, n: nat, cells: seq<Cell>, bits: seq<bool>)
    requires IsGrid(m, n) && IsGrid(fn, n) && AllInGrid(cells, n) && Distinct(cells)
    ensures ReadFree(Place(m, fn, n, cells, bits), fn, n, cells) == Overlay(ReadFree(m, fn, n, cells), bits)
  {
    if cells != [] {
      var k := |cells| - 1;
      ReadPlaced(m, fn, n, cells[..k], bits);
      PrefixKept(m, fn, n, cells, bits, k);
      if !At(fn, n, cells[k]) {
        LastPlaced(m, fn, n, cells, bits, k);
        OverlaySnoc(ReadFree(m, fn, n, cells[..k]), bits, At(m, n, cells[k]));
      }
    }
  }

  // ----- steps of the placement loop

  /** How many bits are placed once the cells are scanned. */
  ghost function PlacedCount(fn: Grid, n: nat, cells: seq<Cell>, bits: seq<bool>): nat
    requires IsGrid(fn, n) && AllInGrid(cells, n)
  {
    var f := FreeCount(fn, n, cells);
    if f < |bits| then f else |bits|
  }

  lemma {:induction false} PlaceSnoc(m: Grid, fn: Grid, n: nat, cells: seq<Cell>, c: Cell, bits: seq<bool>)
    requires IsGrid(m, n) && IsGrid(fn, n) && AllInGrid(cells, n) && InGrid(c, n)
    ensures AllInGrid(cells + [c], n)
    ensures var i := PlacedCount(fn, n, cells, bits);
            var p := Place(m, fn, n, cells, bits);
            if !At(fn, n, c) && i < |bits| then
              && Place(m, fn, n, cells + [c], bits) == Put(p, n, c, bits[i])
              && PlacedCount(fn, n, cells + [c], bits) == i + 1
            else
              && Place(m, fn, n, cells + [c], bits) == p
              && PlacedCount(fn, n, cells + [c], bits) == i
  {
    assert (cells + [c])[..|cells|] == cells;
  }

  lemma {:induction false} ScanStep(n: nat, right: int, done: seq<Cell>)
    requires right >= 1
    ensures var r := SkipTiming(right);
            done + ScanFrom(n, right) == done + PairCells(n, r, n) + ScanFrom(n, r - 2)
  {
  }

  lemma {:induction false} ScanStart(n: nat)
    ensures [] + ScanFrom(n, n - 1) == Scan(n)
  {
  }

  lemma {:induction false} PairStep(n: nat, right: int, rows: nat, done: seq<Cell>)
    requires rows < n
    ensures var y := if Upward(right) then n - 1 - rows else rows;
            done + PairCells(n, right, rows + 1) == done + PairCells(n, right, rows) + [(right, y)] + [(right - 1, y)]
  {
  }
}
