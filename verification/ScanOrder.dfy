/** The order of the zigzag scan: which cell comes when, and how it moves. */
module ScanOrder {
  import opened Zigzag

  /** The right column of pair `p`, counted from the right; column 6 belongs to no pair. */
  function RightColumn(n: nat, p: nat): int
  {
    if n - 1 - 2 * p > 6 then n - 1 - 2 * p else n - 2 - 2 * p
  }

  /** Step `j` within pair `p`: the right cell of a row and then the left one, going up in the first pair and then
      down and up in turn. */
  function CellOf(n: nat, p: nat, j: nat): Cell
  {
    (RightColumn(n, p) - j % 2, if p % 2 == 0 then n - 1 - j / 2 else j / 2)
  }

  // ----- blocks of one width in a row

  function Flat(block: nat -> seq<Cell>, p: nat, k: nat): seq<Cell>
    decreases k - p
  {
    if p >= k then [] else block(p) + Flat(block, p + 1, k)
  }

  /** Where block `q` starts. */
  function Start(w: nat, q: nat): nat
  {
    if q == 0 then 0 else Start(w, q - 1) + w
  }

  lemma {:induction false} StartIsProduct(w: nat, q: nat)
    ensures Start(w, q) == w * q
  {
    if q > 0 {
      StartIsProduct(w, q - 1);
      assert w * q == w * (q - 1) + w;
    }
  }

  lemma {:induction false} StartGrows(w: nat, q: nat, k: nat)
    requires k <= q
    ensures Start(w, k) <= Start(w, q)
  {
    if k < q { StartGrows(w, q - 1, k); }
  }

  lemma {:induction false} FlatLength(block: nat -> seq<Cell>, w: nat, p: nat, k: nat)
    requires p <= k && forall i: nat :: |block(i)| == w
    ensures |Flat(block, p, k)| == Start(w, k - p)
    decreases k - p
  {
    if p < k { FlatLength(block, w, p + 1, k); }
  }

  lemma {:induction false} FlatAt(block: nat -> seq<Cell>, w: nat, p: nat, k: nat, q: nat, j: nat)
    requires p + q < k && j < w && forall i: nat :: |block(i)| == w
    ensures Start(w, q) + j < |Flat(block, p, k)| && Flat(block, p, k)[Start(w, q) + j] == block(p + q)[j]
    decreases q
  {
    if q > 0 { FlatAt(block, w, p + 1, k, q - 1, j); }
  }

  /** Every place is in some block. */
  lemma {:induction false} Position(w: nat, i: nat, k: nat) returns (q: nat, j: nat)
    requires i < Start(w, k)
    ensures i == Start(w, q) + j && j < w && q < k
  {
    if i < Start(w, k - 1) {
      q, j := Position(w, i, k - 1);
    } else {
      q, j := k - 1, i - Start(w, k - 1);
    }
  }

  // ----- the scan in blocks

  function PairBlock(n: nat): nat -> seq<Cell>
  {
    (p: nat) => PairCells(n, RightColumn(n, p), n)
  }

  /** The value of the loop variable at pair `p`. */
  function LoopColumn(n: nat, p: nat): int
  {
    if n - 1 - 2 * p >= 6 then n - 1 - 2 * p else n - 2 - 2 * p
  }

  lemma {:induction false} ScanInBlocks(n: nat, h: nat, p: nat)
    requires n == 2 * h + 1 && h >= 4 && p <= h
    ensures ScanFrom(n, LoopColumn(n, p)) == Flat(PairBlock(n), p, h)
    decreases h - p
  {
    if p < h {
      ScanInBlocks(n, h, p + 1);
      assert SkipTiming(LoopColumn(n, p)) == RightColumn(n, p) && RightColumn(n, p) - 2 == LoopColumn(n, p + 1);
    }
  }

  lemma {:induction false} PairAt(n: nat, right: int, rows: nat, j: nat)
    requires rows <= n && j < 2 * rows
    ensures PairCells(n, right, rows)[j] == (right - j % 2, if Upward(right) then n - 1 - j / 2 else j / 2)
  {
    if j < 2 * (rows - 1) { PairAt(n, right, rows - 1, j); }
  }

  lemma {:induction false} Directions(n: nat, m: nat, p: nat)
    requires n == 4 * m + 1 && p < 2 * m
    ensures Upward(RightColumn(n, p)) <==> p % 2 == 0
  {
    assert (RightColumn(n, p) + 1) / 2 == 2 * m - p;
  }

  lemma {:induction false} BlockAt(n: nat, m: nat, p: nat, j: nat)
    requires n == 4 * m + 1 && p < 2 * m && j < 2 * n
    ensures PairBlock(n)(p)[j] == CellOf(n, p, j)
  {
    Directions(n, m, p);
    PairAt(n, RightColumn(n, p), n, j);
  }

  lemma {:induction false} ScanPlace(n: nat, m: nat, p: nat, j: nat)
    requires n == 4 * m + 1 && m >= 2 && p < 2 * m && j < 2 * n
    ensures Start(2 * n, p) + j < |Scan(n)| && Scan(n)[Start(2 * n, p) + j] == CellOf(n, p, j)
  {
    ScanInBlocks(n, 2 * m, 0);
    FlatAt(PairBlock(n), 2 * n, 0, 2 * m, p, j);
    BlockAt(n, m, p, j);
  }

  lemma {:induction false} ScanLength(n: nat, m: nat)
    requires n == 4 * m + 1 && m >= 2
    ensures |Scan(n)| == Start(2 * n, 2 * m) == n * (n - 1)
  {
    ScanInBlocks(n, 2 * m, 0);
    FlatLength(PairBlock(n), 2 * n, 0, 2 * m);
    ScanArea(n, m);
  }

  lemma {:induction false} ScanArea(n: nat, m: nat)
    requires n == 4 * m + 1
    ensures Start(2 * n, 2 * m) == n * (n - 1)
  {
    StartIsProduct(2 * n, 2 * m);
    assert 2 * n * (2 * m) == n * (4 * m);
  }

  /** The scan takes all steps of all pairs in turn. */
  lemma {:induction false} ScanAt(n: nat, m: nat, p: nat, j: nat, k: nat)
    requires n == 4 * m + 1 && m >= 2 && p < 2 * m && j < 2 * n && k == 2 * n * p + j
    ensures k < |Scan(n)| && Scan(n)[k] == CellOf(n, p, j)
  {
    StartIsProduct(2 * n, p);
    ScanPlace(n, m, p, j);
  }

  // ----- how it moves

  /** To the left cell of the row, or to the right cell of a neighbouring row in the same columns or, in the same
      row, to the next columns. */
  predicate Moves(c: Cell, d: Cell, fromRight: bool)
  {
    if fromRight then d == (c.0 - 1, c.1)
    else || (d.0 == c.0 + 1 && (d.1 == c.1 - 1 || d.1 == c.1 + 1))
         || (d.0 == (if c.0 == 7 then 5 else c.0 - 1) && d.1 == c.1)
  }

  lemma {:induction false} MovesInPair(n: nat, p: nat, j: nat)
    ensures Moves(CellOf(n, p, j), CellOf(n, p, j + 1), j % 2 == 0)
  {
    if j % 2 == 0 {
      assert (j + 1) / 2 == j / 2 && (j + 1) % 2 == 1;
    } else {
      assert (j + 1) / 2 == j / 2 + 1 && (j + 1) % 2 == 0;
    }
  }

  lemma {:induction false} MovesToNextPair(n: nat, p: nat)
    requires n >= 1 && n % 2 == 1
    ensures Moves(CellOf(n, p, 2 * n - 1), CellOf(n, p + 1, 0), false)
  {
    assert (2 * n - 1) / 2 == n - 1 && (2 * n - 1) % 2 == 1;
    assert (p + 1) % 2 == 1 - p % 2;
  }

  lemma {:induction false} StartEven(n: nat, p: nat)
    ensures Start(2 * n, p) % 2 == 0
  {
    if p > 0 { StartEven(n, p - 1); }
  }

  lemma {:induction false} NextPlace(n: nat, m: nat, i: nat) returns (p: nat, j: nat)
    requires n == 4 * m + 1 && i + 1 < Start(2 * n, 2 * m)
    ensures i == Start(2 * n, p) + j && j < 2 * n && p < 2 * m && i % 2 == j % 2
    ensures j == 2 * n - 1 ==> p + 1 < 2 * m && i + 1 == Start(2 * n, p + 1)
  {
    p, j := Position(2 * n, i, 2 * m);
    StartEven(n, p);
    if p + 1 >= 2 * m { StartGrows(2 * n, p + 1, 2 * m); }
  }

  /** The scan has as many cells as there are outside column 6, starts in the lower right corner and goes from the right
      cell of a row to the left one. From there it goes to the right cell of a neighbouring row in the same two columns
      or, in the same row, to the next two columns. */
  lemma {:induction false} ScanMoves(n: nat, m: nat, i: nat)
    requires n == 4 * m + 1 && m >= 2 && i + 1 < |Scan(n)|
    ensures |Scan(n)| == n * (n - 1) && Scan(n)[0] == (n - 1, n - 1)
    ensures Moves(Scan(n)[i], Scan(n)[i + 1], i % 2 == 0)
  {
    ScanLength(n, m);
    ScanPlace(n, m, 0, 0);
    var p, j := NextPlace(n, m, i);
    ScanPlace(n, m, p, j);
    if j + 1 < 2 * n {
      ScanPlace(n, m, p, j + 1);
      MovesInPair(n, p, j);
    } else {
      ScanPlace(n, m, p + 1, 0);
      MovesToNextPair(n, p);
    }
  }
}
