/** What the eight mask patterns look like. */
module MaskPatterns {
  import opened Zigzag
  import opened Symbols

  function White(n: nat): (g: Grid)
    ensures IsGrid(g, n)
  {
    seq(n, _ => seq(n, _ => false))
  }

  /** The pattern itself: a white grid without function modules, masked. */
  function Pattern(n: nat, msk: nat): (g: Grid)
    requires msk < 8
    ensures IsGrid(g, n)
  {
    Masked(White(n), White(n), n, msk)
  }

  lemma {:induction false} PatternAt(n: nat, msk: nat, x: nat, y: nat)
    requires msk < 8 && x < n && y < n
    ensures At(Pattern(n, msk), n, (x, y)) == MaskBit(msk, (x, y))
  {
    MaskedCells(White(n), White(n), n, msk);
    assert InGrid((x, y), n);
  }

  /** All patterns are black in the corner. */
  lemma {:induction false} CornerBlack(n: nat, msk: nat)
    requires msk < 8 && n >= 1
    ensures At(Pattern(n, msk), n, (0, 0))
  {
    PatternAt(n, msk, 0, 0);
  }

  // ----- patterns 0 to 4

  lemma {:induction false} SimpleBits(x: nat, y: nat)
    ensures MaskBit(0, (x, y)) == ((x + y) % 2 == 0) && MaskBit(1, (x, y)) == (y % 2 == 0)
    ensures MaskBit(2, (x, y)) == (x % 3 == 0) && MaskBit(3, (x, y)) == ((x + y) % 3 == 0)
    ensures MaskBit(4, (x, y)) == ((x / 3 + y / 2) % 2 == 0)
  {
  }

  lemma {:induction false} Halves(a: nat)
    ensures (a + 1) % 2 == 1 - a % 2 && (a + 1) / 2 == a / 2 + if (a + 1) % 2 == 0 then 1 else 0
  {
  }

  lemma {:induction false} Thirds(a: nat)
    ensures OneOf(a % 3 == 0, (a + 1) % 3 == 0, (a + 2) % 3 == 0)
    ensures (a + 1) / 3 == a / 3 + if (a + 1) % 3 == 0 then 1 else 0
  {
  }

  /** Where a grid is black. */
  ghost predicate IsBlackWhere(g: Grid, n: nat, f: (nat, nat) -> bool)
  {
    IsGrid(g, n) && forall x: nat, y: nat :: x < n && y < n ==> At(g, n, (x, y)) == f(x, y)
  }

  lemma {:induction false} PatternIs(n: nat, msk: nat, f: (nat, nat) -> bool)
    requires msk < 8 && forall x: nat, y: nat {:trigger f(x, y)} :: MaskBit(msk, (x, y)) == f(x, y)
    ensures IsBlackWhere(Pattern(n, msk), n, f)
  {
    forall x: nat, y: nat | x < n && y < n
      ensures At(Pattern(n, msk), n, (x, y)) == f(x, y)
    {
      PatternAt(n, msk, x, y);
    }
  }

  /** The colour changes with every step to the side or down. */
  ghost predicate IsCheckerboard(g: Grid, n: nat)
    requires IsGrid(g, n)
  {
    forall x: nat, y: nat :: x < n && y < n ==>
      && (x + 1 < n ==> At(g, n, (x + 1, y)) != At(g, n, (x, y)))
      && (y + 1 < n ==> At(g, n, (x, y + 1)) != At(g, n, (x, y)))
  }

  lemma {:induction false} Law0(g: Grid, n: nat, f: (nat, nat) -> bool)
    requires IsBlackWhere(g, n, f) && forall x: nat, y: nat :: f(x, y) == ((x + y) % 2 == 0)
    ensures IsCheckerboard(g, n)
  {
    forall x: nat, y: nat | x < n && y < n
      ensures x + 1 < n ==> At(g, n, (x + 1, y)) != At(g, n, (x, y))
      ensures y + 1 < n ==> At(g, n, (x, y + 1)) != At(g, n, (x, y))
    {
      Halves(x + y);
      assert f(x + 1, y) == ((x + y + 1) % 2 == 0) == f(x, y + 1);
    }
  }

  lemma {:induction false} Pattern0(n: nat)
    ensures IsCheckerboard(Pattern(n, 0), n)
  {
    var f := (x: nat, y: nat) => (x + y) % 2 == 0;
    forall x: nat, y: nat ensures MaskBit(0, (x, y)) == f(x, y) { SimpleBits(x, y); }
    PatternIs(n, 0, f);
    Law0(Pattern(n, 0), n, f);
  }

  /** Each row has one colour, another than the next one. */
  ghost predicate HasRowStripes(g: Grid, n: nat)
    requires IsGrid(g, n)
  {
    forall x: nat, y: nat :: x < n && y < n ==>
      && (x + 1 < n ==> At(g, n, (x + 1, y)) == At(g, n, (x, y)))
      && (y + 1 < n ==> At(g, n, (x, y + 1)) != At(g, n, (x, y)))
  }

  lemma {:induction false} Law1(g: Grid, n: nat, f: (nat, nat) -> bool)
    requires IsBlackWhere(g, n, f) && forall x: nat, y: nat :: f(x, y) == (y % 2 == 0)
    ensures HasRowStripes(g, n)
  {
  }

  lemma {:induction false} Pattern1(n: nat)
    ensures HasRowStripes(Pattern(n, 1), n)
  {
    var f := (x: nat, y: nat) => y % 2 == 0;
    forall x: nat, y: nat ensures MaskBit(1, (x, y)) == f(x, y) { SimpleBits(x, y); }
    PatternIs(n, 1, f);
    Law1(Pattern(n, 1), n, f);
  }

  /** Of three in a row one is black. */
  predicate OneOf(b: bool, c: bool, d: bool)
  {
    (b && !c && !d) || (!b && c && !d) || (!b && !c && d)
  }

  /** Each column has one colour, and of three neighbours just one is black. */
  ghost predicate HasThirdColumns(g: Grid, n: nat)
    requires IsGrid(g, n)
  {
    forall x: nat, y: nat :: x < n && y < n ==>
      && (y + 1 < n ==> At(g, n, (x, y + 1)) == At(g, n, (x, y)))
      && (x + 2 < n ==> OneOf(At(g, n, (x, y)), At(g, n, (x + 1, y)), At(g, n, (x + 2, y))))
  }

  lemma {:induction false} Law2(g: Grid, n: nat, f: (nat, nat) -> bool)
    requires IsBlackWhere(g, n, f) && forall x: nat, y: nat :: f(x, y) == (x % 3 == 0)
    ensures HasThirdColumns(g, n)
  {
  }

  lemma {:induction false} Pattern2(n: nat)
    ensures HasThirdColumns(Pattern(n, 2), n)
  {
    var f := (x: nat, y: nat) => x % 3 == 0;
    forall x: nat, y: nat ensures MaskBit(2, (x, y)) == f(x, y) { SimpleBits(x, y); }
    PatternIs(n, 2, f);
    Law2(Pattern(n, 2), n, f);
  }

  /** Each rising diagonal has one colour, and of three neighbours just one is black. */
  ghost predicate HasThirdDiagonals(g: Grid, n: nat)
    requires IsGrid(g, n)
  {
    forall x: nat, y: nat :: x < n && y < n ==>
      && (x + 1 < n && y + 1 < n ==> At(g, n, (x + 1, y)) == At(g, n, (x, y + 1)))
      && (x + 2 < n ==> OneOf(At(g, n, (x, y)), At(g, n, (x + 1, y)), At(g, n, (x + 2, y))))
  }

  lemma {:induction false} Law3(g: Grid, n: nat, f: (nat, nat) -> bool)
    requires IsBlackWhere(g, n, f) && forall x: nat, y: nat :: f(x, y) == ((x + y) % 3 == 0)
    ensures HasThirdDiagonals(g, n)
  {
    forall x: nat, y: nat | x < n && y < n
      ensures x + 1 < n && y + 1 < n ==> At(g, n, (x + 1, y)) == At(g, n, (x, y + 1))
      ensures x + 2 < n ==> OneOf(At(g, n, (x, y)), At(g, n, (x + 1, y)), At(g, n, (x + 2, y)))
    {
      Thirds(x + y);
      assert f(x + 1, y) == ((x + y + 1) % 3 == 0) == f(x, y + 1);
      assert f(x + 2, y) == ((x + y + 2) % 3 == 0);
    }
  }

  lemma {:induction false} Pattern3(n: nat)
    ensures HasThirdDiagonals(Pattern(n, 3), n)
  {
    var f := (x: nat, y: nat) => (x + y) % 3 == 0;
    forall x: nat, y: nat ensures MaskBit(3, (x, y)) == f(x, y) { SimpleBits(x, y); }
    PatternIs(n, 3, f);
    Law3(Pattern(n, 3), n, f);
  }

  /** Blocks of three columns and two rows have one colour, which changes from block to block. */
  ghost predicate HasBricks(g: Grid, n: nat)
    requires IsGrid(g, n)
  {
    && (forall x: nat, y: nat :: x + 1 < n && y < n ==>
          (At(g, n, (x + 1, y)) == At(g, n, (x, y)) <==> (x + 1) % 3 != 0))
    && (forall x: nat, y: nat :: x < n && y + 1 < n ==>
          (At(g, n, (x, y + 1)) == At(g, n, (x, y)) <==> (y + 1) % 2 != 0))
  }

  lemma {:induction false} Law4(g: Grid, n: nat, f: (nat, nat) -> bool)
    requires IsBlackWhere(g, n, f) && forall x: nat, y: nat :: f(x, y) == ((x / 3 + y / 2) % 2 == 0)
    ensures HasBricks(g, n)
  {
    forall x: nat, y: nat | x < n && y < n
      ensures x + 1 < n ==> (At(g, n, (x + 1, y)) == At(g, n, (x, y)) <==> (x + 1) % 3 != 0)
      ensures y + 1 < n ==> (At(g, n, (x, y + 1)) == At(g, n, (x, y)) <==> (y + 1) % 2 != 0)
    {
      Thirds(x);
      Halves(y);
      Halves(x / 3 + y / 2);
      assert f(x + 1, y) == (((x + 1) / 3 + y / 2) % 2 == 0);
      assert f(x, y + 1) == ((x / 3 + (y + 1) / 2) % 2 == 0);
    }
  }

  lemma {:induction false} Pattern4(n: nat)
    ensures HasBricks(Pattern(n, 4), n)
  {
    var f := (x: nat, y: nat) => (x / 3 + y / 2) % 2 == 0;
    forall x: nat, y: nat ensures MaskBit(4, (x, y)) == f(x, y) { SimpleBits(x, y); }
    PatternIs(n, 4, f);
    Law4(Pattern(n, 4), n, f);
  }

  // ----- patterns 5 to 7 repeat a tile of six by six

  /** The tiles, black marked. */
  const TILE_5 := [
      "######",
      "#.....",
      "#..#..",
      "#.#.#.",
      "#..#..",
      "#....."]

  const TILE_6 := [
      "######",
      "###...",
      "##.##.",
      "#.#.#.",
      "#.##.#",
      "#...##"]

  const TILE_7 := [
      "#.#.#.",
      "...###",
      "#...##",
      ".#.#.#",
      "###...",
      ".###.."]

  function Tile(msk: nat): seq<string>
  {
    if msk == 5 then TILE_5 else if msk == 6 then TILE_6 else TILE_7
  }

  lemma {:induction false} Products(x: nat, y: nat)
    ensures (x + 6) * y % 2 == x * y % 2 && (x + 6) * y % 3 == x * y % 3 && (x + 6 + y) % 2 == (x + y) % 2
  {
    var z, w := x * y, 3 * y;
    assert (x + 6) * y == z + 2 * w;
    assert (z + 2 * w) % 2 == z % 2;
    assert (z + 3 * (2 * y)) % 3 == z % 3;
  }

  /** They are symmetric and repeat after six columns, and so after six rows. */
  lemma {:induction false} Repeats(n: nat, msk: nat, x: nat, y: nat)
    requires 5 <= msk < 8 && x < n && y < n
    ensures At(Pattern(n, msk), n, (x, y)) == At(Pattern(n, msk), n, (y, x))
    ensures x + 6 < n ==> At(Pattern(n, msk), n, (x + 6, y)) == At(Pattern(n, msk), n, (x, y))
  {
    PatternAt(n, msk, x, y);
    PatternAt(n, msk, y, x);
    assert x * y == y * x;
    if x + 6 < n {
      PatternAt(n, msk, x + 6, y);
      Products(x, y);
    }
  }

  lemma {:induction false} TileRow(msk: nat, x: nat, y: nat)
    requires 5 <= msk < 8 && x < 6 && y < 6
    ensures |Tile(msk)| == 6 && |Tile(msk)[y]| == 6 && MaskBit(msk, (x, y)) == (Tile(msk)[y][x] == '#')
  {
    if msk == 5 {
      TileRow5(x, y);
    } else if msk == 6 {
      TileRow6(x, y);
    } else {
      TileRow7(x, y);
    }
  }

  lemma {:induction false} TileRow5(x: nat, y: nat)
    requires x < 6 && y < 6
    ensures MaskBit(5, (x, y)) == (TILE_5[y][x] == '#')
  {
    assert y == 0 || y == 1 || y == 2 || y == 3 || y == 4 || y == 5;
    assert x == 0 || x == 1 || x == 2 || x == 3 || x == 4 || x == 5;
  }

  lemma {:induction false} TileRow6(x: nat, y: nat)
    requires x < 6 && y < 6
    ensures MaskBit(6, (x, y)) == (TILE_6[y][x] == '#')
  {
    assert y == 0 || y == 1 || y == 2 || y == 3 || y == 4 || y == 5;
    assert x == 0 || x == 1 || x == 2 || x == 3 || x == 4 || x == 5;
  }

  lemma {:induction false} TileRow7(x: nat, y: nat)
    requires x < 6 && y < 6
    ensures MaskBit(7, (x, y)) == (TILE_7[y][x] == '#')
  {
    assert y == 0 || y == 1 || y == 2 || y == 3 || y == 4 || y == 5;
    assert x == 0 || x == 1 || x == 2 || x == 3 || x == 4 || x == 5;
  }

  /** The first tile. */
  lemma {:induction false} FirstTile(n: nat, msk: nat, x: nat, y: nat)
    requires 5 <= msk < 8 && x < 6 && y < 6 <= n
    ensures |Tile(msk)| == 6 && |Tile(msk)[y]| == 6 && At(Pattern(n, msk), n, (x, y)) == (Tile(msk)[y][x] == '#')
  {
    PatternAt(n, msk, x, y);
    TileRow(msk, x, y);
  }
}
