/** Laws of the penalty: turning a symbol over its diagonal does not change it, and its value for simple symbols and
    lines. */
module PenaltyLaws {
  import opened Zigzag
  import opened Penalty
  import opened SymbolPenalty

  // ----- sums over a rectangle

  function RowSum(f: (nat, nat) -> nat, y: nat, a: nat): nat
  {
    if a == 0 then 0 else RowSum(f, y, a - 1) + f(a - 1, y)
  }

  function ColumnSum(f: (nat, nat) -> nat, x: nat, b: nat): nat
  {
    if b == 0 then 0 else ColumnSum(f, x, b - 1) + f(x, b - 1)
  }

  /** Row by row. */
  function Sum(f: (nat, nat) -> nat, a: nat, b: nat): nat
  {
    if b == 0 then 0 else Sum(f, a, b - 1) + RowSum(f, b - 1, a)
  }

  lemma {:induction false} SumWidens(f: (nat, nat) -> nat, a: nat, b: nat)
    ensures Sum(f, a + 1, b) == Sum(f, a, b) + ColumnSum(f, a, b)
  {
    if b > 0 { SumWidens(f, a, b - 1); }
  }

  lemma {:induction false} SumOfNothing(f: (nat, nat) -> nat, b: nat)
    ensures Sum(f, 0, b) == 0
  {
    if b > 0 { SumOfNothing(f, b - 1); }
  }

  lemma {:induction false} RowIsColumn(f: (nat, nat) -> nat, g: (nat, nat) -> nat, y: nat, a: nat, b: nat)
    requires y < b && forall x: nat, z: nat :: x < a && z < b ==> g(z, x) == f(x, z)
    ensures RowSum(f, y, a) == ColumnSum(g, y, a)
  {
    if a > 0 { RowIsColumn(f, g, y, a - 1, b); }
  }

  /** Summing the columns of the transposed values. */
  lemma {:induction false} SumSwaps(f: (nat, nat) -> nat, g: (nat, nat) -> nat, a: nat, b: nat)
    requires forall x: nat, y: nat :: x < a && y < b ==> g(y, x) == f(x, y)
    ensures Sum(f, a, b) == Sum(g, b, a)
    decreases b
  {
    if b == 0 {
      SumOfNothing(g, a);
    } else {
      SumSwaps(f, g, a, b - 1);
      RowIsColumn(f, g, b - 1, a, b);
      SumWidens(g, b - 1, a);
    }
  }

  lemma {:induction false} RowOfSame(f: (nat, nat) -> nat, y: nat, a: nat, b: nat, v: nat)
    requires y < b && forall x: nat, z: nat :: x < a && z < b ==> f(x, z) == v
    ensures RowSum(f, y, a) == a * v
  {
    if a > 0 {
      RowOfSame(f, y, a - 1, b, v);
      assert a * v == (a - 1) * v + v;
    }
  }

  lemma {:induction false} SumOfSame(f: (nat, nat) -> nat, a: nat, b: nat, v: nat)
    requires forall x: nat, y: nat :: x < a && y < b ==> f(x, y) == v
    ensures Sum(f, a, b) == b * (a * v)
  {
    if b > 0 {
      SumOfSame(f, a, b - 1, v);
      RowOfSame(f, b - 1, a, b, v);
      assert b * (a * v) == (b - 1) * (a * v) + a * v;
    }
  }

  // ----- blocks and black modules as sums

  ghost function UniformAt(m: Grid, n: nat): (nat, nat) -> nat
    requires IsGrid(m, n)
  {
    (x: nat, y: nat) => if x + 1 < n && y + 1 < n && Uniform(m, n, x, y) then 1 else 0
  }

  ghost function BlackAt(m: Grid, n: nat): (nat, nat) -> nat
    requires IsGrid(m, n)
  {
    (x: nat, y: nat) => if x < n && y < n && m[y][x] then 1 else 0
  }

  lemma {:induction false} BlocksInRowSum(m: Grid, n: nat, y: nat, k: nat)
    requires IsGrid(m, n) && y + 1 < n && k < n
    ensures BlocksInRow(m, n, y, k) == RowSum(UniformAt(m, n), y, k)
  {
    if k > 0 { BlocksInRowSum(m, n, y, k - 1); }
  }

  lemma {:induction false} BlocksSum(m: Grid, n: nat, k: nat)
    requires IsGrid(m, n) && k < n
    ensures Blocks(m, n, k) == Sum(UniformAt(m, n), n - 1, k)
  {
    if k > 0 {
      BlocksSum(m, n, k - 1);
      BlocksInRowSum(m, n, k - 1, n - 1);
    }
  }

  lemma {:induction false} BlacksInRowSum(m: Grid, n: nat, y: nat, k: nat)
    requires IsGrid(m, n) && y < n && k <= n
    ensures BlacksInRow(m[y], k) == RowSum(BlackAt(m, n), y, k)
  {
    if k > 0 { BlacksInRowSum(m, n, y, k - 1); }
  }

  lemma {:induction false} BlacksSum(m: Grid, n: nat, k: nat)
    requires IsGrid(m, n) && k <= n
    ensures Blacks(m, n, k) == Sum(BlackAt(m, n), n, k)
  {
    if k > 0 {
      BlacksSum(m, n, k - 1);
      BlacksInRowSum(m, n, k - 1, n);
    }
  }

  // ----- turning a symbol over its diagonal

  lemma {:induction false} ColumnsOfColumns(m: Grid, n: nat)
    requires IsGrid(m, n)
    ensures IsGrid(Columns(m, n), n) && Columns(Columns(m, n), n) == m
    ensures forall x: nat, y: nat :: x < n && y < n ==> Columns(m, n)[x][y] == m[y][x]
  {
    forall y | 0 <= y < n
      ensures Columns(Columns(m, n), n)[y] == m[y]
    {
    }
  }

  lemma {:induction false} BlocksTurn(m: Grid, t: Grid, n: nat)
    requires IsGrid(m, n) && IsGrid(t, n) && n >= 1
    requires forall x: nat, y: nat :: x < n && y < n ==> t[x][y] == m[y][x]
    ensures Blocks(t, n, n - 1) == Blocks(m, n, n - 1)
  {
    BlocksSum(m, n, n - 1);
    BlocksSum(t, n, n - 1);
    var f, g := UniformAt(m, n), UniformAt(t, n);
    forall x: nat, y: nat | x < n - 1 && y < n - 1
      ensures g(y, x) == f(x, y)
    {
      assert t[x][y] == m[y][x] && t[x + 1][y] == m[y][x + 1];
      assert t[x][y + 1] == m[y + 1][x] && t[x + 1][y + 1] == m[y + 1][x + 1];
    }
    SumSwaps(f, g, n - 1, n - 1);
  }

  lemma {:induction false} BlacksTurn(m: Grid, t: Grid, n: nat)
    requires IsGrid(m, n) && IsGrid(t, n)
    requires forall x: nat, y: nat :: x < n && y < n ==> t[x][y] == m[y][x]
    ensures Blacks(t, n, n) == Blacks(m, n, n)
  {
    BlacksSum(m, n, n);
    BlacksSum(t, n, n);
    SumSwaps(BlackAt(m, n), BlackAt(t, n), n, n);
  }

  /** Rows and columns, and so a symbol and the same turned over its diagonal, count alike. */
  lemma {:induction false} PenaltyTurns(m: Grid, n: nat)
    requires IsGrid(m, n) && n >= 1
    ensures IsGrid(Columns(m, n), n) && GridPenalty(Columns(m, n), n) == GridPenalty(m, n)
  {
    ColumnsOfColumns(m, n);
    BlocksTurn(m, Columns(m, n), n);
    BlacksTurn(m, Columns(m, n), n);
  }

  // ----- the runs of a line are the only decomposition

  lemma {:induction false} AppendOne(line: seq<bool>, k: nat, c: bool)
    requires k >= 1
    ensures line + Repeat(k, c) == line + Repeat(k - 1, c) + [c]
  {
    assert line + (Repeat(k - 1, c) + [c]) == line + Repeat(k - 1, c) + [c];
  }

  lemma {:induction false} PrependOne(line: seq<bool>, k: nat, c: bool)
    requires k >= 1
    ensures line + Repeat(k, c) == line + [c] + Repeat(k - 1, c)
  {
    if k == 1 {
      assert Repeat(1, c) == [c] && line + [c] + [] == line + [c];
    } else {
      PrependOne(line, k - 1, c);
      AppendOne(line, k, c);
      AppendOne(line + [c], k - 1, c);
    }
  }

  lemma {:induction false} RunsGrow(line: seq<bool>, k: nat, c: bool, r: Runs)
    requires RunsOf(line) == r && r.Black() == c
    ensures RunsOf(line + Repeat(k, c)) == Runs(r.done, r.last + k)
  {
    if k == 0 {
      assert line + Repeat(0, c) == line;
    } else {
      RunsGrow(line, k - 1, c, r);
      AppendOne(line, k, c);
      RunsSnoc(line + Repeat(k - 1, c), c);
    }
  }

  lemma {:induction false} RunsTurn(line: seq<bool>, k: nat, c: bool, r: Runs)
    requires k >= 1 && RunsOf(line) == r && r.Black() != c
    ensures RunsOf(line + Repeat(k, c)) == Runs(r.done + [r.last], k)
  {
    RunsSnoc(line, c);
    RunsGrow(line + [c], k - 1, c, r.Turn());
    PrependOne(line, k, c);
  }

  lemma {:induction false} RunsOneMore(init: seq<nat>, last: nat, k: nat)
    requires k >= 1 && RunsOf(Expand(init + [last])) == Runs(init, last)
    ensures RunsOf(Expand(init + [last] + [k])) == Runs(init + [last], k)
  {
    var c := |init + [last]| % 2 == 1;
    ExpandSnoc(init + [last], k);
    assert Runs(init, last).Black() != c;
    RunsTurn(Expand(init + [last]), k, c, Runs(init, last));
  }

  /** A line spelled from runs of which at most the first is empty has these runs. */
  lemma {:induction false} RunsOfExpanded(r: seq<nat>)
    requires r != [] && forall i :: 1 <= i < |r| ==> r[i] >= 1
    ensures RunsOf(Expand(r)) == Runs(r[..|r| - 1], r[|r| - 1])
  {
    var n := |r| - 1;
    if n == 0 {
      ExpandSnoc([], r[0]);
      assert r == [] + [r[0]];
      RunsGrow([], r[0], false, Runs([], 0));
    } else {
      var init, last := r[..n - 1], r[n - 1];
      assert r[..n] == init + [last] && r == init + [last] + [r[n]];
      RunsOfExpanded(r[..n]);
      RunsOneMore(init, last, r[n]);
    }
  }

  // ----- a white symbol

  lemma {:induction false} WhiteLine(line: seq<bool>, n: nat)
    requires |line| == n >= 5 && forall i :: 0 <= i < n ==> !line[i]
    ensures LinePenalty(line, n) == n - 2
  {
    RepeatIs(line, n, false);
    assert Expand([n]) == [] + Repeat(n, false) == line;
    RunsOfExpanded([n]);
    assert [n][..0] == [];
    NoPatterns(Bordered(RunsOf(line), n));
  }

  lemma {:induction false} RepeatIs(line: seq<bool>, n: nat, c: bool)
    requires |line| == n && forall i :: 0 <= i < n ==> line[i] == c
    ensures line == Repeat(n, c)
  {
    if n > 0 { RepeatIs(line[..n - 1], n - 1, c); }
  }

  lemma {:induction false} NoPatterns(b: seq<nat>)
    requires |b| < 7
    ensures FinderPatterns(b) == 0
  {
    if b != [] { NoPatterns(b[..|b| - 1]); }
  }

  lemma {:induction false} TotalOfSame(p: seq<nat>, v: nat)
    requires forall i :: 0 <= i < |p| ==> p[i] == v
    ensures Total(p) == |p| * v
  {
    if p != [] {
      TotalOfSame(p[..|p| - 1], v);
      assert |p| * v == (|p| - 1) * v + v;
    }
  }

  lemma {:induction false} WhiteLines(lines: seq<seq<bool>>, n: nat)
    requires |lines| == n >= 5 && forall y :: 0 <= y < n ==> |lines[y]| == n
    requires forall x: nat, y: nat :: x < n && y < n ==> !lines[y][x]
    ensures Total(Penalties(lines, n)) == n * (n - 2)
  {
    forall y | 0 <= y < n
      ensures LinePenalty(lines[y], n) == n - 2
    {
      WhiteLine(lines[y], n);
    }
    TotalOfSame(Penalties(lines, n), n - 2);
  }

  lemma {:induction false} NoBlacks(total: nat, k: nat)
    requires total > 0 && k <= 9
    ensures LeastBalance(0, total, k) == 9
    decreases 9 - k
  {
    if k < 9 {
      assert (45 - 5 * k) * total > 0;
      NoBlacks(total, k + 1);
    }
  }

  lemma {:induction false} WhiteBlocks(m: Grid, n: nat)
    requires IsGrid(m, n) && n >= 1 && forall x: nat, y: nat :: x < n && y < n ==> !m[y][x]
    ensures Blocks(m, n, n - 1) == (n - 1) * (n - 1)
  {
    BlocksSum(m, n, n - 1);
    SumOfSame(UniformAt(m, n), n - 1, n - 1, 1);
  }

  lemma {:induction false} WhiteBalance(m: Grid, n: nat)
    requires IsGrid(m, n) && n >= 1 && forall x: nat, y: nat :: x < n && y < n ==> !m[y][x]
    ensures LeastBalance(Blacks(m, n, n), Area(n, n), 0) == 9
  {
    BlacksSum(m, n, n);
    SumOfSame(BlackAt(m, n), n, n, 0);
    AreaIsProduct(n, n);
    NoBlacks(n * n, 0);
  }

  lemma {:induction false} WhiteLinePenalties(m: Grid, n: nat)
    requires IsGrid(m, n) && n >= 5 && forall x: nat, y: nat :: x < n && y < n ==> !m[y][x]
    ensures LinePenalties(m, n) == 2 * (n * (n - 2))
  {
    ColumnsOfColumns(m, n);
    WhiteLines(m, n);
    WhiteLines(Columns(m, n), n);
  }

  /** A white symbol: every line is one run, every block is of one colour, and there is no black at all. */
  lemma {:induction false} WhitePenalty(m: Grid, n: nat)
    requires IsGrid(m, n) && n >= 5 && forall x: nat, y: nat :: x < n && y < n ==> !m[y][x]
    ensures GridPenalty(m, n) == 2 * (n * (n - 2)) + 3 * ((n - 1) * (n - 1)) + 90
  {
    WhiteLinePenalties(m, n);
    WhiteBlocks(m, n);
    WhiteBalance(m, n);
  }

  // ----- a line with a finder core

  /** What a run of `k` modules costs. */
  function RunCost(k: nat): nat
  {
    if k < 5 then 0 else k - 2
  }

  lemma {:induction false} CoreMatches(a: nat, u: nat, b: nat, size: nat)
    requires u >= 1 && size >= 4 * u
    ensures FinderPatterns([a + size, u, u, 3 * u, u, u, b + size]) == 2
  {
    var w := [a + size, u, u, 3 * u, u, u, b + size];
    assert w[..6] == [a + size, u, u, 3 * u, u, u] && w[0..] == w;
    NoPatterns(w[..6]);
  }

  lemma {:induction false} CoreRuns(a: nat, u: nat)
    ensures RunPenalties([a, u, u, 3 * u, u, u]) == RunCost(a) + 4 * RunCost(u) + RunCost(3 * u)
    ensures RunPenalties([a, u, u, 3 * u, u]) == RunCost(a) + 3 * RunCost(u) + RunCost(3 * u)
  {
    assert [a, u, u, 3 * u, u, u] == [] + [a] + [u] + [u] + [3 * u] + [u] + [u];
    assert [a, u, u, 3 * u, u] == [] + [a] + [u] + [u] + [3 * u] + [u];
    RunPenaltiesSnoc([], a);
    RunPenaltiesSnoc([] + [a], u);
    RunPenaltiesSnoc([] + [a] + [u], u);
    RunPenaltiesSnoc([] + [a] + [u] + [u], 3 * u);
    RunPenaltiesSnoc([] + [a] + [u] + [u] + [3 * u], u);
    RunPenaltiesSnoc([] + [a] + [u] + [u] + [3 * u] + [u], u);
  }

  lemma {:induction false} FinderInside(a: nat, u: nat, b: nat, size: nat, line: seq<bool>)
    requires RunsOf(line) == Runs([a, u, u, 3 * u, u, u], b) && u >= 1 && size >= 4 * u
    ensures LinePenalty(line, size) == RunCost(a) + 4 * RunCost(u) + RunCost(3 * u) + RunCost(b) + 80
  {
    CoreRuns(a, u);
    CoreMatches(a, u, b, size);
    assert Bordered(RunsOf(line), size) == [a + size, u, u, 3 * u, u, u, b + size];
  }

  lemma {:induction false} FinderAtEnd(a: nat, u: nat, size: nat, line: seq<bool>)
    requires RunsOf(line) == Runs([a, u, u, 3 * u, u], u) && u >= 1 && size >= 4 * u
    ensures LinePenalty(line, size) == RunCost(a) + 4 * RunCost(u) + RunCost(3 * u) + 80
  {
    CoreRuns(a, u);
    CoreMatches(a, u, 0, size);
    EndBorder(a, u, size);
  }

  lemma {:induction false} EndBorder(a: nat, u: nat, size: nat)
    ensures Bordered(Runs([a, u, u, 3 * u, u], u), size) == [a + size, u, u, 3 * u, u, u, 0 + size]
  {
    assert [a, u, u, 3 * u, u] + [u] == [a, u, u, 3 * u, u, u];
  }

  /** A finder core 1:1:3:1:1 of any width that is alone in a white line is found in both directions, wherever it is. */
  lemma {:induction false} FinderLine(a: nat, u: nat, b: nat, size: nat, r: seq<nat>)
    requires u >= 1 && size >= 4 * u && r == [a, u, u, 3 * u, u, u]
    ensures LinePenalty(Expand(r) + Repeat(b, false), size)
            == RunCost(a) + 4 * RunCost(u) + RunCost(3 * u) + RunCost(b) + 80
  {
    if b > 0 {
      ExpandSnoc(r, b);
      assert (r + [b])[..6] == r;
      RunsOfExpanded(r + [b]);
      FinderInside(a, u, b, size, Expand(r + [b]));
    } else {
      assert Expand(r) + Repeat(0, false) == Expand(r);
      assert r[..5] == [a, u, u, 3 * u, u];
      RunsOfExpanded(r);
      FinderAtEnd(a, u, size, Expand(r));
    }
  }
}
