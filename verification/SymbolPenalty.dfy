/** The penalty of a whole symbol. */
module SymbolPenalty {
  import opened Zigzag
  import opened Penalty

  function ColumnOf(m: Grid, n: nat, x: nat): (line: seq<bool>)
    requires IsGrid(m, n) && x < n
    ensures |line| == n
  {
    seq(n, y requires 0 <= y < n => At(m, n, (x, y)))
  }

  function Columns(m: Grid, n: nat): (lines: seq<seq<bool>>)
    requires IsGrid(m, n)
    ensures |lines| == n
  {
    seq(n, x requires 0 <= x < n => ColumnOf(m, n, x))
  }

  /** The penalty of each line. */
  function Penalties(lines: seq<seq<bool>>, n: nat): (p: seq<nat>)
    ensures |p| == |lines|
  {
    seq(|lines|, i requires 0 <= i < |lines| => LinePenalty(lines[i], n))
  }

  function LinePenalties(m: Grid, n: nat): nat
    requires IsGrid(m, n)
  {
    Total(Penalties(m, n)) + Total(Penalties(Columns(m, n), n))
  }

  /** Whether the 2*2 block with this upper left module has one colour. */
  predicate Uniform(m: Grid, n: nat, x: nat, y: nat)
    requires IsGrid(m, n) && x + 1 < n && y + 1 < n
  {
    m[y][x] == m[y][x + 1] == m[y + 1][x] == m[y + 1][x + 1]
  }

  /** Uniform blocks among the first `k` of row `y`. */
  function BlocksInRow(m: Grid, n: nat, y: nat, k: nat): nat
    requires IsGrid(m, n) && y + 1 < n && k < n
  {
    if k == 0 then 0 else BlocksInRow(m, n, y, k - 1) + if Uniform(m, n, k - 1, y) then 1 else 0
  }

  function Blocks(m: Grid, n: nat, k: nat): nat
    requires IsGrid(m, n) && k < n
  {
    if k == 0 then 0 else Blocks(m, n, k - 1) + BlocksInRow(m, n, k - 1, n - 1)
  }

  function BlacksInRow(row: seq<bool>, k: nat): nat
    requires k <= |row|
  {
    if k == 0 then 0 else BlacksInRow(row, k - 1) + if row[k - 1] then 1 else 0
  }

  function Blacks(m: Grid, n: nat, k: nat): nat
    requires IsGrid(m, n) && k <= n
  {
    if k == 0 then 0 else Blacks(m, n, k - 1) + BlacksInRow(m[k - 1], n)
  }

  // ----- the balance of black and white

  /** (45 - 5k)% <= black / total <= (55 + 5k)% */
  predicate BalancedWithin(black: nat, total: nat, k: int)
  {
    (45 - 5 * k) * total <= 100 * black <= (55 + 5 * k) * total
  }

  /** The least such number from `k` on; 9 always is one. */
  function LeastBalance(black: nat, total: nat, k: nat): nat
    decreases black, total, 9 - k
  {
    if k >= 9 || BalancedWithin(black, total, k) then k else LeastBalance(black, total, k + 1)
  }

  function Deviation(black: int, total: int): nat
  {
    var d := black * 20 - total * 10;
    if d < 0 then -d else d
  }

  lemma {:induction false} BalancedIff(black: nat, total: nat, k: int, kt: int)
    requires kt == k * total
    ensures BalancedWithin(black, total, k) <==> Deviation(black, total) <= kt + total
  {
    assert (45 - 5 * k) * total == 45 * total - 5 * kt;
    assert (55 + 5 * k) * total == 55 * total + 5 * kt;
  }

  /** Rounding d / t up. */
  lemma {:induction false} CeilDiv(d: nat, t: nat, q: int)
    requires d > 0 && t > 0 && q == (d + t - 1) / t
    ensures q >= 1 && (q - 1) * t < d <= q * t
  {
    var s := d + t - 1;
    assert s == q * t + s % t;
    assert (q - 1) * t == q * t - t;
  }

  lemma {:induction false} NotBefore(d: int, t: nat, j: int, k: int)
    requires j < k && k * t < d
    ensures j * t + t < d
  {
    assert j * t + t == (j + 1) * t;
    assert (j + 1) * t <= k * t;
  }

  lemma {:induction false} AtMostNine(d: int, t: nat, k: int)
    requires t > 0 && k * t < d <= 10 * t
    ensures k <= 9
  {
  }

  lemma {:induction false} LeastFrom(black: nat, total: nat, j: nat, k: nat)
    requires j <= k <= 9 && BalancedWithin(black, total, k)
    requires forall i :: j <= i < k ==> !BalancedWithin(black, total, i)
    ensures LeastBalance(black, total, j) == k
    decreases k - j
  {
    if j < k { LeastFrom(black, total, j + 1, k); }
  }

  /** On an odd number of modules the formula of the encoder gives the least number. */
  lemma {:induction false} BalanceFormula(black: nat, total: nat)
    requires total % 2 == 1 && black <= total
    ensures (Deviation(black, total) + total - 1) / total - 1 == LeastBalance(black, total, 0)
    ensures BalancedWithin(black, total, LeastBalance(black, total, 0))
  {
    var d := Deviation(black, total);
    var k := (d + total - 1) / total - 1;
    CeilDiv(d, total, k + 1);
    assert (k + 1) * total == k * total + total;
    AtMostNine(d, total, k);
    BalancedIff(black, total, k, k * total);
    forall j | 0 <= j < k
      ensures !BalancedWithin(black, total, j)
    {
      BalancedIff(black, total, j, j * total);
      NotBefore(d, total, j, k);
    }
    LeastFrom(black, total, 0, k);
  }

  /** The number of modules in `k` rows. */
  function Area(n: nat, k: nat): nat
  {
    if k == 0 then 0 else Area(n, k - 1) + n
  }

  lemma {:induction false} AreaIsProduct(n: nat, k: nat)
    ensures Area(n, k) == k * n
  {
    if k > 0 {
      AreaIsProduct(n, k - 1);
      assert (k - 1) * n + n == k * n;
    }
  }

  lemma {:induction false} OddArea(n: nat, h: nat)
    requires n == 2 * h + 1
    ensures Area(n, n) % 2 == 1
  {
    AreaIsProduct(n, n);
    var k := 2 * (h * h) + 2 * h;
    assert n * n == 2 * k + 1;
  }

  lemma {:induction false} BlacksInRowBound(row: seq<bool>, k: nat)
    requires k <= |row|
    ensures BlacksInRow(row, k) <= k
  {
    if k > 0 { BlacksInRowBound(row, k - 1); }
  }

  lemma {:induction false} BlacksBound(m: Grid, n: nat, k: nat)
    requires IsGrid(m, n) && k <= n
    ensures Blacks(m, n, k) <= Area(n, k)
  {
    if k > 0 {
      BlacksBound(m, n, k - 1);
      BlacksInRowBound(m[k - 1], n);
    }
  }

  /** What `QrCode::getPenaltyScore` computes. */
  function GridPenalty(m: Grid, n: nat): int
    requires IsGrid(m, n) && n >= 1
  {
    LinePenalties(m, n) + PENALTY_N2 * Blocks(m, n, n - 1)
      + PENALTY_N4 * LeastBalance(Blacks(m, n, n), Area(n, n), 0)
  }

  method CountBlocks(modules: Grid, size: nat) returns (count: nat)
    requires IsGrid(modules, size) && size >= 1
    ensures count == Blocks(modules, size, size - 1)
  {
    count := 0;
    for y := 0 to size - 1
      invariant count == Blocks(modules, size, y)
    {
      for x := 0 to size - 1
        invariant count == Blocks(modules, size, y) + BlocksInRow(modules, size, y, x)
      {
        var color := modules[y][x];
        if color == modules[y][x + 1] && color == modules[y + 1][x] && color == modules[y + 1][x + 1] {
          count := count + 1;
        }
      }
    }
  }

  method CountBlacks(modules: Grid, size: nat) returns (black: nat)
    requires IsGrid(modules, size)
    ensures black == Blacks(modules, size, size)
  {
    black := 0;
    for y := 0 to size
      invariant black == Blacks(modules, size, y)
    {
      for x := 0 to size
        invariant black == Blacks(modules, size, y) + BlacksInRow(modules[y], x)
      {
        if modules[y][x] {
          black := black + 1;
        }
      }
    }
  }

  lemma {:induction false} TotalStep(p: seq<nat>, i: nat)
    requires i < |p|
    ensures Total(p[..i + 1]) == Total(p[..i]) + p[i]
  {
    assert p[..i + 1][..i] == p[..i];
  }

  /** The first two loop nests of `QrCode::getPenaltyScore`. */
  method ScanRows(modules: Grid, size: nat, ghost p: seq<nat>) returns (result: nat)
    requires IsGrid(modules, size) && size >= 1 && p == Penalties(modules, size)
    ensures result == Total(p)
  {
    result := 0;
    for y := 0 to size
      invariant result == Total(p[..y])
    {
      var line := ScanLine(modules[y], size);
      result := result + line;
      TotalStep(p, y);
    }
    assert p[..size] == p;
  }

  method ScanColumns(modules: Grid, size: nat, ghost p: seq<nat>) returns (result: nat)
    requires IsGrid(modules, size) && size >= 1 && p == Penalties(Columns(modules, size), size)
    ensures result == Total(p)
  {
    result := 0;
    for x := 0 to size
      invariant result == Total(p[..x])
    {
      var line := ScanLine(ColumnOf(modules, size, x), size);
      result := result + line;
      TotalStep(p, x);
    }
    assert p[..size] == p;
  }

  /** The balance term of `QrCode::getPenaltyScore`. */
  method ComputeBalance(modules: Grid, size: nat) returns (k: nat)
    requires IsGrid(modules, size) && size % 2 == 1
    ensures k == LeastBalance(Blacks(modules, size, size), Area(size, size), 0)
  {
    var black := CountBlacks(modules, size);
    var total := size * size;
    AreaIsProduct(size, size);
    BlacksBound(modules, size, size);
    OddArea(size, size / 2);
    BalanceFormula(black, total);
    k := (Deviation(black, total) + total - 1) / total - 1;
  }

  /** `QrCode::getPenaltyScore` */
  method GetPenaltyScore(modules: Grid, size: nat) returns (result: int)
    requires IsGrid(modules, size) && size % 2 == 1
    ensures result == GridPenalty(modules, size)
  {
    var rows := ScanRows(modules, size, Penalties(modules, size));
    var columns := ScanColumns(modules, size, Penalties(Columns(modules, size), size));
    var blocks := CountBlocks(modules, size);
    var k := ComputeBalance(modules, size);
    result := rows + columns + PENALTY_N2 * blocks + PENALTY_N4 * k;
  }

  // ----- the penalty is far below LONG_MAX, so the first trial is always taken

  /** The least maximum of `long` that the language allows. */
  const LONG_MAX := 0x7FFF_FFFF

  lemma {:induction false} TotalBound(p: seq<nat>)
    requires forall i :: 0 <= i < |p| ==> p[i] <= 15000
    ensures Total(p) <= 15000 * |p|
  {
    if p != [] { TotalBound(p[..|p| - 1]); }
  }

  lemma {:induction false} PenaltiesBound(lines: seq<seq<bool>>, n: nat)
    requires |lines| == n <= 177 && forall i :: 0 <= i < n ==> |lines[i]| == n
    ensures Total(Penalties(lines, n)) <= 15000 * n
  {
    var p := Penalties(lines, n);
    forall i | 0 <= i < n
      ensures p[i] <= 15000
    {
      LinePenaltyBound(lines[i], n);
    }
    TotalBound(p);
  }

  lemma {:induction false} BlocksInRowBound(m: Grid, n: nat, y: nat, k: nat)
    requires IsGrid(m, n) && y + 1 < n && k < n
    ensures BlocksInRow(m, n, y, k) <= k
  {
    if k > 0 { BlocksInRowBound(m, n, y, k - 1); }
  }

  lemma {:induction false} BlocksBound(m: Grid, n: nat, k: nat)
    requires IsGrid(m, n) && k < n <= 177
    ensures Blocks(m, n, k) <= 177 * k
  {
    if k > 0 {
      BlocksBound(m, n, k - 1);
      BlocksInRowBound(m, n, k - 1, n - 1);
    }
  }

  lemma {:induction false} LeastBalanceBound(black: nat, total: nat, k: nat)
    requires k <= 9
    ensures LeastBalance(black, total, k) <= 9
    decreases 9 - k
  {
    if k < 9 && !BalancedWithin(black, total, k) { LeastBalanceBound(black, total, k + 1); }
  }

  lemma {:induction false} PenaltyBelowLimit(m: Grid, n: nat)
    requires IsGrid(m, n) && 1 <= n <= 177
    ensures GridPenalty(m, n) < LONG_MAX
  {
    PenaltiesBound(m, n);
    PenaltiesBound(Columns(m, n), n);
    BlocksBound(m, n, n - 1);
    LeastBalanceBound(Blacks(m, n, n), Area(n, n), 0);
  }
}
