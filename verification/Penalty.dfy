/** The mask penalty (section 7.8.3 of ISO/IEC 18004): a run-length specification of the
    lines of a symbol, and the one-pass scan of the encoder that computes it. */
module Penalty {

  const PENALTY_N1 := 3
  const PENALTY_N2 := 3
  const PENALTY_N3 := 40
  const PENALTY_N4 := 10

  // ----- the runs of a line

  /** Lengths of the runs of equal modules, white and black in turn: the finished ones and the
      last. The first run is white and may be empty. */
  datatype Runs = Runs(done: seq<nat>, last: nat) {

    predicate Black()
    {
      |done| % 2 == 1
    }

    function Grow(): Runs
    {
      Runs(done, last + 1)
    }

    function Turn(): Runs
    {
      Runs(done + [last], 1)
    }
  }

  function RunsOf(line: seq<bool>): Runs
  {
    if line == [] then Runs([], 0) else
      var r := RunsOf(line[..|line| - 1]);
      if line[|line| - 1] == r.Black() then r.Grow() else r.Turn()
  }

  function Repeat(n: nat, b: bool): seq<bool>
  {
    if n == 0 then [] else Repeat(n - 1, b) + [b]
  }

  /** The line with the given runs, the first one white. */
  function Expand(r: seq<nat>): seq<bool>
  {
    if r == [] then [] else Expand(r[..|r| - 1]) + Repeat(r[|r| - 1], |r| % 2 == 0)
  }

  lemma {:induction false} ExpandSnoc(r: seq<nat>, n: nat)
    ensures Expand(r + [n]) == Expand(r) + Repeat(n, |r| % 2 == 1)
  {
    assert (r + [n])[..|r|] == r;
  }

  lemma {:induction false} RunsSnoc(line: seq<bool>, c: bool)
    ensures var r := RunsOf(line); RunsOf(line + [c]) == if c == r.Black() then r.Grow() else r.Turn()
  {
    assert (line + [c])[..|line|] == line;
  }

  /** The line that the runs spell. */
  function Spelled(r: Runs): seq<bool>
  {
    Expand(r.done) + Repeat(r.last, r.Black())
  }

  lemma {:induction false} SpelledStep(r: Runs)
    ensures Spelled(r.Grow()) == Spelled(r) + [r.Black()]
    ensures Spelled(r.Turn()) == Spelled(r) + [!r.Black()]
  {
    ExpandSnoc(r.done, r.last);
    assert Repeat(1, !r.Black()) == [!r.Black()];
    assert Repeat(r.last + 1, r.Black()) == Repeat(r.last, r.Black()) + [r.Black()];
  }

  /** `RunsOf` is the decomposition into maximal runs: they spell the line ... */
  lemma {:induction false} RunsSpellLine(line: seq<bool>)
    ensures Spelled(RunsOf(line)) == line
  {
    if line != [] {
      var k := |line| - 1;
      RunsSpellLine(line[..k]);
      SpelledStep(RunsOf(line[..k]));
      assert line == line[..k] + [line[k]];
    }
  }

  /** ... and only the first one can be empty. */
  lemma {:induction false} RunsNotEmpty(line: seq<bool>)
    ensures var r := RunsOf(line);
            (forall i :: 1 <= i < |r.done| ==> 1 <= r.done[i]) && (|r.done| >= 1 ==> 1 <= r.last)
  {
    if line != [] { RunsNotEmpty(line[..|line| - 1]); }
  }

  lemma {:induction false} RunsBound(line: seq<bool>)
    ensures var r := RunsOf(line);
            (forall i :: 0 <= i < |r.done| ==> r.done[i] <= |line|) && r.last <= |line|
  {
    if line != [] { RunsBound(line[..|line| - 1]); }
  }

  // ----- the specification

  /** A run of at least five modules costs 3, and 1 for each module after the fifth. */
  function RunPenalty(length: nat): nat
  {
    if length >= 5 then PENALTY_N1 + (length - 5) else 0
  }

  function RunPenalties(r: seq<nat>): nat
  {
    if r == [] then 0 else RunPenalties(r[..|r| - 1]) + RunPenalty(r[|r| - 1])
  }

  /** How often seven runs are a finder core 1:1:3:1:1 with four units of white on one side
      and one on the other. */
  function FinderMatches(w: seq<nat>): nat
    requires |w| == 7
  {
    var n := w[1];
    if n > 0 && w[2] == n && w[3] == 3 * n && w[4] == n && w[5] == n then
      (if w[0] >= 4 * n && w[6] >= n then 1 else 0) + (if w[0] >= n && w[6] >= 4 * n then 1 else 0)
    else 0
  }

  /** The matches in the window of seven runs that ends with the last run, if that is white. */
  function LastMatches(b: seq<nat>): nat
  {
    if |b| % 2 == 1 && |b| >= 7 then FinderMatches(b[|b| - 7..]) else 0
  }

  /** The matches in all windows of seven runs that start and end white. */
  function FinderPatterns(b: seq<nat>): nat
  {
    if b == [] then 0 else FinderPatterns(b[..|b| - 1]) + LastMatches(b)
  }

  /** The runs with the first one extended by the border. */
  function OpenBorder(r: seq<nat>, size: nat): (b: seq<nat>)
    ensures |b| == |r|
  {
    seq(|r|, i requires 0 <= i < |r| => r[i] + if i == 0 then size else 0)
  }

  /** The runs of the line inside a white border of `size` modules at either end. */
  function Bordered(r: Runs, size: nat): (b: seq<nat>)
    ensures |b| % 2 == 1
  {
    if r.Black() then OpenBorder(r.done + [r.last], size) + [size] else OpenBorder(r.done + [r.last + size], size)
  }

  function LinePenalty(line: seq<bool>, size: nat): nat
  {
    var r := RunsOf(line);
    RunPenalties(r.done) + RunPenalty(r.last) + PENALTY_N3 * FinderPatterns(Bordered(r, size))
  }

  // ----- the scan

  lemma {:induction false} OpenBorderSnoc(r: seq<nat>, n: nat, size: nat)
    ensures OpenBorder(r + [n], size) == OpenBorder(r, size) + [n + if r == [] then size else 0]
  {
  }

  lemma {:induction false} FinderPatternsSnoc(p: seq<nat>, n: nat)
    ensures FinderPatterns(p + [n]) == FinderPatterns(p) + if |p| % 2 == 1 then 0 else LastMatches(p + [n])
  {
    assert (p + [n])[..|p|] == p;
  }

  lemma {:induction false} RunPenaltiesSnoc(r: seq<nat>, n: nat)
    ensures RunPenalties(r + [n]) == RunPenalties(r) + RunPenalty(n)
  {
    assert (r + [n])[..|r|] == r;
  }

  /** The history array after the runs `p`: latest first, zeros before the first run. */
  ghost predicate IsHistory(h: seq<nat>, p: seq<nat>)
  {
    |h| == 7 && forall i :: 0 <= i < 7 ==> h[i] == if i < |p| then p[|p| - 1 - i] else 0
  }

  lemma {:induction false} HistoryPush(h: seq<nat>, p: seq<nat>, n: nat)
    requires IsHistory(h, p)
    ensures IsHistory([n] + h[..6], p + [n])
  {
  }

  /** Windows that reach before the first run never match. */
  lemma {:induction false} HistoryMatches(h: seq<nat>, p: seq<nat>)
    requires IsHistory(h, p) && |p| % 2 == 1
    ensures FinderMatches([h[6], h[5], h[4], h[3], h[2], h[1], h[0]]) == LastMatches(p)
  {
    var w := [h[6], h[5], h[4], h[3], h[2], h[1], h[0]];
    if |p| >= 7 {
      assert w == p[|p| - 7..];
    } else {
      assert w[0] == 0;
    }
  }

  /** `QrCode::finderPenaltyAddHistory` */
  method AddHistory(currentRunLength: nat, runHistory: array<nat>, size: nat)
    requires runHistory.Length == 7
    modifies runHistory
    ensures var length := currentRunLength + if old(runHistory[0]) == 0 then size else 0;
            runHistory[..] == [length] + old(runHistory[..6])
  {
    var length := currentRunLength;
    if runHistory[0] == 0 {
      length := length + size;
    }
    var i := 6;
    while i > 0
      invariant 0 <= i <= 6
      invariant runHistory[..i] == old(runHistory[..i])
      invariant runHistory[i + 1..] == old(runHistory[i..6])
    {
      runHistory[i] := runHistory[i - 1];
      i := i - 1;
    }
    runHistory[0] := length;
  }

  /** `QrCode::finderPenaltyCountPatterns`; its callers never exceed the bound it checks. */
  method CountPatterns(runHistory: array<nat>, size: nat) returns (count: nat)
    requires runHistory.Length == 7 && runHistory[1] <= size * 3
    ensures var h := runHistory[..]; count == FinderMatches([h[6], h[5], h[4], h[3], h[2], h[1], h[0]])
  {
    var n := runHistory[1];
    var core := n > 0 && runHistory[2] == n && runHistory[3] == n * 3 && runHistory[4] == n && runHistory[5] == n;
    count := (if core && runHistory[0] >= n * 4 && runHistory[6] >= n then 1 else 0)
           + (if core && runHistory[6] >= n * 4 && runHistory[0] >= n then 1 else 0);
  }

  /** The history holds the finished runs, and its first entry is zero only if there are none. */
  ghost predicate HoldsRuns(h: seq<nat>, line: seq<bool>, size: nat)
  {
    IsHistory(h, OpenBorder(RunsOf(line).done, size))
  }

  lemma {:induction false} HistoryStarted(h: seq<nat>, line: seq<bool>, size: nat)
    requires size >= 1 && HoldsRuns(h, line, size)
    ensures h[0] == 0 <==> RunsOf(line).done == []
  {
    RunsNotEmpty(line);
  }

  /** A run of `n` modules follows the finished runs of `line`. */
  method Push(ghost line: seq<bool>, n: nat, runHistory: array<nat>, size: nat)
    requires size >= 1 && runHistory.Length == 7 && HoldsRuns(runHistory[..], line, size)
    modifies runHistory
    ensures IsHistory(runHistory[..], OpenBorder(RunsOf(line).done + [n], size))
  {
    ghost var r := RunsOf(line);
    HistoryStarted(runHistory[..], line, size);
    HistoryPush(runHistory[..], OpenBorder(r.done, size), n + if r.done == [] then size else 0);
    OpenBorderSnoc(r.done, n, size);
    AddHistory(n, runHistory, size);
  }

  /** A white run that is now in the history is matched. */
  method CountIfWhite(ghost p: seq<nat>, runHistory: array<nat>, size: nat) returns (count: nat)
    requires runHistory.Length == 7 && IsHistory(runHistory[..], p)
    requires |p| % 2 == 1 && (|p| >= 2 ==> p[|p| - 2] <= size)
    ensures count == LastMatches(p)
  {
    HistoryMatches(runHistory[..], p);
    count := CountPatterns(runHistory, size);
  }

  lemma {:induction false} EndedPatterns(done: seq<nat>, n: nat, size: nat)
    ensures var p := OpenBorder(done + [n], size);
            FinderPatterns(p) == FinderPatterns(OpenBorder(done, size)) + if |done| % 2 == 1 then 0 else LastMatches(p)
  {
    OpenBorderSnoc(done, n, size);
    FinderPatternsSnoc(OpenBorder(done, size), n + if done == [] then size else 0);
  }

  /** Of two runs pushed after a white one only the second is matched. */
  lemma {:induction false} PatternsAfterTwo(q: seq<nat>, u: nat, v: nat)
    requires |q| % 2 == 1
    ensures FinderPatterns(q + [u] + [v]) == FinderPatterns(q) + LastMatches(q + [u] + [v])
  {
    FinderPatternsSnoc(q, u);
    FinderPatternsSnoc(q + [u], v);
  }

  lemma {:induction false} BorderedPatterns(r: Runs, size: nat)
    ensures FinderPatterns(Bordered(r, size))
            == FinderPatterns(OpenBorder(r.done, size)) + LastMatches(Bordered(r, size))
  {
    if r.Black() {
      BlackEnd(r.done, r.last, size);
    } else {
      WhiteEnd(r.done, r.last + size, size);
    }
  }

  lemma {:induction false} WhiteEnd(done: seq<nat>, last: nat, size: nat)
    requires |done| % 2 == 0
    ensures var p := OpenBorder(done + [last], size);
            FinderPatterns(p) == FinderPatterns(OpenBorder(done, size)) + LastMatches(p)
  {
    EndedPatterns(done, last, size);
  }

  lemma {:induction false} BlackEnd(done: seq<nat>, last: nat, size: nat)
    requires |done| % 2 == 1
    ensures var p := OpenBorder(done + [last], size) + [size];
            FinderPatterns(p) == FinderPatterns(OpenBorder(done, size)) + LastMatches(p)
  {
    OpenBorderSnoc(done, last, size);
    PatternsAfterTwo(OpenBorder(done, size), last, size);
  }

  /** Before a white run is a black one, which is within the line. */
  lemma {:induction false} BlackBound(line: seq<bool>, size: nat)
    requires |line| <= size
    ensures var r := RunsOf(line); var b, p := Bordered(r, size), OpenBorder(r.done + [r.last], size);
            && (|b| >= 2 ==> b[|b| - 2] <= size)
            && (!r.Black() && |p| >= 2 ==> p[|p| - 2] <= size)
  {
    RunsBound(line);
  }

  lemma {:induction false} LastRun(h: seq<nat>, line: seq<bool>, size: nat)
    requires RunsOf(line).Black() && IsHistory(h, OpenBorder(RunsOf(line).done + [RunsOf(line).last], size))
    ensures h[0] == RunsOf(line).last >= 1
  {
    var r := RunsOf(line);
    OpenBorderSnoc(r.done, r.last, size);
    RunsNotEmpty(line);
  }

  /** The pushes of `QrCode::finderPenaltyTerminateAndCount` */
  method Terminate(ghost line: seq<bool>, currentRunColor: bool, currentRunLength: nat, runHistory: array<nat>,
                   size: nat)
    requires 1 <= size && runHistory.Length == 7 && HoldsRuns(runHistory[..], line, size)
    requires currentRunColor == RunsOf(line).Black() && currentRunLength == RunsOf(line).last
    modifies runHistory
    ensures IsHistory(runHistory[..], Bordered(RunsOf(line), size))
  {
    ghost var r := RunsOf(line);
    if currentRunColor {
      Push(line, currentRunLength, runHistory, size);
      LastRun(runHistory[..], line, size);
      HistoryPush(runHistory[..], OpenBorder(r.done + [r.last], size), size);
      AddHistory(size, runHistory, size);
    } else {
      Push(line, currentRunLength + size, runHistory, size);
    }
  }

  /** `QrCode::finderPenaltyTerminateAndCount` */
  method TerminateAndCount(ghost line: seq<bool>, currentRunColor: bool, currentRunLength: nat,
                           runHistory: array<nat>, size: nat)
    returns (count: nat)
    requires 1 <= size && |line| <= size && runHistory.Length == 7 && HoldsRuns(runHistory[..], line, size)
    requires currentRunColor == RunsOf(line).Black() && currentRunLength == RunsOf(line).last
    modifies runHistory
    ensures FinderPatterns(Bordered(RunsOf(line), size)) == FinderPatterns(OpenBorder(RunsOf(line).done, size)) + count
  {
    Terminate(line, currentRunColor, currentRunLength, runHistory, size);
    BlackBound(line, size);
    BorderedPatterns(RunsOf(line), size);
    count := CountIfWhite(Bordered(RunsOf(line), size), runHistory, size);
  }

  ghost predicate ScanState(r: Runs, runColor: bool, runX: nat, h: seq<nat>, result: nat, size: nat)
  {
    && runColor == r.Black()
    && runX == r.last
    && IsHistory(h, OpenBorder(r.done, size))
    && result == RunPenalties(r.done) + RunPenalty(r.last) + PENALTY_N3 * FinderPatterns(OpenBorder(r.done, size))
  }

  lemma {:induction false} ScanGrow(r: Runs, h: seq<nat>, result: nat, size: nat)
    requires ScanState(r, r.Black(), r.last, h, result, size)
    ensures var cost := if r.last + 1 == 5 then PENALTY_N1 else if r.last + 1 > 5 then 1 else 0;
            ScanState(r.Grow(), r.Black(), r.last + 1, h, result + cost, size)
  {
  }

  lemma {:induction false} TurnCost(r: Runs)
    ensures RunPenalties(r.Turn().done) + RunPenalty(r.Turn().last) == RunPenalties(r.done) + RunPenalty(r.last)
  {
    RunPenaltiesSnoc(r.done, r.last);
  }

  lemma {:induction false} ScanTurn(r: Runs, h: seq<nat>, result: nat, count: nat, size: nat)
    requires result == RunPenalties(r.done) + RunPenalty(r.last) + PENALTY_N3 * FinderPatterns(OpenBorder(r.done, size))
    requires var p := OpenBorder(r.done + [r.last], size);
             IsHistory(h, p) && FinderPatterns(p) == FinderPatterns(OpenBorder(r.done, size)) + count
    ensures ScanState(r.Turn(), !r.Black(), 1, h, result + count * PENALTY_N3, size)
  {
    TurnCost(r);
  }

  /** The branch of the scan for a module of the other colour. */
  method EndRun(ghost line: seq<bool>, runColor: bool, runX: nat, runHistory: array<nat>, size: nat)
    returns (count: nat)
    requires 1 <= size && |line| <= size && runHistory.Length == 7 && HoldsRuns(runHistory[..], line, size)
    requires runColor == RunsOf(line).Black() && runX == RunsOf(line).last
    modifies runHistory
    ensures var r := RunsOf(line); var p := OpenBorder(r.done + [r.last], size);
            IsHistory(runHistory[..], p) && FinderPatterns(p) == FinderPatterns(OpenBorder(r.done, size)) + count
  {
    ghost var r := RunsOf(line);
    ghost var p := OpenBorder(r.done + [r.last], size);
    Push(line, runX, runHistory, size);
    EndedPatterns(r.done, r.last, size);
    count := 0;
    if !runColor {
      BlackBound(line, size);
      count := CountIfWhite(p, runHistory, size);
    }
  }

  /** The scan of one row or column in `QrCode::getPenaltyScore`. */
  method ScanLine(line: seq<bool>, size: nat) returns (result: nat)
    requires |line| == size >= 1
    ensures result == LinePenalty(line, size)
  {
    result := 0;
    var runColor := false;
    var runX: nat := 0;
    var runHistory := new nat[7](_ => 0);
    assert line[..0] == [];
    for x := 0 to size
      invariant ScanState(RunsOf(line[..x]), runColor, runX, runHistory[..], result, size)
    {
      ghost var before := line[..x];
      assert line[..x + 1] == before + [line[x]];
      RunsSnoc(before, line[x]);
      if line[x] == runColor {
        ScanGrow(RunsOf(before), runHistory[..], result, size);
        runX := runX + 1;
        if runX == 5 {
          result := result + PENALTY_N1;
        } else if runX > 5 {
          result := result + 1;
        }
      } else {
        var count := EndRun(before, runColor, runX, runHistory, size);
        ScanTurn(RunsOf(before), runHistory[..], result, count, size);
        result := result + count * PENALTY_N3;
        runColor := line[x];
        runX := 1;
      }
    }
    assert line[..size] == line;
    var count := TerminateAndCount(line, runColor, runX, runHistory, size);
    result := result + count * PENALTY_N3;
  }

  // ----- bounds

  function Total(r: seq<nat>): nat
  {
    if r == [] then 0 else Total(r[..|r| - 1]) + r[|r| - 1]
  }

  lemma {:induction false} RunPenaltiesBound(r: seq<nat>)
    ensures RunPenalties(r) <= Total(r)
  {
    if r != [] { RunPenaltiesBound(r[..|r| - 1]); }
  }

  lemma {:induction false} RunsTotal(line: seq<bool>)
    ensures var r := RunsOf(line); Total(r.done) + r.last == |line| && |r.done| <= |line|
  {
    if line != [] {
      var p := RunsOf(line[..|line| - 1]);
      RunsTotal(line[..|line| - 1]);
      assert (p.done + [p.last])[..|p.done|] == p.done;
    }
  }

  lemma {:induction false} FinderPatternsBound(b: seq<nat>)
    ensures FinderPatterns(b) <= 2 * |b|
  {
    if b != [] { FinderPatternsBound(b[..|b| - 1]); }
  }

  lemma {:induction false} LinePenaltyBound(line: seq<bool>, size: nat)
    requires |line| <= 177
    ensures LinePenalty(line, size) <= 15000
  {
    RunsTotal(line);
    RunPenaltiesBound(RunsOf(line).done);
    FinderPatternsBound(Bordered(RunsOf(line), size));
  }
}
