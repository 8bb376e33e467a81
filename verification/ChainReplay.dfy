/** What pops leave behind, and when a run leaves just what its surviving blocks would. */
module ChainReplay {
  import opened ChainTables
  import opened ChainSpec
  import opened ChainInverse
  import opened BlockInverse
  import opened ChainRuns
  import opened ChainRestore

  // ----- what pops leave behind

  ghost function StoredByAll(blocks: seq<Addition>): nat
  {
    if blocks == [] then 0 else StoredByAll(blocks[..|blocks| - 1]) + StoredBy(blocks[|blocks| - 1])
  }

  /** Whether the last operation is a pop that succeeds. */
  ghost predicate EndsInPop(h: Hashes, ops: seq<Op>)
  {
    ops != [] && ops[|ops| - 1].Pop? && PopBlock(h, Run(h, ops[..|ops| - 1])).Done?
  }

  /** The block that it takes. */
  ghost function Taken(h: Hashes, ops: seq<Op>): Addition
    requires EndsInPop(h, ops)
  {
    var init := ops[..|ops| - 1];
    PopReturnsSurvivor(h, init, PopBlock(h, Run(h, init)).value);
    var blocks := Surviving(h, init);
    blocks[|blocks| - 1]
  }

  lemma {:induction false} TakenIsLast(h: Hashes, ops: seq<Op>)
    requires EndsInPop(h, ops)
    ensures var blocks := Surviving(h, ops[..|ops| - 1]); blocks != [] && Taken(h, ops) == blocks[|blocks| - 1]
  {
    var init := ops[..|ops| - 1];
    PopReturnsSurvivor(h, init, PopBlock(h, Run(h, init)).value);
  }

  /** Every pop of the run that succeeds takes an undoable block. */
  ghost predicate TakesUndoable(h: Hashes, ops: seq<Op>)
  {
    ops == [] || (TakesUndoable(h, ops[..|ops| - 1]) && (EndsInPop(h, ops) ==> Undoable(Taken(h, ops))))
  }

  /** The outputs under amount 0 that pops have not taken away with their blocks. */
  ghost function LeftBehind(h: Hashes, ops: seq<Op>): int
  {
    if ops == [] then 0 else
      LeftBehind(h, ops[..|ops| - 1]) +
      if EndsInPop(h, ops) then StoredBy(Taken(h, ops)) - RemovedBy(Taken(h, ops)) else 0
  }

  /** The block on top of a run, and the tables to which it was added. */
  lemma {:induction false} TopBlock(h: Hashes, ops: seq<Op>, p: Popped) returns (before: Tables, after: Tables)
    requires PopBlock(h, Run(h, ops)) == Done(p)
    ensures var blocks := Surviving(h, ops);
            && blocks != [] && |before.chain| !in before.commitments
            && AddBlock(h, before, blocks[|blocks| - 1]) == Done(after) && Rest(after) == Rest(Run(h, ops))
  {
    PopReturnsSurvivor(h, ops, p);
    RunLeftBy(h, ops);
    var blocks, befores := Surviving(h, ops), Befores(h, ops);
    before := befores[|blocks| - 1];
    after := AddTo(h)(before, blocks[|blocks| - 1]).value;
  }

  lemma {:induction false} PopAccounts(h: Hashes, ops: seq<Op>, p: Popped, a: Addition)
    requires PopBlock(h, Run(h, ops)) == Done(p)
    requires Surviving(h, ops) != [] && a == Surviving(h, ops)[|Surviving(h, ops)| - 1]
    ensures RCT_OUTPUTS(Run(h, ops)) == RCT_OUTPUTS(p.tables) + RemovedBy(a)
    ensures RemovedBy(a) <= StoredBy(a) && (RemovedBy(a) == StoredBy(a) <==> Undoable(a))
  {
    var before, after := TopBlock(h, ops, p);
    PopCounts(h, before, a, after, Run(h, ops), p);
    BlockZerosLost(h, before, a);
  }

  lemma {:induction false} TakenAccounts(h: Hashes, ops: seq<Op>)
    requires EndsInPop(h, ops)
    ensures var a := Taken(h, ops); RemovedBy(a) <= StoredBy(a) && (RemovedBy(a) == StoredBy(a) <==> Undoable(a))
  {
    var init := ops[..|ops| - 1];
    TakenIsLast(h, ops);
    PopAccounts(h, init, PopBlock(h, Run(h, init)).value, Taken(h, ops));
  }

  /** Over every run, of any blocks whatever, the outputs held under amount 0 are those that the surviving blocks stored
      there and those that pops have left behind. */
  lemma {:induction false} OutputsAccounted(h: Hashes, ops: seq<Op>)
    ensures Count(Run(h, ops).outs, 0) == StoredByAll(Surviving(h, ops)) + LeftBehind(h, ops)
  {
    if ops == [] {
      assert IndicesOf(EMPTY.outs, 0) == {};
    } else {
      var init := ops[..|ops| - 1];
      var t, blocks := Run(h, init), Surviving(h, init);
      OutputsAccounted(h, init);
      match ops[|ops| - 1] {
        case Add(a) =>
          if AddBlock(h, t, a).Done? {
            AddBlockCounts(h, t, a, AddBlock(h, t, a).value);
            assert (blocks + [a])[..|blocks|] == blocks;
          }
        case Pop =>
          if PopBlock(h, t).Done? {
            PopReturnsSurvivor(h, init, PopBlock(h, t).value);
            PopAccounts(h, init, PopBlock(h, t).value, blocks[|blocks| - 1]);
          }
      }
    }
  }

  /** Nothing is left behind if and only if every pop that succeeds takes an undoable block. */
  lemma {:induction false} NothingLeftBehind(h: Hashes, ops: seq<Op>)
    ensures LeftBehind(h, ops) >= 0
    ensures LeftBehind(h, ops) == 0 <==> TakesUndoable(h, ops)
  {
    if ops != [] {
      NothingLeftBehind(h, ops[..|ops| - 1]);
      if EndsInPop(h, ops) { TakenAccounts(h, ops); }
    }
  }

  // ----- runs leave what the surviving blocks alone would

  /** Adding the blocks one after the other. */
  ghost function Replay(h: Hashes, blocks: seq<Addition>): Outcome<Tables>
  {
    if blocks == [] then Done(EMPTY) else
      match Replay(h, blocks[..|blocks| - 1])
      case Thrown(f) => Thrown(f)
      case Done(t) => AddBlock(h, t, blocks[|blocks| - 1])
  }

  lemma {:induction false} ReplayKeeps(h: Hashes, blocks: seq<Addition>, t: Tables)
    requires Replay(h, blocks) == Done(t)
    ensures CommitmentsMatch(h, t) && |t.chain| == |blocks|
  {
    if blocks != [] {
      var a, before := blocks[|blocks| - 1], Replay(h, blocks[..|blocks| - 1]).value;
      ReplayKeeps(h, blocks[..|blocks| - 1], before);
      AddKeepsCommitments(h, before, a, t);
      AddGrows(h, before, a, t);
    }
  }

  lemma {:induction false} AddGrows(h: Hashes, t: Tables, a: Addition, t': Tables)
    requires AddBlock(h, t, a) == Done(t')
    ensures |t'.chain| == |t.chain| + 1
  {
    FillFrame(h, t, a, FillTransactions(h, t, a).value);
  }

  /** Popping a replayed store replays one block fewer, if and only if the last block is undoable. */
  lemma {:induction false} PopReplay(h: Hashes, blocks: seq<Addition>, t: Tables)
    requires Replay(h, blocks) == Done(t) && blocks != []
    ensures var a, before := blocks[|blocks| - 1], Replay(h, blocks[..|blocks| - 1]);
            before.Done? && (PopBlock(h, t) == Done(Popped(before.value, a.blk, Reversed(a.txs))) <==> Undoable(a))
  {
    var before := Replay(h, blocks[..|blocks| - 1]).value;
    ReplayKeeps(h, blocks[..|blocks| - 1], before);
    PopUndoesAdd(h, before, blocks[|blocks| - 1], t);
  }

  lemma {:induction false} ReplayStores(h: Hashes, blocks: seq<Addition>, t: Tables)
    requires Replay(h, blocks) == Done(t)
    ensures Count(t.outs, 0) == StoredByAll(blocks)
  {
    if blocks == [] {
      assert IndicesOf(EMPTY.outs, 0) == {};
    } else {
      var a, before := blocks[|blocks| - 1], Replay(h, blocks[..|blocks| - 1]).value;
      ReplayStores(h, blocks[..|blocks| - 1], before);
      AddBlockCounts(h, before, a, t);
    }
  }

  lemma {:induction false} UndoableRunIsReplay(h: Hashes, ops: seq<Op>)
    requires TakesUndoable(h, ops)
    ensures Replay(h, Surviving(h, ops)) == Done(Run(h, ops))
  {
    if ops != [] {
      var init := ops[..|ops| - 1];
      var blocks, t := Surviving(h, init), Run(h, init);
      UndoableRunIsReplay(h, init);
      match ops[|ops| - 1] {
        case Add(a) => if AddBlock(h, t, a).Done? { assert (blocks + [a])[..|blocks|] == blocks; }
        case Pop =>
          if PopBlock(h, t).Done? {
            TakenIsLast(h, ops);
            PopReplay(h, blocks, t);
          }
      }
    }
  }

  /** The tables after a run are those of the surviving blocks alone, if and only if every pop that succeeds takes
      an undoable block. */
  lemma {:induction false} RunIsReplay(h: Hashes, ops: seq<Op>)
    ensures Replay(h, Surviving(h, ops)) == Done(Run(h, ops)) <==> TakesUndoable(h, ops)
  {
    if TakesUndoable(h, ops) {
      UndoableRunIsReplay(h, ops);
    } else if Replay(h, Surviving(h, ops)) == Done(Run(h, ops)) {
      ReplayStores(h, Surviving(h, ops), Run(h, ops));
      OutputsAccounted(h, ops);
      NothingLeftBehind(h, ops);
    }
  }

  ghost predicate AllUndoable(ops: seq<Op>)
  {
    forall i :: 0 <= i < |ops| && ops[i].Add? ==> Undoable(ops[i].a)
  }

  lemma {:induction false} SurvivingUndoable(h: Hashes, ops: seq<Op>)
    requires AllUndoable(ops)
    ensures forall i :: 0 <= i < |Surviving(h, ops)| ==> Undoable(Surviving(h, ops)[i])
  {
    if ops != [] { SurvivingUndoable(h, ops[..|ops| - 1]); }
  }

  /** Runs of undoable blocks are such runs. */
  lemma {:induction false} UndoableBlocks(h: Hashes, ops: seq<Op>)
    requires AllUndoable(ops)
    ensures TakesUndoable(h, ops)
  {
    if ops != [] {
      var init := ops[..|ops| - 1];
      UndoableBlocks(h, init);
      SurvivingUndoable(h, init);
      if EndsInPop(h, ops) { TakenIsLast(h, ops); }
    }
  }
}
