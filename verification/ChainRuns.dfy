/** What every run of `add_block` and `pop_block` keeps. */
module ChainRuns {
  import opened ChainTables
  import opened Rollback
  import opened ChainSpec
  import opened ChainInverse
  import opened BlockInverse

  // ----- runs

  datatype Op = Add(a: Addition) | Pop

  /** An operation that throws is rolled back by the surrounding write transaction. */
  ghost function Step(h: Hashes, t: Tables, op: Op): Tables
  {
    match op
    case Add(a) => (match AddBlock(h, t, a) case Done(t') => t' case Thrown(_) => t)
    case Pop => match PopBlock(h, t) case Done(p) => p.tables case Thrown(_) => t
  }

  /** The tables after a run from the empty store. */
  ghost function Run(h: Hashes, ops: seq<Op>): Tables
  {
    if ops == [] then EMPTY else Step(h, Run(h, ops[..|ops| - 1]), ops[|ops| - 1])
  }

  // ----- commitments

  /** Every commitment is valid for the block at its height, so none is at or above the height. */
  ghost predicate CommitmentsMatch(h: Hashes, t: Tables)
  {
    forall k :: k in t.commitments ==> k < |t.chain| && ValidCommitment(t.commitments[k], h.block(t.chain[k].blk))
  }

  lemma {:induction false} AddKeepsCommitments(h: Hashes, t: Tables, a: Addition, t': Tables)
    requires CommitmentsMatch(h, t) && AddBlock(h, t, a) == Done(t')
    ensures CommitmentsMatch(h, t')
  {
    var filled := FillTransactions(h, t, a).value;
    FillFrame(h, t, a, filled);
    FinishKeepsCommitments(h, filled, a, t');
  }

  lemma {:induction false} FinishKeepsCommitments(h: Hashes, t: Tables, a: Addition, t': Tables)
    requires CommitmentsMatch(h, t) && FinishBlock(t, a, h.block(a.blk)) == Done(t')
    requires a.commitment.Some? ==> ValidCommitment(a.commitment.value, h.block(a.blk))
    ensures CommitmentsMatch(h, t')
  {
    var n := |t.chain|;
    assert t'.chain[..n] == t.chain && t'.chain[n].blk == a.blk;
    forall k | k in t'.commitments
      ensures k < |t'.chain| && ValidCommitment(t'.commitments[k], h.block(t'.chain[k].blk))
    {
      if k in t.commitments { assert t'.chain[k] == t.chain[k]; }
    }
  }

  lemma {:induction false} BackwardFrame(t: Tables, hashes: seq<Hash>, r: (Tables, seq<Transaction>))
    requires Backward(TakeStep(hashes), t, |hashes|) == Done(r)
    ensures BLOCK_TABLES(r.0) == BLOCK_TABLES(t)
  {
    var undo := TakeStep(hashes);
    forall s: Tables, i: nat | i < |hashes| && undo(s, i).Done?
      ensures BLOCK_TABLES(undo(s, i).value.0) == BLOCK_TABLES(s)
    {
      TakeTransactionFrame(s, hashes[i], undo(s, i).value);
    }
    BackwardKeeps(undo, BLOCK_TABLES, t, |hashes|);
  }

  lemma {:induction false} RemoveTransactionFrame(t: Tables, hash: Hash, t': Tables)
    requires RemoveTransaction(t, hash) == Done(t')
    ensures BLOCK_TABLES(t') == BLOCK_TABLES(t)
  {
  }

  lemma {:induction false} PopFrame(h: Hashes, t: Tables, blk: Block, p: Popped)
    requires PopTransactions(h, t, blk) == Done(p)
    ensures BLOCK_TABLES(p.tables) == BLOCK_TABLES(t)
  {
    var r := Backward(TakeStep(blk.txHashes), t, |blk.txHashes|).value;
    BackwardFrame(t, blk.txHashes, r);
    RemoveTransactionFrame(r.0, h.tx(blk.minerTx), p.tables);
  }

  /** Whatever happens to the transactions, popping drops the top row and its commitment. */
  lemma {:induction false} PopKeepsCommitments(h: Hashes, t: Tables, p: Popped)
    requires CommitmentsMatch(h, t) && PopBlock(h, t) == Done(p)
    ensures CommitmentsMatch(h, p.tables)
  {
    var t1 := RemoveBlockRow(t).value;
    var t2 := t1.(commitments := t1.commitments - {|t.chain| - 1});
    PopFrame(h, t2, t.chain[|t.chain| - 1].blk, p);
  }

  /** Over every run, of any blocks whatever, all stored commitments match their blocks. */
  lemma {:induction false} CommitmentsAlwaysMatch(h: Hashes, ops: seq<Op>)
    ensures CommitmentsMatch(h, Run(h, ops))
    ensures forall k :: k in Run(h, ops).commitments ==>
              var c := Run(h, ops).commitments[k];
              && c.schemaVersion == 1 && c.stateHash != 0 && c.parameterSetHash != 0
              && c.blockHash == h.block(Run(h, ops).chain[k].blk)
  {
    if ops != [] {
      var before := Run(h, ops[..|ops| - 1]);
      CommitmentsAlwaysMatch(h, ops[..|ops| - 1]);
      match ops[|ops| - 1] {
        case Add(a) =>
          if AddBlock(h, before, a).Done? { AddKeepsCommitments(h, before, a, AddBlock(h, before, a).value); }
        case Pop => if PopBlock(h, before).Done? { PopKeepsCommitments(h, before, PopBlock(h, before).value); }
      }
    }
  }

  /** The blocks added and not popped again. */
  ghost function Surviving(h: Hashes, ops: seq<Op>): seq<Addition>
  {
    if ops == [] then [] else
      var init := ops[..|ops| - 1];
      var blocks := Surviving(h, init);
      match ops[|ops| - 1]
      case Add(a) => if AddBlock(h, Run(h, init), a).Done? then blocks + [a] else blocks
      case Pop => if PopBlock(h, Run(h, init)).Done? && blocks != [] then blocks[..|blocks| - 1] else blocks
  }

  // ----- as many pops as adds

  ghost function BlockStep(h: Hashes, blocks: seq<Addition>): (Tables, nat) -> Outcome<Tables>
  {
    (t: Tables, i: nat) => if i < |blocks| then AddBlock(h, t, blocks[i]) else Thrown(DbError)
  }

  function PopStep(h: Hashes): (Tables, nat) -> Outcome<(Tables, (Block, seq<Transaction>))>
  {
    (t: Tables, i: nat) =>
      match PopBlock(h, t)
      case Thrown(f) => Thrown(f)
      case Done(p) => Done((p.tables, (p.blk, p.txs)))
  }

  /** What popping the block returns. */
  function Returned(blocks: seq<Addition>): nat -> (Block, seq<Transaction>)
    requires blocks != []
  {
    (i: nat) => var a := if i < |blocks| then blocks[i] else blocks[0]; (a.blk, Reversed(a.txs))
  }

  ghost function Matching(h: Hashes): Tables -> bool
  {
    (t: Tables) => CommitmentsMatch(h, t)
  }

  lemma {:induction false} PopUndoesStep(h: Hashes, t: Tables, a: Addition, t': Tables, i: nat)
    requires CommitmentsMatch(h, t) && Undoable(a) && AddBlock(h, t, a) == Done(t')
    ensures CommitmentsMatch(h, t') && PopStep(h)(t', i) == Done((t, (a.blk, Reversed(a.txs))))
  {
    AddKeepsCommitments(h, t, a, t');
    PopUndoesAdd(h, t, a, t');
  }

  lemma {:induction false} PopsUndo(h: Hashes, blocks: seq<Addition>)
    requires blocks != [] && forall i :: 0 <= i < |blocks| ==> Undoable(blocks[i])
    ensures Undoes(PopStep(h), BlockStep(h, blocks), Returned(blocks), Matching(h), |blocks|)
  {
    var undo, step, what := PopStep(h), BlockStep(h, blocks), Returned(blocks);
    forall t: Tables, i: nat | i < |blocks| && CommitmentsMatch(h, t) && step(t, i).Done?
      ensures CommitmentsMatch(h, step(t, i).value) && undo(step(t, i).value, i) == Done((t, what(i)))
    {
      PopUndoesStep(h, t, blocks[i], step(t, i).value, i);
    }
  }

  ghost function StoredByEach(blocks: seq<Addition>): nat -> nat
  {
    (i: nat) => if i < |blocks| then StoredBy(blocks[i]) else 0
  }

  ghost function RemovedByEach(blocks: seq<Addition>): nat -> nat
  {
    (i: nat) => if i < |blocks| then RemovedBy(blocks[i]) else 0
  }

  lemma {:induction false} PopsRestore(h: Hashes, blocks: seq<Addition>)
    requires blocks != []
    ensures UndoesView(PopStep(h), BlockStep(h, blocks), Returned(blocks), Matching(h), Rest, |blocks|)
  {
    var undo, step, what := PopStep(h), BlockStep(h, blocks), Returned(blocks);
    forall t: Tables, i: nat | i < |blocks| && CommitmentsMatch(h, t) && step(t, i).Done?
      ensures CommitmentsMatch(h, step(t, i).value)
    {
      AddKeepsCommitments(h, t, blocks[i], step(t, i).value);
    }
    forall t: Tables, other: Tables, i: nat | i < |blocks| && CommitmentsMatch(h, t) && step(t, i).Done? &&
               Rest(other) == Rest(step(t, i).value) && undo(other, i).Done?
      ensures Rest(undo(other, i).value.0) == Rest(t) && undo(other, i).value.1 == what(i)
    {
      PopRestoresRest(h, t, blocks[i], step(t, i).value, other, PopBlock(h, other).value);
    }
  }

  lemma {:induction false} PopsLower(h: Hashes, blocks: seq<Addition>)
    ensures LowersView(PopStep(h), BlockStep(h, blocks), Matching(h), Rest, RCT_OUTPUTS, RemovedByEach(blocks),
                       |blocks|)
  {
    var undo, step, w := PopStep(h), BlockStep(h, blocks), RemovedByEach(blocks);
    forall t: Tables, other: Tables, i: nat | i < |blocks| && CommitmentsMatch(h, t) && step(t, i).Done? &&
               Rest(other) == Rest(step(t, i).value) && undo(other, i).Done?
      ensures RCT_OUTPUTS(other) == RCT_OUTPUTS(undo(other, i).value.0) + w(i)
    {
      PopCounts(h, t, blocks[i], step(t, i).value, other, PopBlock(h, other).value);
    }
  }

  lemma {:induction false} AddsRaise(h: Hashes, t: Tables, blocks: seq<Addition>, t': Tables)
    requires Forward(BlockStep(h, blocks), t, |blocks|) == Done(t')
    ensures RCT_OUTPUTS(t') == RCT_OUTPUTS(t) + Sum(StoredByEach(blocks), |blocks|)
  {
    var step, w := BlockStep(h, blocks), StoredByEach(blocks);
    forall s: Tables, i: nat | i < |blocks| && step(s, i).Done?
      ensures RCT_OUTPUTS(step(s, i).value) == RCT_OUTPUTS(s) + w(i)
    {
      AddBlockCounts(h, s, blocks[i], step(s, i).value);
    }
    ForwardCounts(step, RCT_OUTPUTS, w, t, |blocks|);
  }

  lemma {:induction false} BlocksLose(h: Hashes, t: Tables, blocks: seq<Addition>)
    requires Forward(BlockStep(h, blocks), t, |blocks|).Done?
    ensures Sum(RemovedByEach(blocks), |blocks|) == Sum(StoredByEach(blocks), |blocks|) <==>
            forall i :: 0 <= i < |blocks| ==> Undoable(blocks[i])
  {
    var removed, stored := RemovedByEach(blocks), StoredByEach(blocks);
    forall i: nat | i < |blocks|
      ensures removed(i) <= stored(i) && (removed(i) == stored(i) <==> Undoable(blocks[i]))
    {
      var s := StepTaken(BlockStep(h, blocks), t, |blocks|, i);
      BlockZerosLost(h, s, blocks[i]);
    }
    SumBelow(removed, stored, |blocks|);
  }

  lemma {:induction false} PopsRestoreOnly(h: Hashes, t: Tables, blocks: seq<Addition>, t': Tables)
    requires CommitmentsMatch(h, t) && blocks != [] && Forward(BlockStep(h, blocks), t, |blocks|) == Done(t')
    requires Backward(PopStep(h), t', |blocks|).Done? && Backward(PopStep(h), t', |blocks|).value.0 == t
    ensures forall i :: 0 <= i < |blocks| ==> Undoable(blocks[i])
  {
    PopsRestore(h, blocks);
    PopsLower(h, blocks);
    BackwardCounts(PopStep(h), BlockStep(h, blocks), Returned(blocks), Matching(h), Rest, RCT_OUTPUTS,
                   RemovedByEach(blocks), t, t', |blocks|);
    AddsRaise(h, t, blocks, t');
    BlocksLose(h, t, blocks);
  }

  /** From the tables of any run, as many pops as adds undo the adds, if and only if all the blocks are undoable. */
  lemma {:induction false} PopsUndoAdds(h: Hashes, ops: seq<Op>, blocks: seq<Addition>, t': Tables)
    requires blocks != [] && Forward(BlockStep(h, blocks), Run(h, ops), |blocks|) == Done(t')
    ensures Backward(PopStep(h), t', |blocks|) == Done((Run(h, ops), Countdown(Returned(blocks), |blocks|))) <==>
            forall i :: 0 <= i < |blocks| ==> Undoable(blocks[i])
  {
    CommitmentsAlwaysMatch(h, ops);
    if forall i :: 0 <= i < |blocks| ==> Undoable(blocks[i]) {
      PopsUndo(h, blocks);
      BackwardUndoes(PopStep(h), BlockStep(h, blocks), Returned(blocks), Matching(h), Run(h, ops), |blocks|);
    } else if Backward(PopStep(h), t', |blocks|) == Done((Run(h, ops), Countdown(Returned(blocks), |blocks|))) {
      PopsRestoreOnly(h, Run(h, ops), blocks, t');
    }
  }
}
