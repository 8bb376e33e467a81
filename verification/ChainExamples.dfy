/** A block that a pop does not undo, and a run after which an output of a popped block is held while one of a stored
    block is gone. */
module ChainExamples {
  import opened Wrappers
  import opened ChainTables
  import opened Rollback
  import opened ChainSpec
  import opened ChainInverse
  import opened BlockInverse
  import opened ChainRuns
  import opened ChainSafety
  import opened ChainAdmission
  import opened RctConservation

  const PLAIN_MINER := Transaction(1, 0, [Gen(0)], [Output(5, Some(1), 0)], 0)
  const MIXED_MINER := Transaction(2, 0, [Gen(1), ToKey(7)], [Output(5, Some(2), 0)], 0)

  function Lone(prevId: Hash, minerTx: Transaction): Addition
  {
    Addition(Block(1, prevId, minerTx, []), [], None)
  }

  lemma {:induction false} MinersStorable()
    ensures Storable(PLAIN_MINER) && Images(PLAIN_MINER.vin) == {}
    ensures Storable(MIXED_MINER) && Images(MIXED_MINER.vin) == {7} && StoredAsRct(MIXED_MINER)
    ensures !StoredAsRct(PLAIN_MINER) && !RemovedAsRct(MIXED_MINER)
  {
    assert MIXED_MINER.vin[0].Gen? && MIXED_MINER.vin[1] == ToKey(7);
  }

  lemma {:induction false} LoneFits(h: Hashes, t: Tables, a: Addition)
    requires a.txs == [] && a.blk.txHashes == [] && a.commitment.None?
    ensures Acceptable(h, t, a) <==>
            && Storable(a.blk.minerTx) && Images(a.blk.minerTx.vin) !! t.spent
            && h.tx(a.blk.minerTx) !in t.txs.indices && h.block(a.blk) !in t.heights
            && (|t.chain| > 0 ==> a.blk.prevId == t.chain[|t.chain| - 1].hash)
  {
    assert TransactionsOf(a)[0] == a.blk.minerTx && HashesOf(h, a)[0] == h.tx(a.blk.minerTx);
  }

  lemma {:induction false} OneOutput(h: Hashes, o: Outputs, tx: Transaction, hash: Hash, height: nat)
    requires |tx.vout| == 1
    ensures AddOutputs(h, o, tx, hash, height)
            == match AddOutput(o, NewOutputOf(h, tx, 0), hash, 0, tx.unlockTime, height)
               case Thrown(f) => Thrown(f)
               case Done((o', i)) => Done((o', [i]))
  {
    var step := OutputStep(h, tx, hash, height);
    assert Logged(step, o, 0) == Done((o, []));
    if step(o, 0).Done? { assert [] + [step(o, 0).value.1] == [step(o, 0).value.1]; }
  }

  /** What adding a transaction with one output does. */
  lemma {:induction false} OneOutputAdded(h: Hashes, t: Tables, tx: Transaction, hash: Hash, t': Tables)
    requires AddTransaction(h, t, tx, hash) == Done(t') && |tx.vout| == 1
    ensures var added := AddOutput(t.outs, NewOutputOf(h, tx, 0), hash, 0, tx.unlockTime, |t.chain|);
            && added.Done? && t'.outs == added.value.0
            && t'.spent == t.spent + Images(tx.vin) && t'.txs.indices.Keys == t.txs.indices.Keys + {hash}
  {
    OneOutput(h, t.outs, tx, hash, |t.chain|);
    SpendAdds(t.spent, tx.vin);
  }

  lemma {:induction false} FinishAdds(t: Tables, a: Addition, hash: Hash, t': Tables)
    requires FinishBlock(t, a, hash) == Done(t')
    ensures t'.outs == t.outs && t'.spent == t.spent && t'.txs == t.txs
    ensures |t'.chain| == |t.chain| + 1 && t'.chain[|t.chain|].hash == hash
    ensures t'.heights.Keys == t.heights.Keys + {hash}
  {
  }

  lemma {:induction false} LoneFilled(h: Hashes, t: Tables, a: Addition, t': Tables) returns (filled: Tables)
    requires AddBlock(h, t, a) == Done(t') && a.txs == [] && a.blk.txHashes == []
    ensures AddTransaction(h, t, a.blk.minerTx, h.tx(a.blk.minerTx)) == Done(filled) == FillTransactions(h, t, a)
    ensures FinishBlock(filled, a, h.block(a.blk)) == Done(t') && BLOCK_TABLES(filled) == BLOCK_TABLES(t)
  {
    filled := FillTransactions(h, t, a).value;
    FillFrame(h, t, a, filled);
  }

  /** What adding a block of just a miner transaction with one output does. */
  lemma {:induction false} LoneAdded(h: Hashes, t: Tables, a: Addition, t': Tables)
    requires AddBlock(h, t, a) == Done(t') && a.txs == [] && a.blk.txHashes == [] && |a.blk.minerTx.vout| == 1
    ensures var tx, hash := a.blk.minerTx, h.tx(a.blk.minerTx);
            var added := AddOutput(t.outs, NewOutputOf(h, tx, 0), hash, 0, tx.unlockTime, |t.chain|);
            && added.Done? && t'.outs == added.value.0
            && t'.spent == t.spent + Images(tx.vin) && t'.txs.indices.Keys == t.txs.indices.Keys + {hash}
            && |t'.chain| == |t.chain| + 1 && t'.chain[|t.chain|].hash == h.block(a.blk)
            && t'.heights.Keys == t.heights.Keys + {h.block(a.blk)}
  {
    var filled := LoneFilled(h, t, a, t');
    OneOutputAdded(h, t, a.blk.minerTx, h.tx(a.blk.minerTx), filled);
    FinishAdds(filled, a, h.block(a.blk), t');
  }

  /** Removing it again succeeds if an output is where it is looked for. */
  lemma {:induction false} LoneRemoved(h: Hashes, t: Tables, a: Addition, t': Tables, i: nat)
    requires AddBlock(h, t, a) == Done(t') && |t.chain| !in t.commitments
    requires a.txs == [] && a.blk.txHashes == [] && |a.blk.minerTx.vout| == 1
    requires var added := AddOutput(t.outs, NewOutputOf(h, a.blk.minerTx, 0), h.tx(a.blk.minerTx), 0,
                                    a.blk.minerTx.unlockTime, |t.chain|);
             added.Done? && added.value.1 == i && RemoveOutput(t'.outs, RemovalAmount(a.blk.minerTx, 0), i).Done?
    ensures PopBlock(h, t').Done?
  {
    var tx, hash := a.blk.minerTx, h.tx(a.blk.minerTx);
    var filled := LoneFilled(h, t, a, t');
    PopIsPopOfFilled(h, t, a, t', t');
    OneOutput(h, t.outs, tx, hash, |t.chain|);
    RemoveAddedData(h, t.txs, tx, hash, |t.chain|, [i]);
    assert Unlogged(OutputUndo(tx), filled.outs, [i], 1).Done?;
    assert RemoveTransaction(filled, hash).Done?;
  }

  /** A block whose miner transaction has a generating input and another one: its output is stored under amount 0
      but looked for under its own amount, so that popping the block does not restore the tables. */
  lemma {:induction false} MixedMinerNotUndone(h: Hashes, a: Addition)
    requires a == Lone(0, MIXED_MINER)
    ensures AddBlock(h, EMPTY, a).Done?
    ensures PopBlock(h, AddBlock(h, EMPTY, a).value) != Done(Popped(EMPTY, a.blk, []))
  {
    MinersStorable();
    LoneFits(h, EMPTY, a);
    ReplayDense(h, [], EMPTY);
    AddBlockExactly(h, EMPTY, a);
    assert Reversed(a.txs) == [] && MIXED_MINER.vout[0].amount == 5;
    PopUndoesAdd(h, EMPTY, a, AddBlock(h, EMPTY, a).value);
  }

  // ----- the run

  /** Tables with one block, whose only output has the amount 5. */
  ghost predicate HoldsOne(h: Hashes, a: Addition, t: Tables)
  {
    && t.spent == {} && t.txs.indices.Keys == {h.tx(a.blk.minerTx)} && t.heights.Keys == {h.block(a.blk)}
    && |t.chain| == 1 && t.chain[0].hash == h.block(a.blk)
    && (5, 0) in t.outs.amounts && t.outs.amounts[(5, 0)].outputId in t.outs.txs && Count(t.outs, 0) == 0
  }

  ghost predicate Sound(h: Hashes, t: Tables)
  {
    Dense(t) && Linked(h, t) && CommitmentsMatch(h, t)
  }

  lemma {:induction false} FirstAccepted(h: Hashes, a: Addition) returns (t: Tables)
    requires a == Lone(0, PLAIN_MINER)
    ensures AddBlock(h, EMPTY, a) == Done(t) && Sound(h, t)
  {
    MinersStorable();
    LoneFits(h, EMPTY, a);
    ReplayDense(h, [], EMPTY);
    AddBlockExactly(h, EMPTY, a);
    t := AddBlock(h, EMPTY, a).value;
    AddKeepsLinks(h, EMPTY, a, t);
    AddKeepsCommitments(h, EMPTY, a, t);
  }

  lemma {:induction false} FirstOutput(out: NewOutput, hash: Hash)
    requires out.amount == 5 && AddOutput(EMPTY.outs, out, hash, 0, 0, 0).Done?
    ensures var o := AddOutput(EMPTY.outs, out, hash, 0, 0, 0).value.0;
            (5, 0) in o.amounts && o.amounts[(5, 0)].outputId in o.txs && Count(o, 0) == 0
  {
    assert IndicesOf(EMPTY.outs, 5) == {} && IndicesOf(EMPTY.outs, 0) == {};
    CountAdded(EMPTY.outs, out, hash, 0, 0, 0, 0);
  }

  lemma {:induction false} FirstHeld(h: Hashes, a: Addition, t: Tables)
    requires a == Lone(0, PLAIN_MINER) && AddBlock(h, EMPTY, a) == Done(t)
    ensures HoldsOne(h, a, t)
  {
    MinersStorable();
    LoneAdded(h, EMPTY, a, t);
    FirstOutput(NewOutputOf(h, PLAIN_MINER, 0), h.tx(PLAIN_MINER));
  }

  lemma {:induction false} SecondAccepted(h: Hashes, a: Addition, b: Addition, t: Tables) returns (t': Tables)
    requires b == Lone(h.block(a.blk), MIXED_MINER) && h.block(a.blk) != h.block(b.blk)
    requires h.tx(a.blk.minerTx) != h.tx(MIXED_MINER) && Sound(h, t) && HoldsOne(h, a, t)
    ensures AddBlock(h, t, b) == Done(t')
  {
    MinersStorable();
    LoneFits(h, t, b);
    AddBlockExactly(h, t, b);
    t' := AddBlock(h, t, b).value;
  }

  /** The pop of the second block finds the output of the first. */
  lemma {:induction false} SecondPopped(h: Hashes, a: Addition, b: Addition, t: Tables, t': Tables)
    requires b == Lone(h.block(a.blk), MIXED_MINER) && Sound(h, t) && HoldsOne(h, a, t) && AddBlock(h, t, b) == Done(t')
    ensures PopBlock(h, t').Done?
  {
    MinersStorable();
    LoneAdded(h, t, b, t');
    LoneRemoved(h, t, b, t', 0);
  }

  lemma {:induction false} RunAdds(h: Hashes, ops: seq<Op>, a: Addition, t: Tables)
    requires AddBlock(h, Run(h, ops), a) == Done(t)
    ensures Run(h, ops + [Add(a)]) == t && Surviving(h, ops + [Add(a)]) == Surviving(h, ops) + [a]
  {
    assert (ops + [Add(a)])[..|ops|] == ops;
  }

  lemma {:induction false} RunPops(h: Hashes, ops: seq<Op>, p: Popped)
    requires PopBlock(h, Run(h, ops)) == Done(p) && Surviving(h, ops) != []
    ensures Run(h, ops + [Pop]) == p.tables
    ensures Surviving(h, ops + [Pop]) == Surviving(h, ops)[..|Surviving(h, ops)| - 1]
  {
    assert (ops + [Pop])[..|ops|] == ops;
  }

  lemma {:induction false} TwoAdded(h: Hashes, a: Addition, b: Addition, t: Tables, t': Tables, ops: seq<Op>)
    requires AddBlock(h, EMPTY, a) == Done(t) && AddBlock(h, t, b) == Done(t') && ops == [Add(a)] + [Add(b)]
    ensures Run(h, ops) == t' && Surviving(h, ops) == [a, b]
  {
    RunAdds(h, [], a, t);
    assert [] + [Add(a)] == [Add(a)];
    RunAdds(h, [Add(a)], b, t');
  }

  lemma {:induction false} PoppedAgain(h: Hashes, a: Addition, b: Addition, added: seq<Op>, p: Popped)
    requires Surviving(h, added) == [a, b] && PopBlock(h, Run(h, added)) == Done(p)
    ensures Run(h, added + [Pop]) == p.tables && Surviving(h, added + [Pop]) == [a]
  {
    RunPops(h, added, p);
  }

  lemma {:induction false} MinersCounted()
    ensures MinerCounted(PLAIN_MINER) && MinerCounted(MIXED_MINER) && RemovedZeros(MIXED_MINER) == 0
    ensures StoredZeros(MIXED_MINER) == 1
  {
    MinersStorable();
    assert Sum(RemovedZero(MIXED_MINER), 1) == RemovedZero(MIXED_MINER)(0) == 0;
    assert Sum(StoredZero(MIXED_MINER), 1) == StoredZero(MIXED_MINER)(0) == 1;
  }

  lemma {:induction false} NoneHanded(a: Addition)
    requires a.txs == [] && a.blk.minerTx == PLAIN_MINER
    ensures HandedOver([a]) == 0
  {
    assert [a][..0] == [] && HandedOver([a]) == HandedOver([]) + NumRctOuts(a);
  }

  lemma {:induction false} OneLeft(h: Hashes, b: Addition, t: Tables, t': Tables, p: Popped)
    requires b.txs == [] && b.blk.minerTx == MIXED_MINER && AddBlock(h, t, b) == Done(t') && |t.chain| !in t.commitments
    requires Count(t.outs, 0) == 0 && PopBlock(h, t') == Done(p)
    ensures Count(p.tables.outs, 0) == 1
  {
    MinersCounted();
    AddBlockCounts(h, t, b, t');
    PopCounts(h, t, b, t', t', p);
  }

  lemma {:induction false} PopSucceeds(h: Hashes, a: Addition, b: Addition) returns (t: Tables, t': Tables, p: Popped)
    requires a == Lone(0, PLAIN_MINER) && b == Lone(h.block(a.blk), MIXED_MINER)
    requires h.block(a.blk) != h.block(b.blk) && h.tx(PLAIN_MINER) != h.tx(MIXED_MINER)
    ensures AddBlock(h, EMPTY, a) == Done(t) && AddBlock(h, t, b) == Done(t') && PopBlock(h, t') == Done(p)
    ensures Count(p.tables.outs, 0) == 1
  {
    t := FirstAccepted(h, a);
    FirstHeld(h, a, t);
    t' := SecondAccepted(h, a, b, t);
    SecondPopped(h, a, b, t, t');
    p := PopBlock(h, t').value;
    OneLeft(h, b, t, t', p);
  }

  /** A version 1 coinbase is added, then a block with a mixed miner transaction, and the pop of the latter takes
      the output of the former: both blocks are counted as they are stored, but one output is held under amount 0
      and none was handed over with the block that survives. */
  lemma {:induction false} ConservationFails(h: Hashes, a: Addition, b: Addition, ops: seq<Op>)
    requires a == Lone(0, PLAIN_MINER) && b == Lone(h.block(a.blk), MIXED_MINER)
    requires h.block(a.blk) != h.block(b.blk) && h.tx(PLAIN_MINER) != h.tx(MIXED_MINER)
    requires ops == [Add(a)] + [Add(b)] + [Pop]
    ensures Counted(a) && Counted(b) && Surviving(h, ops) == [a]
    ensures HandedOver(Surviving(h, ops)) == 0 && Count(Run(h, ops).outs, 0) == 1
  {
    var t, t', p := PopSucceeds(h, a, b);
    TwoAdded(h, a, b, t, t', [Add(a)] + [Add(b)]);
    PoppedAgain(h, a, b, [Add(a)] + [Add(b)], p);
    MinersCounted();
    NoneHanded(a);
  }
}
