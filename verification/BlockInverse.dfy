/** `pop_block` undoes `add_block`, and exactly when. */
module BlockInverse {
  import opened ChainTables
  import opened Rollback
  import opened ChainSpec
  import opened ChainInverse

  // ----- tables that transactions leave alone

  /** The tables that transactions leave alone. */
  const BLOCK_TABLES := (t: Tables) => (t.chain, t.heights, t.commitments)

  lemma {:induction false} AddTransactionFrame(h: Hashes, t: Tables, tx: Transaction, hash: Hash, t': Tables)
    requires AddTransaction(h, t, tx, hash) == Done(t')
    ensures BLOCK_TABLES(t') == BLOCK_TABLES(t)
  {
  }

  lemma {:induction false} TakeTransactionFrame(t: Tables, hash: Hash, r: (Tables, Transaction))
    requires TakeTransaction(t, hash) == Done(r)
    ensures BLOCK_TABLES(r.0) == BLOCK_TABLES(t)
  {
  }

  lemma {:induction false} FillFrame(h: Hashes, t: Tables, a: Addition, t': Tables)
    requires |a.blk.txHashes| == |a.txs| && FillTransactions(h, t, a) == Done(t')
    ensures BLOCK_TABLES(t') == BLOCK_TABLES(t)
  {
    var t1 := AddTransaction(h, t, a.blk.minerTx, h.tx(a.blk.minerTx)).value;
    AddTransactionFrame(h, t, a.blk.minerTx, h.tx(a.blk.minerTx), t1);
    ForwardFrame(h, t1, a.txs, a.blk.txHashes, t');
  }

  lemma {:induction false} ForwardFrame(h: Hashes, t: Tables, txs: seq<Transaction>, hashes: seq<Hash>, t': Tables)
    requires Forward(AddStep(h, txs, hashes), t, |txs|) == Done(t')
    ensures BLOCK_TABLES(t') == BLOCK_TABLES(t)
  {
    var step := AddStep(h, txs, hashes);
    forall s: Tables, i: nat | i < |txs| && step(s, i).Done?
      ensures BLOCK_TABLES(step(s, i).value) == BLOCK_TABLES(s)
    {
      AddTransactionFrame(h, s, txs[i], hashes[i], step(s, i).value);
    }
    ForwardKeeps(step, BLOCK_TABLES, t, |txs|);
  }

  /** Removing row and commitment of the top block undoes the block part of `add_block`. */
  lemma {:induction false} RowGone(t: Tables, a: Addition, hash: Hash, t': Tables)
    requires FinishBlock(t, a, hash) == Done(t') && |t.chain| !in t.commitments
    ensures |t'.chain| == |t.chain| + 1 && t'.chain[|t.chain|].blk == a.blk && RemoveBlockRow(t').Done?
    ensures RemoveBlockRow(t').value.(commitments := t'.commitments - {|t.chain|}) == t
  {
    var n := |t.chain|;
    assert t'.chain[..n] == t.chain;
    TakeOut(t.heights, hash, n);
    if a.commitment.Some? {
      TakeOut(t.commitments, n, a.commitment.value);
    } else {
      assert t.commitments - {n} == t.commitments;
    }
  }

  lemma {:induction false} RowRemoved(h: Hashes, t: Tables, a: Addition, hash: Hash, t': Tables)
    requires FinishBlock(t, a, hash) == Done(t') && |t.chain| !in t.commitments
    ensures PopBlock(h, t') == PopTransactions(h, t, a.blk)
  {
    RowGone(t, a, hash, t');
    assert RemoveBlockRow(t').value.commitments == t'.commitments;
  }

  // ----- all tables but the outputs

  /** The tables other than those of the outputs. */
  function Rest(t: Tables): Tables
  {
    t.(outs := EMPTY.outs)
  }

  const ANY := (t: Tables) => true

  lemma {:induction false} RemoveRestores(h: Hashes, t: Tables, tx: Transaction, hash: Hash, t': Tables, other: Tables)
    requires AddTransaction(h, t, tx, hash) == Done(t') && Rest(other) == Rest(t')
    ensures FindTransaction(other, hash) == Done(tx)
    ensures RemoveTransaction(other, hash).Done? ==> Rest(RemoveTransaction(other, hash).value) == Rest(t)
  {
    SpendAdds(t.spent, tx.vin);
    RemoveAddedData(h, t.txs, tx, hash, |t.chain|, AddOutputs(h, t.outs, tx, hash, |t.chain|).value.1);
    assert other.txs == t'.txs && other.spent == t'.spent && other.chain == t'.chain;
    assert other.heights == t'.heights && other.commitments == t'.commitments;
    assert t'.spent - Images(tx.vin) == t.spent;
  }

  lemma {:induction false} TakeRestores(h: Hashes, txs: seq<Transaction>, hashes: seq<Hash>, spare: Transaction)
    requires |txs| == |hashes|
    ensures UndoesView(TakeStep(hashes), AddStep(h, txs, hashes), Nth(txs, spare), ANY, Rest, |txs|)
  {
    var undo, step, what := TakeStep(hashes), AddStep(h, txs, hashes), Nth(txs, spare);
    forall s: Tables, s': Tables, i: nat | i < |txs| && step(s, i).Done? &&
               Rest(s') == Rest(step(s, i).value) && undo(s', i).Done?
      ensures Rest(undo(s', i).value.0) == Rest(s) && undo(s', i).value.1 == what(i)
    {
      RemoveRestores(h, s, txs[i], hashes[i], step(s, i).value, s');
    }
  }

  lemma {:induction false} TakeAllRestores(h: Hashes, t: Tables, txs: seq<Transaction>, hashes: seq<Hash>, t': Tables,
                                           other: Tables, r: (Tables, seq<Transaction>), spare: Transaction)
    requires |txs| == |hashes| && Forward(AddStep(h, txs, hashes), t, |txs|) == Done(t') && Rest(other) == Rest(t')
    requires Backward(TakeStep(hashes), other, |hashes|) == Done(r)
    ensures Rest(r.0) == Rest(t) && r.1 == Reversed(txs)
  {
    TakeRestores(h, txs, hashes, spare);
    BackwardUndoesView(TakeStep(hashes), AddStep(h, txs, hashes), Nth(txs, spare), ANY, Rest, t, other, |txs|);
    CountdownReversed(txs, spare, |txs|);
    assert txs[..|txs|] == txs;
  }

  lemma {:induction false} PopFilledRestores(h: Hashes, t: Tables, a: Addition, t': Tables, other: Tables, p: Popped)
    requires |a.blk.txHashes| == |a.txs| && FillTransactions(h, t, a) == Done(t') && Rest(other) == Rest(t')
    requires PopTransactions(h, other, a.blk) == Done(p)
    ensures Rest(p.tables) == Rest(t) && p.blk == a.blk && p.txs == Reversed(a.txs)
  {
    var miner, hash := a.blk.minerTx, h.tx(a.blk.minerTx);
    var t1 := AddTransaction(h, t, miner, hash).value;
    var r := Backward(TakeStep(a.blk.txHashes), other, |a.txs|).value;
    TakeAllRestores(h, t1, a.txs, a.blk.txHashes, t', other, r, miner);
    RemoveRestores(h, t, miner, hash, t1, r.0);
  }

  lemma {:induction false} FinishIgnoresOutputs(t: Tables, a: Addition, hash: Hash, t': Tables, outs: Outputs)
    requires FinishBlock(t, a, hash) == Done(t')
    ensures FinishBlock(t.(outs := outs), a, hash) == Done(t'.(outs := outs))
  {
  }

  /** Popping takes the transactions out of the tables with row and commitment gone. */
  lemma {:induction false} PopIsPopOfFilled(h: Hashes, t: Tables, a: Addition, t': Tables, other: Tables)
    requires AddBlock(h, t, a) == Done(t') && |t.chain| !in t.commitments && Rest(other) == Rest(t')
    ensures PopBlock(h, other) == PopTransactions(h, FillTransactions(h, t, a).value.(outs := other.outs), a.blk)
    ensures FillTransactions(h, t, a).value.outs == t'.outs
  {
    var filled, hash := FillTransactions(h, t, a).value, h.block(a.blk);
    FillFrame(h, t, a, filled);
    FinishIgnoresOutputs(filled, a, hash, t', other.outs);
    assert other == Rest(t').(outs := other.outs) == t'.(outs := other.outs);
    RowRemoved(h, filled.(outs := other.outs), a, hash, other);
  }

  /** Whenever popping succeeds on tables that differ from those after the add in the outputs only, it restores the
      tables before the add but for the outputs, and returns the block and its transactions reversed. */
  lemma {:induction false} PopRestoresRest(h: Hashes, t: Tables, a: Addition, t': Tables, other: Tables, p: Popped)
    requires AddBlock(h, t, a) == Done(t') && |t.chain| !in t.commitments
    requires Rest(other) == Rest(t') && PopBlock(h, other) == Done(p)
    ensures Rest(p.tables) == Rest(t) && p.blk == a.blk && p.txs == Reversed(a.txs)
  {
    var filled := FillTransactions(h, t, a).value;
    PopIsPopOfFilled(h, t, a, t', other);
    PopFilledRestores(h, t, a, filled, filled.(outs := other.outs), p);
  }

  // ----- outputs under amount 0

  ghost function StoredOf(txs: seq<Transaction>): nat -> nat
  {
    (i: nat) => if i < |txs| then StoredZeros(txs[i]) else 0
  }

  ghost function RemovedOf(txs: seq<Transaction>): nat -> nat
  {
    (i: nat) => if i < |txs| then RemovedZeros(txs[i]) else 0
  }

  /** Outputs of a block that are stored, and those that are looked for, under amount 0. */
  ghost function StoredBy(a: Addition): nat
  {
    StoredZeros(a.blk.minerTx) + Sum(StoredOf(a.txs), |a.txs|)
  }

  ghost function RemovedBy(a: Addition): nat
  {
    RemovedZeros(a.blk.minerTx) + Sum(RemovedOf(a.txs), |a.txs|)
  }

  const RCT_OUTPUTS := (t: Tables) => Count(t.outs, 0)

  lemma {:induction false} AddTransactionCounts(h: Hashes, t: Tables, tx: Transaction, hash: Hash, t': Tables)
    requires AddTransaction(h, t, tx, hash) == Done(t')
    ensures RCT_OUTPUTS(t') == RCT_OUTPUTS(t) + StoredZeros(tx)
  {
    CountAddedOutputs(h, t.outs, tx, hash, |t.chain|, AddOutputs(h, t.outs, tx, hash, |t.chain|).value);
  }

  lemma {:induction false} AddTransactionsCount(h: Hashes, t: Tables, txs: seq<Transaction>, hashes: seq<Hash>,
                                                t': Tables)
    requires Forward(AddStep(h, txs, hashes), t, |txs|) == Done(t')
    ensures RCT_OUTPUTS(t') == RCT_OUTPUTS(t) + Sum(StoredOf(txs), |txs|)
  {
    var step, w := AddStep(h, txs, hashes), StoredOf(txs);
    forall s: Tables, i: nat | i < |txs| && step(s, i).Done?
      ensures RCT_OUTPUTS(step(s, i).value) == RCT_OUTPUTS(s) + w(i)
    {
      AddTransactionCounts(h, s, txs[i], hashes[i], step(s, i).value);
    }
    ForwardCounts(step, RCT_OUTPUTS, w, t, |txs|);
  }

  lemma {:induction false} AddBlockCounts(h: Hashes, t: Tables, a: Addition, t': Tables)
    requires AddBlock(h, t, a) == Done(t')
    ensures RCT_OUTPUTS(t') == RCT_OUTPUTS(t) + StoredZeros(a.blk.minerTx) + Sum(StoredOf(a.txs), |a.txs|)
  {
    var filled := FillTransactions(h, t, a).value;
    FillCounts(h, t, a, filled);
    assert t'.outs == filled.outs;
  }

  lemma {:induction false} FillCounts(h: Hashes, t: Tables, a: Addition, t': Tables)
    requires |a.blk.txHashes| == |a.txs| && FillTransactions(h, t, a) == Done(t')
    ensures RCT_OUTPUTS(t') == RCT_OUTPUTS(t) + StoredZeros(a.blk.minerTx) + Sum(StoredOf(a.txs), |a.txs|)
  {
    var miner, hash := a.blk.minerTx, h.tx(a.blk.minerTx);
    var t1 := AddTransaction(h, t, miner, hash).value;
    AddTransactionCounts(h, t, miner, hash, t1);
    AddTransactionsCount(h, t1, a.txs, a.blk.txHashes, t');
  }

  lemma {:induction false} RemoveCounts(h: Hashes, t: Tables, tx: Transaction, hash: Hash, t': Tables, other: Tables)
    requires AddTransaction(h, t, tx, hash) == Done(t') && Rest(other) == Rest(t')
    requires RemoveTransaction(other, hash).Done?
    ensures RCT_OUTPUTS(other) == RCT_OUTPUTS(RemoveTransaction(other, hash).value) + RemovedZeros(tx)
  {
    RemoveRestores(h, t, tx, hash, t', other);
    var indices := IndicesFor(other.txs, other.txs.indices[hash].txId);
    CountRemovedOutputs(other.outs, tx, indices, RemoveOutputs(other.outs, tx, indices).value);
  }

  lemma {:induction false} TakeLowers(h: Hashes, txs: seq<Transaction>, hashes: seq<Hash>)
    requires |txs| == |hashes|
    ensures LowersView(TakeStep(hashes), AddStep(h, txs, hashes), ANY, Rest, RCT_OUTPUTS, RemovedOf(txs), |txs|)
  {
    var undo, step, w := TakeStep(hashes), AddStep(h, txs, hashes), RemovedOf(txs);
    forall s: Tables, s': Tables, i: nat | i < |txs| && step(s, i).Done? &&
               Rest(s') == Rest(step(s, i).value) && undo(s', i).Done?
      ensures RCT_OUTPUTS(s') == RCT_OUTPUTS(undo(s', i).value.0) + w(i)
    {
      RemoveCounts(h, s, txs[i], hashes[i], step(s, i).value, s');
    }
  }

  lemma {:induction false} TakeAllCounts(h: Hashes, t: Tables, txs: seq<Transaction>, hashes: seq<Hash>, t': Tables,
                                         other: Tables, r: (Tables, seq<Transaction>), spare: Transaction)
    requires |txs| == |hashes| && Forward(AddStep(h, txs, hashes), t, |txs|) == Done(t') && Rest(other) == Rest(t')
    requires Backward(TakeStep(hashes), other, |hashes|) == Done(r)
    ensures RCT_OUTPUTS(other) == RCT_OUTPUTS(r.0) + Sum(RemovedOf(txs), |txs|)
  {
    TakeRestores(h, txs, hashes, spare);
    TakeLowers(h, txs, hashes);
    BackwardCounts(TakeStep(hashes), AddStep(h, txs, hashes), Nth(txs, spare), ANY, Rest, RCT_OUTPUTS, RemovedOf(txs),
                   t, other, |txs|);
  }

  lemma {:induction false} PopFilledCounts(h: Hashes, t: Tables, a: Addition, t': Tables, other: Tables, p: Popped)
    requires |a.blk.txHashes| == |a.txs| && FillTransactions(h, t, a) == Done(t') && Rest(other) == Rest(t')
    requires PopTransactions(h, other, a.blk) == Done(p)
    ensures RCT_OUTPUTS(other) == RCT_OUTPUTS(p.tables) + RemovedBy(a)
  {
    var miner, hash := a.blk.minerTx, h.tx(a.blk.minerTx);
    var t1 := AddTransaction(h, t, miner, hash).value;
    var r := Backward(TakeStep(a.blk.txHashes), other, |a.txs|).value;
    TakeAllRestores(h, t1, a.txs, a.blk.txHashes, t', other, r, miner);
    TakeAllCounts(h, t1, a.txs, a.blk.txHashes, t', other, r, miner);
    RemoveCounts(h, t, miner, hash, t1, r.0);
  }

  /** A pop that succeeds takes away as many outputs under amount 0 as it looks for there. */
  lemma {:induction false} PopCounts(h: Hashes, t: Tables, a: Addition, t': Tables, other: Tables, p: Popped)
    requires AddBlock(h, t, a) == Done(t') && |t.chain| !in t.commitments
    requires Rest(other) == Rest(t') && PopBlock(h, other) == Done(p)
    ensures RCT_OUTPUTS(other) == RCT_OUTPUTS(p.tables) + RemovedBy(a)
  {
    var filled := FillTransactions(h, t, a).value;
    PopIsPopOfFilled(h, t, a, t', other);
    PopFilledCounts(h, t, a, filled, filled.(outs := other.outs), p);
  }

  // ----- the exact condition

  /** Every output of the block is looked for under the amount it is stored under. */
  ghost predicate Undoable(a: Addition)
  {
    SameAmounts(a.blk.minerTx) && forall i :: 0 <= i < |a.txs| ==> SameAmounts(a.txs[i])
  }

  lemma {:induction false} AddedVersion(h: Hashes, t: Tables, tx: Transaction, hash: Hash)
    requires AddTransaction(h, t, tx, hash).Done?
    ensures tx.version <= CURRENT_TRANSACTION_VERSION
  {
  }

  lemma {:induction false} BlockVersions(h: Hashes, t: Tables, a: Addition)
    requires AddBlock(h, t, a).Done?
    ensures a.blk.minerTx.version <= CURRENT_TRANSACTION_VERSION
    ensures forall i :: 0 <= i < |a.txs| ==> a.txs[i].version <= CURRENT_TRANSACTION_VERSION
  {
    AddedVersion(h, t, a.blk.minerTx, h.tx(a.blk.minerTx));
    var t1 := AddTransaction(h, t, a.blk.minerTx, h.tx(a.blk.minerTx)).value;
    forall i | 0 <= i < |a.txs|
      ensures a.txs[i].version <= CURRENT_TRANSACTION_VERSION
    {
      var s := StepTaken(AddStep(h, a.txs, a.blk.txHashes), t1, |a.txs|, i);
      AddedVersion(h, s, a.txs[i], a.blk.txHashes[i]);
    }
  }

  lemma {:induction false} ZerosLostIn(txs: seq<Transaction>)
    requires forall i :: 0 <= i < |txs| ==> txs[i].version <= CURRENT_TRANSACTION_VERSION
    ensures Sum(RemovedOf(txs), |txs|) <= Sum(StoredOf(txs), |txs|)
    ensures Sum(RemovedOf(txs), |txs|) == Sum(StoredOf(txs), |txs|) <==>
            forall i :: 0 <= i < |txs| ==> SameAmounts(txs[i])
  {
    var removed, stored := RemovedOf(txs), StoredOf(txs);
    forall i: nat | i < |txs|
      ensures removed(i) <= stored(i) && (removed(i) == stored(i) <==> SameAmounts(txs[i]))
    {
      ZerosLost(txs[i]);
    }
    SumBelow(removed, stored, |txs|);
  }

  /** A block that was added has not more outputs looked for under amount 0 than stored there, and as many
      if and only if it is undoable. */
  lemma {:induction false} BlockZerosLost(h: Hashes, t: Tables, a: Addition)
    requires AddBlock(h, t, a).Done?
    ensures RemovedBy(a) <= StoredBy(a)
    ensures RemovedBy(a) == StoredBy(a) <==> Undoable(a)
  {
    BlockVersions(h, t, a);
    ZerosLost(a.blk.minerTx);
    ZerosLostIn(a.txs);
  }

  lemma {:induction false} PopUndoesAddOf(h: Hashes, t: Tables, a: Addition, t': Tables)
    requires AddBlock(h, t, a) == Done(t') && |t.chain| !in t.commitments && Undoable(a)
    ensures PopBlock(h, t') == Done(Popped(t, a.blk, Reversed(a.txs)))
  {
    var miner, hash := a.blk.minerTx, h.tx(a.blk.minerTx);
    var t1 := AddTransaction(h, t, miner, hash).value;
    PopIsPopOfFilled(h, t, a, t', t');
    TakeAddedTransactions(h, t1, a.txs, a.blk.txHashes, FillTransactions(h, t, a).value, miner);
    RemoveUndoesAdd(h, t, miner, hash);
  }

  /** Popping the block just added restores all tables and returns the block and its transactions in reverse,
      if and only if every output of the block is looked for under the amount it is stored under. */
  lemma {:induction false} PopUndoesAdd(h: Hashes, t: Tables, a: Addition, t': Tables)
    requires AddBlock(h, t, a) == Done(t') && |t.chain| !in t.commitments
    ensures PopBlock(h, t') == Done(Popped(t, a.blk, Reversed(a.txs))) <==> Undoable(a)
  {
    if Undoable(a) {
      PopUndoesAddOf(h, t, a, t');
    } else if PopBlock(h, t') == Done(Popped(t, a.blk, Reversed(a.txs))) {
      AddBlockCounts(h, t, a, t');
      PopCounts(h, t, a, t', t', Popped(t, a.blk, Reversed(a.txs)));
      BlockZerosLost(h, t, a);
    }
  }
}
