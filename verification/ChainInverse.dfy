/** Removing a transaction undoes adding it, and exactly when. */
module ChainInverse {
  import opened ChainTables
  import opened ChainSpec
  import opened Rollback

  // ----- spent keys

  lemma {:induction false} ImagesSnoc(vin: seq<Input>, x: Input)
    ensures Images(vin + [x]) == Images(vin) + if x.ToKey? then {x.image} else {}
  {
    var all := vin + [x];
    forall k | k in Images(vin) ensures k in Images(all) {
      var i :| 0 <= i < |vin| && vin[i].ToKey? && vin[i].image == k;
      assert all[i] == vin[i];
    }
    if x.ToKey? {
      assert all[|vin|] == x;
    }
  }

  /** No image is spent by two inputs. */
  predicate DistinctImages(vin: seq<Input>)
  {
    forall i, j :: 0 <= i < j < |vin| && vin[i].ToKey? && vin[j].ToKey? ==> vin[i].image != vin[j].image
  }

  /** The images spent were all fresh, and distinct. */
  lemma {:induction false} SpendAdds(spent: set<KeyImage>, vin: seq<Input>)
    requires Spend(spent, vin).Done?
    ensures Spend(spent, vin).value == spent + Images(vin) && Images(vin) !! spent && DistinctImages(vin)
  {
    if vin != [] {
      var init := vin[..|vin| - 1];
      SpendAdds(spent, init);
      ImagesSnoc(init, vin[|vin| - 1]);
      assert vin == init + [vin[|vin| - 1]];
      assert forall i :: 0 <= i < |init| && init[i].ToKey? ==> init[i].image in Images(init);
    }
  }

  // ----- outputs

  /** Every output is looked for under the amount it is stored under. */
  predicate SameAmounts(tx: Transaction)
  {
    StoredAsRct(tx) == RemovedAsRct(tx) || forall i :: 0 <= i < |tx.vout| ==> tx.vout[i].amount == 0
  }

  lemma {:induction false} OutputsRevert(h: Hashes, tx: Transaction, hash: Hash, height: nat)
    requires SameAmounts(tx)
    ensures Reverts(OutputUndo(tx), OutputStep(h, tx, hash, height), |tx.vout|)
  {
    var undo, step := OutputUndo(tx), OutputStep(h, tx, hash, height);
    forall o: Outputs, i: nat | i < |tx.vout| && step(o, i).Done?
      ensures undo(step(o, i).value.0, i, step(o, i).value.1) == Done(o)
    {
      assert RemovalAmount(tx, i) == StoredAmount(tx, i) == NewOutputOf(h, tx, i).amount;
      RemoveAddedOutput(o, NewOutputOf(h, tx, i), hash, i, tx.unlockTime, height);
    }
  }

  lemma {:induction false} RemoveAddedOutputs(h: Hashes, o: Outputs, tx: Transaction, hash: Hash, height: nat,
                                              r: (Outputs, seq<nat>))
    requires SameAmounts(tx) && AddOutputs(h, o, tx, hash, height) == Done(r)
    ensures RemoveOutputs(r.0, tx, r.1) == Done(o)
  {
    OutputsRevert(h, tx, hash, height);
    UnloggedReverts(OutputUndo(tx), OutputStep(h, tx, hash, height), o, r.1, |tx.vout|);
  }

  /** One for each output stored under amount 0. */
  function StoredZero(tx: Transaction): nat -> nat
  {
    (i: nat) => if i < |tx.vout| && StoredAmount(tx, i) == 0 then 1 else 0
  }

  function RemovedZero(tx: Transaction): nat -> nat
  {
    (i: nat) => if i < |tx.vout| && RemovalAmount(tx, i) == 0 then 1 else 0
  }

  const ZERO_COUNT := (o: Outputs) => Count(o, 0)

  lemma {:induction false} CountAddedOutputs(h: Hashes, o: Outputs, tx: Transaction, hash: Hash, height: nat,
                                             r: (Outputs, seq<nat>))
    requires AddOutputs(h, o, tx, hash, height) == Done(r)
    ensures Count(r.0, 0) == Count(o, 0) + StoredZeros(tx)
  {
    var step, m, w := OutputStep(h, tx, hash, height), ZERO_COUNT, StoredZero(tx);
    forall o': Outputs, i: nat | i < |tx.vout| && step(o', i).Done?
      ensures m(step(o', i).value.0) == m(o') + w(i)
    {
      CountAdded(o', NewOutputOf(h, tx, i), hash, i, tx.unlockTime, height, 0);
    }
    LoggedCounts(step, m, w, o, |tx.vout|);
  }

  lemma {:induction false} CountRemovedOutputs(o: Outputs, tx: Transaction, indices: seq<nat>, o': Outputs)
    requires RemoveOutputs(o, tx, indices) == Done(o')
    ensures Count(o, 0) == Count(o', 0) + RemovedZeros(tx)
  {
    var undo, m, w := OutputUndo(tx), ZERO_COUNT, RemovedZero(tx);
    forall s: Outputs, i: nat, k: nat | i < |tx.vout| && undo(s, i, k).Done?
      ensures m(s) == m(undo(s, i, k).value) + w(i)
    {
      CountRemoved(s, RemovalAmount(tx, i), k, 0);
    }
    UnloggedCounts(undo, m, w, o, indices, |tx.vout|);
  }

  /** Outputs of a transaction that are stored, and those that are looked for, under amount 0. */
  function StoredZeros(tx: Transaction): nat
  {
    Sum(StoredZero(tx), |tx.vout|)
  }

  function RemovedZeros(tx: Transaction): nat
  {
    Sum(RemovedZero(tx), |tx.vout|)
  }

  /** Not more are looked for under amount 0 than are stored there, and fewer if the amounts differ. */
  lemma {:induction false} ZerosLost(tx: Transaction)
    requires tx.version <= CURRENT_TRANSACTION_VERSION
    ensures RemovedZeros(tx) <= StoredZeros(tx)
    ensures RemovedZeros(tx) == StoredZeros(tx) <==> SameAmounts(tx)
  {
    var n, stored, removed := |tx.vout|, StoredZero(tx), RemovedZero(tx);
    SumBelow(removed, stored, n);
    if !SameAmounts(tx) {
      var i: nat :| i < n && tx.vout[i].amount != 0;
      assert removed(i) != stored(i);
    }
  }

  /** If the amounts differ, the outputs before are not restored. */
  lemma {:induction false} OutputsLeftBehind(h: Hashes, o: Outputs, tx: Transaction, hash: Hash, height: nat,
                                             r: (Outputs, seq<nat>))
    requires tx.version <= CURRENT_TRANSACTION_VERSION && !SameAmounts(tx)
    requires AddOutputs(h, o, tx, hash, height) == Done(r)
    ensures RemoveOutputs(r.0, tx, r.1) != Done(o)
  {
    if RemoveOutputs(r.0, tx, r.1) == Done(o) {
      CountAddedOutputs(h, o, tx, hash, height, r);
      CountRemovedOutputs(r.0, tx, r.1, o);
      ZerosLost(tx);
    }
  }

  // ----- transactions

  lemma {:induction false} RemoveAddedData(h: Hashes, t: Transactions, tx: Transaction, hash: Hash, height: nat,
                                           indices: seq<nat>)
    requires AddTransactionData(h, t, tx, hash, height).Done?
    requires AddIndices(AddTransactionData(h, t, tx, hash, height).value, |t.blobs|, indices).Done?
    ensures var t' := AddIndices(AddTransactionData(h, t, tx, hash, height).value, |t.blobs|, indices).value;
            && hash in t'.indices && t'.indices[hash].txId == |t.blobs|
            && |t.blobs| in t'.blobs && t'.blobs[|t.blobs|] == tx && IndicesFor(t', |t.blobs|) == indices
            && RemoveTransactionData(t', tx, hash) == Done(t)
  {
    var id := |t.blobs|;
    var t' := AddIndices(AddTransactionData(h, t, tx, hash, height).value, id, indices).value;
    assert t'.indices - {hash} == t.indices;
    assert t'.blobs - {id} == t.blobs;
    assert tx.version > 1 ==> t'.prunable - {id} == t.prunable;
    assert t'.outputs - {id} == t.outputs;
  }

  /** Removing a transaction just added restores all tables if and only if its outputs are
      looked for under the amounts they were stored under. */
  lemma {:induction false} RemoveUndoesAdd(h: Hashes, t: Tables, tx: Transaction, hash: Hash)
    requires AddTransaction(h, t, tx, hash).Done?
    ensures FindTransaction(AddTransaction(h, t, tx, hash).value, hash) == Done(tx)
    ensures RemoveTransaction(AddTransaction(h, t, tx, hash).value, hash) == Done(t) <==> SameAmounts(tx)
  {
    var t' := AddTransaction(h, t, tx, hash).value;
    var added := AddOutputs(h, t.outs, tx, hash, |t.chain|).value;
    SpendAdds(t.spent, tx.vin);
    assert t'.spent - Images(tx.vin) == t.spent;
    RemoveAddedData(h, t.txs, tx, hash, |t.chain|, added.1);
    if SameAmounts(tx) {
      RemoveAddedOutputs(h, t.outs, tx, hash, |t.chain|, added);
    } else {
      OutputsLeftBehind(h, t.outs, tx, hash, |t.chain|, added);
    }
  }

  function Reversed(txs: seq<Transaction>): (r: seq<Transaction>)
    ensures |r| == |txs|
  {
    seq(|txs|, i requires 0 <= i < |txs| => txs[|txs| - 1 - i])
  }

  function Nth(txs: seq<Transaction>, spare: Transaction): nat -> Transaction
  {
    (i: nat) => if i < |txs| then txs[i] else spare
  }

  lemma {:induction false} CountdownReversed(txs: seq<Transaction>, spare: Transaction, n: nat)
    requires n <= |txs|
    ensures Countdown(Nth(txs, spare), n) == Reversed(txs[..n])
  {
    if n > 0 {
      CountdownReversed(txs, spare, n - 1);
      assert Reversed(txs[..n]) == [txs[n - 1]] + Reversed(txs[..n - 1]);
    }
  }

  lemma {:induction false} TakeUndoesAdd(h: Hashes, txs: seq<Transaction>, hashes: seq<Hash>, spare: Transaction)
    requires |txs| == |hashes| && forall i :: 0 <= i < |txs| ==> SameAmounts(txs[i])
    ensures Undoes(TakeStep(hashes), AddStep(h, txs, hashes), Nth(txs, spare), _ => true, |txs|)
  {
    var undo, step, what := TakeStep(hashes), AddStep(h, txs, hashes), Nth(txs, spare);
    forall t: Tables, i: nat | i < |txs| && step(t, i).Done?
      ensures undo(step(t, i).value, i) == Done((t, what(i)))
    {
      RemoveUndoesAdd(h, t, txs[i], hashes[i]);
    }
  }

  /** The transactions of a block are removed, and returned, in the reverse of insertion order. */
  lemma {:induction false} TakeAddedTransactions(h: Hashes, t: Tables, txs: seq<Transaction>, hashes: seq<Hash>,
                                                 t': Tables, spare: Transaction)
    requires |txs| == |hashes| && Forward(AddStep(h, txs, hashes), t, |txs|) == Done(t')
    requires forall i :: 0 <= i < |txs| ==> SameAmounts(txs[i])
    ensures Backward(TakeStep(hashes), t', |hashes|) == Done((t, Reversed(txs)))
  {
    TakeUndoesAdd(h, txs, hashes, spare);
    BackwardUndoes(TakeStep(hashes), AddStep(h, txs, hashes), Nth(txs, spare), _ => true, t, |txs|);
    CountdownReversed(txs, spare, |txs|);
    assert txs[..|txs|] == txs;
  }

  /** Transactions without a generating input, and miner transactions of versions 1 and 2 with
      just that input, are undone. */
  lemma {:induction false} UsualTransactions(tx: Transaction)
    ensures !HasGen(tx.vin) ==> SameAmounts(tx)
    ensures tx.version <= 2 && |tx.vin| == 1 && tx.vin[0].Gen? ==> SameAmounts(tx)
  {
  }
}
