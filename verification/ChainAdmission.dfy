/** What `add_block` demands of its caller, and nothing more. */
module ChainAdmission {
  import opened Wrappers
  import opened ChainTables
  import opened Rollback
  import opened ChainSpec
  import opened ChainInverse
  import opened BlockInverse
  import opened ChainRuns
  import opened ChainReplay
  import opened ChainSafety

  // ----- tables without gaps

  /** The indices under each amount are 0 up to the number of them. */
  ghost predicate DenseOutputs(o: Outputs)
  {
    forall e :: e in o.amounts ==> e.1 < Count(o, e.0)
  }

  /** Transactions have the ids 0 up to their number. */
  ghost predicate DenseTransactions(t: Transactions)
  {
    Above(t.blobs, |t.blobs|) && Above(t.prunable, |t.blobs|) && Above(t.outputs, |t.blobs|)
  }

  ghost predicate Dense(t: Tables)
  {
    DenseOutputs(t.outs) && DenseTransactions(t.txs)
  }

  // ----- one transaction

  predicate StorableOutput(tx: Transaction, i: nat)
    requires i < |tx.vout|
  {
    tx.vout[i].key.Some? && (tx.version == 2 || tx.vout[i].amount != 0)
  }

  /** What a transaction has to be like, whatever is stored already. */
  predicate Storable(tx: Transaction)
  {
    && (tx.version == 1 || tx.version == 2)
    && (forall i :: 0 <= i < |tx.vin| ==> !tx.vin[i].OtherInput?) && DistinctImages(tx.vin)
    && (forall i :: 0 <= i < |tx.vout| ==> StorableOutput(tx, i))
  }

  lemma {:induction false} SpendExactly(spent: set<KeyImage>, vin: seq<Input>)
    ensures Spend(spent, vin).Done? <==>
            (forall i :: 0 <= i < |vin| ==> !vin[i].OtherInput?) && DistinctImages(vin) && Images(vin) !! spent
  {
    if vin != [] {
      var init, last := vin[..|vin| - 1], vin[|vin| - 1];
      SpendExactly(spent, init);
      ImagesSnoc(init, last);
      assert vin == init + [last];
      assert forall i :: 0 <= i < |init| ==> init[i] == vin[i];
      if Spend(spent, init).Done? { SpendAdds(spent, init); }
    }
  }

  lemma {:induction false} AddOutputExactly(o: Outputs, out: NewOutput, hash: Hash, i: nat, unlockTime: nat,
                                            height: nat)
    requires DenseOutputs(o)
    ensures AddOutput(o, out, hash, i, unlockTime, height).Done? <==>
            out.key.Some? && (out.amount != 0 || out.commitment.Some?)
    ensures AddOutput(o, out, hash, i, unlockTime, height).Done? ==>
              DenseOutputs(AddOutput(o, out, hash, i, unlockTime, height).value.0)
  {
    forall j | j in IndicesOf(o, out.amount)
      ensures j < Count(o, out.amount)
    {
      IndexIn(o, out.amount, j);
    }
    if AddOutput(o, out, hash, i, unlockTime, height).Done? {
      var o' := AddOutput(o, out, hash, i, unlockTime, height).value.0;
      forall e | e in o'.amounts
        ensures e.1 < Count(o', e.0)
      {
        CountAdded(o, out, hash, i, unlockTime, height, e.0);
      }
    }
  }

  ghost function OutputOk(tx: Transaction): nat -> bool
  {
    (i: nat) => i < |tx.vout| && StorableOutput(tx, i)
  }

  lemma {:induction false} OutputStepsExactly(h: Hashes, tx: Transaction, hash: Hash, height: nat, inv: Outputs -> bool)
    requires (tx.version == 1 || tx.version == 2) && forall o :: inv(o) == DenseOutputs(o)
    ensures LogsExactly(OutputStep(h, tx, hash, height), inv, OutputOk(tx), |tx.vout|)
  {
    var step, ok := OutputStep(h, tx, hash, height), OutputOk(tx);
    forall o: Outputs, i: nat | i < |tx.vout| && inv(o)
      ensures step(o, i).Done? == ok(i) && (step(o, i).Done? ==> inv(step(o, i).value.0))
    {
      AddOutputExactly(o, NewOutputOf(h, tx, i), hash, i, tx.unlockTime, height);
    }
  }

  lemma {:induction false} AddOutputsExactly(h: Hashes, o: Outputs, tx: Transaction, hash: Hash, height: nat)
    requires DenseOutputs(o) && (tx.version == 1 || tx.version == 2)
    ensures AddOutputs(h, o, tx, hash, height).Done? <==> forall i :: 0 <= i < |tx.vout| ==> StorableOutput(tx, i)
    ensures AddOutputs(h, o, tx, hash, height).Done? ==> DenseOutputs(AddOutputs(h, o, tx, hash, height).value.0)
  {
    var inv, ok := (o: Outputs) => DenseOutputs(o), OutputOk(tx);
    OutputStepsExactly(h, tx, hash, height, inv);
    LoggedExactly(OutputStep(h, tx, hash, height), inv, ok, o, |tx.vout|);
    assert forall i :: 0 <= i < |tx.vout| ==> ok(i) == StorableOutput(tx, i);
  }

  lemma {:induction false} AddDataExactly(h: Hashes, t: Transactions, tx: Transaction, hash: Hash, height: nat)
    requires DenseTransactions(t)
    ensures AddTransactionData(h, t, tx, hash, height).Done? <==>
            hash !in t.indices && (tx.version == 1 || tx.version == 2)
  {
  }

  lemma {:induction false} DenseAppended(t: Transactions, tx: Transaction, hash: Hash, indices: seq<nat>,
                                         t': Transactions)
    requires DenseTransactions(t) && (t'.prunable == t.prunable || t'.prunable == t.prunable[|t.blobs| := hash])
    requires t'.blobs == t.blobs[|t.blobs| := tx] && t'.outputs == t.outputs[|t.blobs| := indices]
    ensures DenseTransactions(t')
  {
    AppendKeepsAbove(t.blobs, |t.blobs|, tx);
    AppendKeepsAbove(t.outputs, |t.blobs|, indices);
  }

  lemma {:induction false} AddDataAppends(h: Hashes, t: Transactions, tx: Transaction, hash: Hash, height: nat,
                                          t1: Transactions)
    requires AddTransactionData(h, t, tx, hash, height) == Done(t1)
    ensures t1.indices.Keys == t.indices.Keys + {hash}
    ensures t1.blobs == t.blobs[|t.blobs| := tx] && t1.outputs == t.outputs
    ensures t1.prunable == t.prunable || t1.prunable == t.prunable[|t.blobs| := h.prunable(tx)]
  {
  }

  lemma {:induction false} AddDataKeepsDense(h: Hashes, t: Transactions, tx: Transaction, hash: Hash, height: nat,
                                             t1: Transactions, indices: seq<nat>)
    requires DenseTransactions(t) && AddTransactionData(h, t, tx, hash, height) == Done(t1)
    ensures var t' := AddIndices(t1, |t.blobs|, indices);
            t'.Done? && DenseTransactions(t'.value) && t'.value.indices.Keys == t.indices.Keys + {hash}
  {
    AddDataAppends(h, t, tx, hash, height, t1);
    DenseAppended(t, tx, h.prunable(tx), indices, t1.(outputs := t.outputs[|t.blobs| := indices]));
  }

  /** Where there are no gaps, a transaction is added if and only if it is storable and its images and hash are new. */
  lemma {:induction false} AddTransactionExactly(h: Hashes, t: Tables, tx: Transaction, hash: Hash)
    requires Dense(t)
    ensures AddTransaction(h, t, tx, hash).Done? <==>
            Storable(tx) && Images(tx.vin) !! t.spent && hash !in t.txs.indices
    ensures AddTransaction(h, t, tx, hash).Done? ==>
              var t' := AddTransaction(h, t, tx, hash).value;
              && Dense(t') && t'.spent == t.spent + Images(tx.vin) && t'.txs.indices.Keys == t.txs.indices.Keys + {hash}
  {
    var height := |t.chain|;
    SpendExactly(t.spent, tx.vin);
    AddDataExactly(h, t.txs, tx, hash, height);
    if tx.version == 1 || tx.version == 2 { AddOutputsExactly(h, t.outs, tx, hash, height); }
    if Spend(t.spent, tx.vin).Done? {
      SpendAdds(t.spent, tx.vin);
      if AddTransactionData(h, t.txs, tx, hash, height).Done? && AddOutputs(h, t.outs, tx, hash, height).Done? {
        AddDataKeepsDense(h, t.txs, tx, hash, height, AddTransactionData(h, t.txs, tx, hash, height).value,
                          AddOutputs(h, t.outs, tx, hash, height).value.1);
      }
    }
  }

  // ----- the transactions of a block

  /** The first `n` transactions are storable, with images and hashes that are new and not used twice. */
  ghost predicate Fit(spent: set<KeyImage>, known: set<Hash>, txs: seq<Transaction>, hashes: seq<Hash>, n: nat)
    requires n <= |txs| == |hashes|
  {
    && (forall i :: 0 <= i < n ==> Storable(txs[i]) && Images(txs[i].vin) !! spent && hashes[i] !in known)
    && (forall i, j :: 0 <= i < j < n ==> Images(txs[i].vin) !! Images(txs[j].vin) && hashes[i] != hashes[j])
  }

  function SpentAfter(spent: set<KeyImage>, txs: seq<Transaction>, n: nat): set<KeyImage>
    requires n <= |txs|
  {
    if n == 0 then spent else SpentAfter(spent, txs, n - 1) + Images(txs[n - 1].vin)
  }

  function KnownAfter(known: set<Hash>, hashes: seq<Hash>, n: nat): set<Hash>
    requires n <= |hashes|
  {
    if n == 0 then known else KnownAfter(known, hashes, n - 1) + {hashes[n - 1]}
  }

  lemma {:induction false} NewImages(spent: set<KeyImage>, txs: seq<Transaction>, n: nat, images: set<KeyImage>)
    requires n <= |txs|
    ensures images !! SpentAfter(spent, txs, n) <==>
            images !! spent && forall i :: 0 <= i < n ==> Images(txs[i].vin) !! images
  {
    if n > 0 { NewImages(spent, txs, n - 1, images); }
  }

  lemma {:induction false} NewHash(known: set<Hash>, hashes: seq<Hash>, n: nat, hash: Hash)
    requires n <= |hashes|
    ensures hash !in KnownAfter(known, hashes, n) <==> hash !in known && forall i :: 0 <= i < n ==> hashes[i] != hash
  {
    if n > 0 { NewHash(known, hashes, n - 1, hash); }
  }

  lemma {:induction false} FitOneMore(spent: set<KeyImage>, known: set<Hash>, txs: seq<Transaction>, hashes: seq<Hash>,
                                      n: nat)
    requires n < |txs| == |hashes|
    ensures Fit(spent, known, txs, hashes, n + 1) <==>
            && Fit(spent, known, txs, hashes, n) && Storable(txs[n])
            && Images(txs[n].vin) !! SpentAfter(spent, txs, n) && hashes[n] !in KnownAfter(known, hashes, n)
  {
    NewImages(spent, txs, n, Images(txs[n].vin));
    NewHash(known, hashes, n, hashes[n]);
  }

  /** On dense tables, which it keeps so, a transaction is added exactly if it is storable and new. */
  ghost predicate AddsExactly(add: (Tables, Transaction, Hash) -> Outcome<Tables>, dense: Tables -> bool)
  {
    forall s, tx, hash :: dense(s) ==>
      && (add(s, tx, hash).Done? <==> Storable(tx) && Images(tx.vin) !! s.spent && hash !in s.txs.indices)
      && (add(s, tx, hash).Done? ==>
            var s' := add(s, tx, hash).value;
            && dense(s') && s'.spent == s.spent + Images(tx.vin)
            && s'.txs.indices.Keys == s.txs.indices.Keys + {hash})
  }

  ghost predicate AddsEach(step: (Tables, nat) -> Outcome<Tables>, add: (Tables, Transaction, Hash) -> Outcome<Tables>,
                           txs: seq<Transaction>, hashes: seq<Hash>)
    requires |txs| == |hashes|
  {
    forall s: Tables, i: nat :: i < |txs| ==> step(s, i) == add(s, txs[i], hashes[i])
  }

  lemma {:induction false} AddAllExactly(add: (Tables, Transaction, Hash) -> Outcome<Tables>, dense: Tables -> bool,
                                         step: (Tables, nat) -> Outcome<Tables>, t: Tables, txs: seq<Transaction>,
                                         hashes: seq<Hash>, n: nat)
    requires AddsExactly(add, dense) && n <= |txs| == |hashes| && AddsEach(step, add, txs, hashes) && dense(t)
    ensures var r := Forward(step, t, n);
            && (r.Done? <==> Fit(t.spent, t.txs.indices.Keys, txs, hashes, n))
            && (r.Done? ==> && dense(r.value) && r.value.spent == SpentAfter(t.spent, txs, n)
                            && r.value.txs.indices.Keys == KnownAfter(t.txs.indices.Keys, hashes, n))
  {
    if n > 0 {
      AddAllExactly(add, dense, step, t, txs, hashes, n - 1);
      FitOneMore(t.spent, t.txs.indices.Keys, txs, hashes, n - 1);
      var before := Forward(step, t, n - 1);
      if before.Done? { assert step(before.value, n - 1) == add(before.value, txs[n - 1], hashes[n - 1]); }
    }
  }

  ghost function Adding(h: Hashes): (Tables, Transaction, Hash) -> Outcome<Tables>
  {
    (t: Tables, tx: Transaction, hash: Hash) => AddTransaction(h, t, tx, hash)
  }

  ghost function IsDense(): Tables -> bool
  {
    (t: Tables) => Dense(t)
  }

  lemma {:induction false} TransactionsAddedExactly(h: Hashes)
    ensures AddsExactly(Adding(h), IsDense())
  {
    forall s: Tables, tx: Transaction, hash: Hash | Dense(s)
      ensures AddTransaction(h, s, tx, hash).Done? <==>
              Storable(tx) && Images(tx.vin) !! s.spent && hash !in s.txs.indices
      ensures AddTransaction(h, s, tx, hash).Done? ==>
                var s' := AddTransaction(h, s, tx, hash).value;
                && Dense(s') && s'.spent == s.spent + Images(tx.vin)
                && s'.txs.indices.Keys == s.txs.indices.Keys + {hash}
    {
      AddTransactionExactly(h, s, tx, hash);
    }
  }

  function HashesOf(h: Hashes, a: Addition): seq<Hash>
  {
    [h.tx(a.blk.minerTx)] + a.blk.txHashes
  }

  lemma {:induction false} FillIsForward(h: Hashes, t: Tables, a: Addition)
    requires |a.blk.txHashes| == |a.txs|
    ensures FillTransactions(h, t, a) == Forward(AddStep(h, TransactionsOf(a), HashesOf(h, a)), t, |a.txs| + 1)
  {
    var step, rest := AddStep(h, TransactionsOf(a), HashesOf(h, a)), AddStep(h, a.txs, a.blk.txHashes);
    forall s: Tables, i: nat | i < |a.txs|
      ensures rest(s, i) == step(s, i + 1)
    {
      assert TransactionsOf(a)[i + 1] == a.txs[i] && HashesOf(h, a)[i + 1] == a.blk.txHashes[i];
    }
    ForwardCons(step, rest, t, |a.txs|);
  }

  // ----- blocks

  /** What the caller of `add_block` has to see to. */
  ghost predicate Acceptable(h: Hashes, t: Tables, a: Addition)
  {
    && |a.blk.txHashes| == |a.txs|
    && (a.commitment.Some? ==>
          var c := a.commitment.value;
          c.schemaVersion == 1 && c.blockHash == h.block(a.blk) && c.stateHash != 0 && c.parameterSetHash != 0)
    && Fit(t.spent, t.txs.indices.Keys, TransactionsOf(a), HashesOf(h, a), |a.txs| + 1)
    && h.block(a.blk) !in t.heights
    && (|t.chain| > 0 ==> a.blk.prevId == t.chain[|t.chain| - 1].hash)
  }

  lemma {:induction false} FinishExactly(h: Hashes, t: Tables, a: Addition)
    requires Linked(h, t) && CommitmentsMatch(h, t)
    ensures FinishBlock(t, a, h.block(a.blk)).Done? <==>
            h.block(a.blk) !in t.heights && (|t.chain| > 0 ==> a.blk.prevId == t.chain[|t.chain| - 1].hash)
  {
  }

  lemma {:induction false} FillExactly(h: Hashes, t: Tables, a: Addition)
    requires Dense(t) && |a.blk.txHashes| == |a.txs|
    ensures FillTransactions(h, t, a).Done? <==>
            Fit(t.spent, t.txs.indices.Keys, TransactionsOf(a), HashesOf(h, a), |a.txs| + 1)
    ensures FillTransactions(h, t, a).Done? ==> Dense(FillTransactions(h, t, a).value)
  {
    FillIsForward(h, t, a);
    TransactionsAddedExactly(h);
    AddAllExactly(Adding(h), IsDense(), AddStep(h, TransactionsOf(a), HashesOf(h, a)), t, TransactionsOf(a),
                  HashesOf(h, a), |a.txs| + 1);
  }

  /** Where there are no gaps, a block is added if and only if it is acceptable, and leaves no gaps. */
  lemma {:induction false} AddBlockExactly(h: Hashes, t: Tables, a: Addition)
    requires Dense(t) && Linked(h, t) && CommitmentsMatch(h, t)
    ensures AddBlock(h, t, a).Done? <==> Acceptable(h, t, a)
    ensures AddBlock(h, t, a).Done? ==> Dense(AddBlock(h, t, a).value)
  {
    if |a.blk.txHashes| == |a.txs| {
      FillExactly(h, t, a);
      if FillTransactions(h, t, a).Done? {
        var filled := FillTransactions(h, t, a).value;
        FillFrame(h, t, a, filled);
        FinishExactly(h, filled, a);
      }
    }
  }

  // ----- over every run

  lemma {:induction false} ReplayDense(h: Hashes, blocks: seq<Addition>, t: Tables)
    requires Replay(h, blocks) == Done(t)
    ensures Dense(t) && Linked(h, t) && CommitmentsMatch(h, t)
  {
    if blocks == [] {
      assert Dense(EMPTY);
    } else {
      var a, before := blocks[|blocks| - 1], Replay(h, blocks[..|blocks| - 1]).value;
      ReplayDense(h, blocks[..|blocks| - 1], before);
      AddBlockExactly(h, before, a);
      AddKeepsLinks(h, before, a, t);
      AddKeepsCommitments(h, before, a, t);
    }
  }

  /** After every run where the pops that succeed take undoable blocks there are no gaps, and the next block is added
      if and only if it is acceptable. */
  lemma {:induction false} AddedExactly(h: Hashes, ops: seq<Op>, a: Addition)
    requires TakesUndoable(h, ops)
    ensures Dense(Run(h, ops))
    ensures AddBlock(h, Run(h, ops), a).Done? <==> Acceptable(h, Run(h, ops), a)
  {
    RunIsReplay(h, ops);
    ReplayDense(h, Surviving(h, ops), Run(h, ops));
    AddBlockExactly(h, Run(h, ops), a);
  }
}
