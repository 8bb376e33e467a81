/** What the tables hold of the blocks that were added and their transactions. */
module ChainRecords {
  import opened Wrappers
  import opened ChainTables
  import opened Histories
  import opened Rollback
  import opened ChainSpec
  import opened BlockInverse
  import opened ChainRuns
  import opened ChainRestore
  import opened ChainReplay
  import opened ChainSafety
  import opened ChainAdmission

  // ----- blocks and commitments

  /** There is a row for each block, and its commitment is there exactly if it has one. */
  ghost predicate HoldsBlocks(h: Hashes, t: Tables, blocks: seq<Addition>)
  {
    && |t.chain| == |blocks|
    && (forall k :: 0 <= k < |blocks| ==> t.chain[k].blk == blocks[k].blk && t.chain[k].hash == h.block(blocks[k].blk))
    && (forall k: nat :: k in t.commitments <==> k < |blocks| && blocks[k].commitment.Some?)
    && (forall k: nat :: k in t.commitments && k < |blocks| && blocks[k].commitment.Some? ==>
          t.commitments[k] == blocks[k].commitment.value)
  }

  lemma {:induction false} FinishHolds(h: Hashes, t: Tables, a: Addition, t': Tables, blocks: seq<Addition>)
    requires HoldsBlocks(h, t, blocks) && FinishBlock(t, a, h.block(a.blk)) == Done(t')
    ensures HoldsBlocks(h, t', blocks + [a])
  {
  }

  lemma {:induction false} AddHolds(h: Hashes, t: Tables, a: Addition, t': Tables, blocks: seq<Addition>)
    requires HoldsBlocks(h, t, blocks) && AddBlock(h, t, a) == Done(t')
    ensures HoldsBlocks(h, t', blocks + [a])
  {
    var filled := FillTransactions(h, t, a).value;
    FillFrame(h, t, a, filled);
    FinishHolds(h, filled, a, t', blocks);
  }

  ghost function Holding(h: Hashes): (Tables, seq<Addition>) -> bool
  {
    (t: Tables, blocks: seq<Addition>) => HoldsBlocks(h, t, blocks)
  }

  lemma {:induction false} HoldingCarries(h: Hashes)
    ensures Carries(Holding(h), AddTo(h), Matching(h), Rest)
  {
    var add := AddTo(h);
    forall t: Tables, a: Addition, blocks: seq<Addition> | HoldsBlocks(h, Rest(t), blocks) && add(t, a).Done?
      ensures HoldsBlocks(h, Rest(add(t, a).value), blocks + [a])
    {
      AddHolds(h, t, a, add(t, a).value, blocks);
    }
  }

  lemma {:induction false} LeftByHolds(h: Hashes, t: Tables, blocks: seq<Addition>, befores: seq<Tables>)
    requires LeftBy(h, t, blocks, befores)
    ensures HoldsBlocks(h, t, blocks)
  {
    HoldingCarries(h);
    assert HoldsBlocks(h, Rest(EMPTY), []);
    TrackedHas(Holding(h), AddTo(h), Matching(h), Rest, EMPTY, t, blocks, befores);
  }

  /** Over every run, of any blocks whatever, the rows are those of the surviving blocks in order, and the commitments
      are exactly theirs. */
  lemma {:induction false} SurvivorsHeld(h: Hashes, ops: seq<Op>)
    ensures HoldsBlocks(h, Run(h, ops), Surviving(h, ops))
  {
    RunLeftBy(h, ops);
    LeftByHolds(h, Run(h, ops), Surviving(h, ops), Befores(h, ops));
  }

  // ----- outputs

  /** No row is lost or changed. */
  ghost predicate Within<K(!new), V>(m: map<K, V>, m': map<K, V>)
  {
    forall k :: k in m ==> k in m' && m'[k] == m[k]
  }

  ghost predicate OutputsWithin(o: Outputs, o': Outputs)
  {
    Within(o.txs, o'.txs) && Within(o.amounts, o'.amounts)
  }

  /** Whether the outputs of the transaction are kept under amount 0 with a commitment to their amounts. */
  predicate IsRctCoinbase(tx: Transaction)
  {
    tx.version == 2 && exists i :: 0 <= i < |tx.vin| && tx.vin[i].Gen?
  }

  /** The row of output `i` with index `k` within its amount. */
  ghost predicate OutputRecorded(h: Hashes, o: Outputs, tx: Transaction, hash: Hash, height: nat, i: nat, k: nat)
  {
    i < |tx.vout| &&
    var out := tx.vout[i];
    var amount := if IsRctCoinbase(tx) then 0 else out.amount;
    (amount, k) in o.amounts &&
    var row := o.amounts[(amount, k)];
    && out.key == Some(row.key) && row.unlockTime == tx.unlockTime && row.height == height
    && row.commitment == (if amount != 0 then None else if IsRctCoinbase(tx) then Some(h.zeroCommit(out.amount))
                          else Some(out.mask))
    && row.outputId in o.txs && o.txs[row.outputId] == OutTx(hash, i)
  }

  lemma {:induction false} AddOutputKeeps(o: Outputs, out: NewOutput, hash: Hash, i: nat, unlockTime: nat, height: nat,
                                          r: (Outputs, nat))
    requires AddOutput(o, out, hash, i, unlockTime, height) == Done(r)
    ensures OutputsWithin(o, r.0)
  {
    IndexIn(o, out.amount, r.1);
  }

  lemma {:induction false} AddOutputRecords(h: Hashes, o: Outputs, tx: Transaction, hash: Hash, height: nat, i: nat,
                                            r: (Outputs, nat))
    requires i < |tx.vout| && AddOutput(o, NewOutputOf(h, tx, i), hash, i, tx.unlockTime, height) == Done(r)
    ensures OutputRecorded(h, r.0, tx, hash, height, i, r.1)
  {
    assert IsRctCoinbase(tx) == StoredAsRct(tx);
  }

  ghost function OutputsLe(): (Outputs, Outputs) -> bool
  {
    (o: Outputs, o': Outputs) => OutputsWithin(o, o')
  }

  ghost function OutputRecords(h: Hashes, tx: Transaction, hash: Hash, height: nat): (Outputs, nat, nat) -> bool
  {
    (o: Outputs, i: nat, k: nat) => OutputRecorded(h, o, tx, hash, height, i, k)
  }

  lemma {:induction false} OutputsKept(h: Hashes, tx: Transaction, hash: Hash, height: nat)
    ensures KeepsRecords(OutputsLe(), OutputRecords(h, tx, hash, height))
  {
  }

  lemma {:induction false} OutputStepsRecord(h: Hashes, tx: Transaction, hash: Hash, height: nat,
                                             step: (Outputs, nat) -> Outcome<(Outputs, nat)>,
                                             le: (Outputs, Outputs) -> bool, rec: (Outputs, nat, nat) -> bool)
    requires step == OutputStep(h, tx, hash, height) && le == OutputsLe() && rec == OutputRecords(h, tx, hash, height)
    ensures forall o: Outputs, i: nat :: i < |tx.vout| && step(o, i).Done? ==>
              le(o, step(o, i).value.0) && rec(step(o, i).value.0, i, step(o, i).value.1)
  {
    forall o: Outputs, i: nat | i < |tx.vout| && step(o, i).Done?
      ensures le(o, step(o, i).value.0) && rec(step(o, i).value.0, i, step(o, i).value.1)
    {
      AddOutputKeeps(o, NewOutputOf(h, tx, i), hash, i, tx.unlockTime, height, step(o, i).value);
      AddOutputRecords(h, o, tx, hash, height, i, step(o, i).value);
    }
  }

  lemma {:induction false} AddOutputsRecords(h: Hashes, o: Outputs, tx: Transaction, hash: Hash, height: nat,
                                             r: (Outputs, seq<nat>))
    requires AddOutputs(h, o, tx, hash, height) == Done(r)
    ensures |r.1| == |tx.vout| && OutputsWithin(o, r.0)
    ensures forall i :: 0 <= i < |tx.vout| ==> OutputRecorded(h, r.0, tx, hash, height, i, r.1[i])
  {
    var step, le, rec := OutputStep(h, tx, hash, height), OutputsLe(), OutputRecords(h, tx, hash, height);
    OutputsKept(h, tx, hash, height);
    OutputStepsRecord(h, tx, hash, height, step, le, rec);
    LoggedRecords(step, le, rec, o, |tx.vout|);
    assert forall i :: 0 <= i < |tx.vout| ==> rec(r.0, i, r.1[i]);
  }

  // ----- transactions

  ghost predicate TransactionsWithin(t: Transactions, t': Transactions)
  {
    && Within(t.indices, t'.indices) && Within(t.blobs, t'.blobs)
    && Within(t.prunable, t'.prunable) && Within(t.outputs, t'.outputs)
  }

  ghost predicate RowsWithin(t: Tables, t': Tables)
  {
    TransactionsWithin(t.txs, t'.txs) && OutputsWithin(t.outs, t'.outs)
  }

  /** The rows of a transaction, other than those of its outputs. */
  ghost predicate DataRecorded(h: Hashes, t: Transactions, tx: Transaction, hash: Hash, height: nat)
  {
    hash in t.indices &&
    var index := t.indices[hash];
    && index.unlockTime == tx.unlockTime && index.height == height
    && index.txId in t.blobs && t.blobs[index.txId] == tx
    && (tx.version == 2 ==> index.txId in t.prunable && t.prunable[index.txId] == h.prunable(tx))
    && index.txId in t.outputs && |t.outputs[index.txId]| == |tx.vout|
  }

  /** All rows of a transaction that was added at a height. */
  ghost predicate Recorded(h: Hashes, t: Tables, tx: Transaction, hash: Hash, height: nat)
  {
    && DataRecorded(h, t.txs, tx, hash, height)
    && var indices := t.txs.outputs[t.txs.indices[hash].txId];
       forall i :: 0 <= i < |tx.vout| ==> OutputRecorded(h, t.outs, tx, hash, height, i, indices[i])
  }

  lemma {:induction false} AddDataRecords(h: Hashes, t: Transactions, tx: Transaction, hash: Hash, height: nat,
                                          indices: seq<nat>, t1: Transactions, t': Transactions)
    requires AddTransactionData(h, t, tx, hash, height) == Done(t1) && AddIndices(t1, |t.blobs|, indices) == Done(t')
    requires |indices| == |tx.vout|
    ensures DataRecorded(h, t', tx, hash, height) && TransactionsWithin(t, t')
    ensures t'.outputs[t'.indices[hash].txId] == indices
  {
  }

  /** A transaction that is added is recorded with all its outputs, and no earlier row is lost or changed. */
  lemma {:induction false} AddTransactionRecords(h: Hashes, t: Tables, tx: Transaction, hash: Hash, t': Tables)
    requires AddTransaction(h, t, tx, hash) == Done(t')
    ensures Recorded(h, t', tx, hash, |t.chain|) && RowsWithin(t, t')
  {
    var added := AddOutputs(h, t.outs, tx, hash, |t.chain|).value;
    AddOutputsRecords(h, t.outs, tx, hash, |t.chain|, added);
    AddDataRecords(h, t.txs, tx, hash, |t.chain|, added.1, AddTransactionData(h, t.txs, tx, hash, |t.chain|).value,
                   t'.txs);
  }

  lemma {:induction false} StaysRecorded(h: Hashes, t: Tables, t': Tables, tx: Transaction, hash: Hash, height: nat)
    requires Recorded(h, t, tx, hash, height) && RowsWithin(t, t')
    ensures Recorded(h, t', tx, hash, height)
  {
    var indices := t.txs.outputs[t.txs.indices[hash].txId];
    forall i | 0 <= i < |tx.vout|
      ensures OutputRecorded(h, t'.outs, tx, hash, height, i, indices[i])
    {
      assert OutputRecorded(h, t.outs, tx, hash, height, i, indices[i]);
    }
  }

  // ----- sequences of transactions, whatever is recorded of them

  /** `le` says that no row is lost from one state to another, so that what is recorded stays recorded. */
  ghost predicate Keeps(le: (Tables, Tables) -> bool, rec: (Tables, Transaction, Hash, nat) -> bool)
  {
    && (forall s :: le(s, s))
    && (forall s, s', s'' :: le(s, s') && le(s', s'') ==> le(s, s''))
    && (forall s, s', tx, hash, height :: rec(s, tx, hash, height) && le(s, s') ==> rec(s', tx, hash, height))
  }

  ghost predicate AddsRecorded(add: (Tables, Transaction, Hash) -> Outcome<Tables>, le: (Tables, Tables) -> bool,
                               rec: (Tables, Transaction, Hash, nat) -> bool)
  {
    forall s, tx, hash :: add(s, tx, hash).Done? ==>
      var s' := add(s, tx, hash).value;
      le(s, s') && rec(s', tx, hash, |s.chain|) && s'.chain == s.chain
  }

  lemma {:induction false} AddAllRecords(add: (Tables, Transaction, Hash) -> Outcome<Tables>,
                                         le: (Tables, Tables) -> bool,
                                         rec: (Tables, Transaction, Hash, nat) -> bool,
                                         step: (Tables, nat) -> Outcome<Tables>, t: Tables, txs: seq<Transaction>,
                                         hashes: seq<Hash>, n: nat)
    requires n <= |txs| == |hashes| && AddsEach(step, add, txs, hashes)
    requires Keeps(le, rec) && AddsRecorded(add, le, rec) && Forward(step, t, n).Done?
    ensures var t' := Forward(step, t, n).value;
            && le(t, t') && t'.chain == t.chain
            && forall i :: 0 <= i < n ==> rec(t', txs[i], hashes[i], |t.chain|)
  {
    if n > 0 {
      AddAllRecords(add, le, rec, step, t, txs, hashes, n - 1);
      var before := Forward(step, t, n - 1).value;
      assert step(before, n - 1) == add(before, txs[n - 1], hashes[n - 1]);
    }
  }

  ghost function RowsLe(): (Tables, Tables) -> bool
  {
    (t: Tables, t': Tables) => RowsWithin(t, t')
  }

  ghost function Records(h: Hashes): (Tables, Transaction, Hash, nat) -> bool
  {
    (t: Tables, tx: Transaction, hash: Hash, height: nat) => Recorded(h, t, tx, hash, height)
  }

  lemma {:induction false} RowsWithinTwice(t: Tables, t': Tables, t'': Tables)
    requires RowsWithin(t, t') && RowsWithin(t', t'')
    ensures RowsWithin(t, t'')
  {
  }

  lemma {:induction false} RowsKept(h: Hashes, le: (Tables, Tables) -> bool,
                                    rec: (Tables, Transaction, Hash, nat) -> bool)
    requires le == RowsLe() && rec == Records(h)
    ensures Keeps(le, rec)
  {
    forall t: Tables, t': Tables, t'': Tables | le(t, t') && le(t', t'')
      ensures le(t, t'')
    {
      RowsWithinTwice(t, t', t'');
    }
    forall t: Tables, t': Tables, tx: Transaction, hash: Hash, height: nat | rec(t, tx, hash, height) && le(t, t')
      ensures rec(t', tx, hash, height)
    {
      StaysRecorded(h, t, t', tx, hash, height);
    }
  }

  lemma {:induction false} TransactionsRecorded(h: Hashes)
    ensures AddsRecorded(Adding(h), RowsLe(), Records(h))
  {
    var add := Adding(h);
    forall t: Tables, tx: Transaction, hash: Hash | add(t, tx, hash).Done?
      ensures var t' := add(t, tx, hash).value;
              RowsWithin(t, t') && Recorded(h, t', tx, hash, |t.chain|) && t'.chain == t.chain
    {
      AddTransactionRecords(h, t, tx, hash, add(t, tx, hash).value);
      AddTransactionFrame(h, t, tx, hash, add(t, tx, hash).value);
    }
  }

  // ----- blocks

  /** All transactions of the block are recorded. */
  ghost predicate BlockRecorded(rec: (Tables, Transaction, Hash, nat) -> bool, h: Hashes, t: Tables, a: Addition,
                                height: nat)
  {
    |a.blk.txHashes| == |a.txs| &&
    forall i :: 0 <= i <= |a.txs| ==> rec(t, TransactionsOf(a)[i], HashesOf(h, a)[i], height)
  }

  lemma {:induction false} FillRecords(h: Hashes, t: Tables, a: Addition, t': Tables)
    requires |a.blk.txHashes| == |a.txs| && FillTransactions(h, t, a) == Done(t')
    ensures BlockRecorded(Records(h), h, t', a, |t.chain|) && RowsLe()(t, t')
  {
    var txs, hashes := TransactionsOf(a), HashesOf(h, a);
    FillIsForward(h, t, a);
    RowsKept(h, RowsLe(), Records(h));
    TransactionsRecorded(h);
    AddAllRecords(Adding(h), RowsLe(), Records(h), AddStep(h, txs, hashes), t, txs, hashes, |a.txs| + 1);
  }

  lemma {:induction false} FinishKeepsRows(t: Tables, a: Addition, hash: Hash, t': Tables)
    requires FinishBlock(t, a, hash) == Done(t')
    ensures RowsLe()(t, t') && |t'.chain| == |t.chain| + 1
  {
  }

  lemma {:induction false} BlockStays(le: (Tables, Tables) -> bool, rec: (Tables, Transaction, Hash, nat) -> bool,
                                      h: Hashes, t: Tables, t': Tables, a: Addition, height: nat)
    requires Keeps(le, rec) && BlockRecorded(rec, h, t, a, height) && le(t, t')
    ensures BlockRecorded(rec, h, t', a, height)
  {
    forall i | 0 <= i <= |a.txs|
      ensures rec(t', TransactionsOf(a)[i], HashesOf(h, a)[i], height)
    {
      assert rec(t, TransactionsOf(a)[i], HashesOf(h, a)[i], height);
    }
  }

  /** A block that is added is recorded, and no earlier row is lost or changed. */
  lemma {:induction false} AddBlockRecords(h: Hashes, t: Tables, a: Addition, t': Tables)
    requires AddBlock(h, t, a) == Done(t')
    ensures BlockRecorded(Records(h), h, t', a, |t.chain|) && RowsLe()(t, t') && |t'.chain| == |t.chain| + 1
  {
    var filled := FillTransactions(h, t, a).value;
    FillRecords(h, t, a, filled);
    FillFrame(h, t, a, filled);
    FinishKeepsRows(filled, a, h.block(a.blk), t');
    RowsKept(h, RowsLe(), Records(h));
    BlockStays(RowsLe(), Records(h), h, filled, t', a, |t.chain|);
  }

  // ----- over runs

  /** Every block is recorded at its height. */
  ghost predicate AllRecorded(rec: (Tables, Transaction, Hash, nat) -> bool, h: Hashes, t: Tables,
                              blocks: seq<Addition>)
  {
    |t.chain| == |blocks| && forall k :: 0 <= k < |blocks| ==> BlockRecorded(rec, h, t, blocks[k], k)
  }

  lemma {:induction false} OneMoreRecorded(le: (Tables, Tables) -> bool, rec: (Tables, Transaction, Hash, nat) -> bool,
                                           h: Hashes, t: Tables, t': Tables, blocks: seq<Addition>, a: Addition)
    requires Keeps(le, rec) && le(t, t') && AllRecorded(rec, h, t, blocks)
    requires BlockRecorded(rec, h, t', a, |t.chain|) && |t'.chain| == |t.chain| + 1
    ensures AllRecorded(rec, h, t', blocks + [a])
  {
    forall k | 0 <= k < |blocks|
      ensures BlockRecorded(rec, h, t', blocks[k], k)
    {
      BlockStays(le, rec, h, t, t', blocks[k], k);
    }
  }

  lemma {:induction false} ReplayRecords(h: Hashes, blocks: seq<Addition>, t: Tables)
    requires Replay(h, blocks) == Done(t)
    ensures AllRecorded(Records(h), h, t, blocks)
  {
    if blocks != [] {
      var n := |blocks| - 1;
      var before := Replay(h, blocks[..n]).value;
      ReplayRecords(h, blocks[..n], before);
      AddBlockRecords(h, before, blocks[n], t);
      RowsKept(h, RowsLe(), Records(h));
      OneMoreRecorded(RowsLe(), Records(h), h, before, t, blocks[..n], blocks[n]);
      assert blocks == blocks[..n] + [blocks[n]];
    }
  }

  /** After every run where the pops that succeed take undoable blocks, every transaction of the surviving blocks is
      recorded with all its outputs, at the height of its block. */
  lemma {:induction false} SurvivorsRecorded(h: Hashes, ops: seq<Op>, k: nat, i: nat)
    requires TakesUndoable(h, ops) && k < |Surviving(h, ops)| && i <= |Surviving(h, ops)[k].txs|
    ensures var a := Surviving(h, ops)[k];
            |a.blk.txHashes| == |a.txs| && Recorded(h, Run(h, ops), TransactionsOf(a)[i], HashesOf(h, a)[i], k)
  {
    RunIsReplay(h, ops);
    ReplayRecords(h, Surviving(h, ops), Run(h, ops));
    assert BlockRecorded(Records(h), h, Run(h, ops), Surviving(h, ops)[k], k);
  }

  // ----- over runs of any blocks, all but the outputs

  ghost function DataRecords(h: Hashes): (Tables, Transaction, Hash, nat) -> bool
  {
    (t: Tables, tx: Transaction, hash: Hash, height: nat) => DataRecorded(h, t.txs, tx, hash, height)
  }

  ghost function DataHeld(h: Hashes): (Tables, seq<Addition>) -> bool
  {
    (t: Tables, blocks: seq<Addition>) => AllRecorded(DataRecords(h), h, t, blocks)
  }

  lemma {:induction false} DataKept(h: Hashes, le: (Tables, Tables) -> bool,
                                    rec: (Tables, Transaction, Hash, nat) -> bool)
    requires le == RowsLe() && rec == DataRecords(h)
    ensures Keeps(le, rec)
  {
    forall t: Tables, t': Tables, t'': Tables | le(t, t') && le(t', t'')
      ensures le(t, t'')
    {
      RowsWithinTwice(t, t', t'');
    }
  }

  lemma {:induction false} OnlyData(h: Hashes, t: Tables, a: Addition, height: nat)
    requires BlockRecorded(Records(h), h, t, a, height)
    ensures BlockRecorded(DataRecords(h), h, t, a, height)
  {
    forall i | 0 <= i <= |a.txs|
      ensures DataRecords(h)(t, TransactionsOf(a)[i], HashesOf(h, a)[i], height)
    {
      assert Records(h)(t, TransactionsOf(a)[i], HashesOf(h, a)[i], height);
    }
  }

  lemma {:induction false} DataIgnoresOutputs(h: Hashes, t: Tables, t': Tables, blocks: seq<Addition>)
    requires AllRecorded(DataRecords(h), h, t, blocks) && t'.txs == t.txs && t'.chain == t.chain
    ensures AllRecorded(DataRecords(h), h, t', blocks)
  {
    forall k, i | 0 <= k < |blocks| && 0 <= i <= |blocks[k].txs|
      ensures |blocks[k].blk.txHashes| == |blocks[k].txs|
      ensures DataRecords(h)(t', TransactionsOf(blocks[k])[i], HashesOf(h, blocks[k])[i], k)
    {
      assert BlockRecorded(DataRecords(h), h, t, blocks[k], k);
      assert DataRecords(h)(t, TransactionsOf(blocks[k])[i], HashesOf(h, blocks[k])[i], k);
    }
  }

  lemma {:induction false} AddDataHeld(h: Hashes, t: Tables, a: Addition, t': Tables, blocks: seq<Addition>)
    requires AllRecorded(DataRecords(h), h, Rest(t), blocks) && AddBlock(h, t, a) == Done(t')
    ensures AllRecorded(DataRecords(h), h, Rest(t'), blocks + [a])
  {
    AddBlockRecords(h, t, a, t');
    OnlyData(h, t', a, |t.chain|);
    DataKept(h, RowsLe(), DataRecords(h));
    DataIgnoresOutputs(h, Rest(t), t, blocks);
    OneMoreRecorded(RowsLe(), DataRecords(h), h, t, t', blocks, a);
    DataIgnoresOutputs(h, t', Rest(t'), blocks + [a]);
  }

  lemma {:induction false} DataCarries(h: Hashes)
    ensures Carries(DataHeld(h), AddTo(h), Matching(h), Rest)
  {
    var add := AddTo(h);
    forall t: Tables, a: Addition, blocks: seq<Addition> |
        AllRecorded(DataRecords(h), h, Rest(t), blocks) && add(t, a).Done?
      ensures AllRecorded(DataRecords(h), h, Rest(add(t, a).value), blocks + [a])
    {
      AddDataHeld(h, t, a, add(t, a).value, blocks);
    }
  }

  lemma {:induction false} LeftByData(h: Hashes, t: Tables, blocks: seq<Addition>, befores: seq<Tables>)
    requires LeftBy(h, t, blocks, befores)
    ensures AllRecorded(DataRecords(h), h, Rest(t), blocks)
  {
    DataCarries(h);
    TrackedHas(DataHeld(h), AddTo(h), Matching(h), Rest, EMPTY, t, blocks, befores);
  }

  /** After every run, of any blocks whatever, every transaction of the surviving blocks is recorded, at the height of
      its block, but for its outputs. */
  lemma {:induction false} SurvivorsDataRecorded(h: Hashes, ops: seq<Op>, k: nat, i: nat)
    requires k < |Surviving(h, ops)| && i <= |Surviving(h, ops)[k].txs|
    ensures var a := Surviving(h, ops)[k];
            && |a.blk.txHashes| == |a.txs|
            && DataRecorded(h, Run(h, ops).txs, TransactionsOf(a)[i], HashesOf(h, a)[i], k)
  {
    RunLeftBy(h, ops);
    LeftByData(h, Run(h, ops), Surviving(h, ops), Befores(h, ops));
    assert BlockRecorded(DataRecords(h), h, Rest(Run(h, ops)), Surviving(h, ops)[k], k);
  }
}
