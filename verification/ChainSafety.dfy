/** Over every run the stored blocks form a chain, and no key image is spent twice. */
module ChainSafety {
  import opened ChainTables
  import opened Histories
  import opened Rollback
  import opened ChainSpec
  import opened ChainInverse
  import opened BlockInverse
  import opened ChainRuns
  import opened ChainRestore

  // ----- the chain

  /** Rows are kept under their block hashes, heights and rows index each other, and every block but
      the first names the one before it. */
  ghost predicate LinkedRows(h: Hashes, chain: seq<BlockRow>, heights: map<Hash, nat>)
  {
    && (forall k :: 0 <= k < |chain| ==>
          chain[k].hash == h.block(chain[k].blk) && chain[k].hash in heights && heights[chain[k].hash] == k)
    && (forall x :: x in heights ==> heights[x] < |chain| && chain[heights[x]].hash == x)
    && (forall k :: 0 < k < |chain| ==> chain[k].blk.prevId == chain[k - 1].hash)
  }

  ghost predicate Linked(h: Hashes, t: Tables)
  {
    LinkedRows(h, t.chain, t.heights)
  }

  lemma {:induction false} LinkRow(h: Hashes, chain: seq<BlockRow>, heights: map<Hash, nat>, row: BlockRow)
    requires LinkedRows(h, chain, heights) && row.hash == h.block(row.blk) && row.hash !in heights
    requires |chain| > 0 ==> row.blk.prevId in heights && heights[row.blk.prevId] == |chain| - 1
    ensures LinkedRows(h, chain + [row], heights[row.hash := |chain|])
  {
  }

  lemma {:induction false} FinishKeepsLinks(h: Hashes, t: Tables, a: Addition, t': Tables)
    requires Linked(h, t) && FinishBlock(t, a, h.block(a.blk)) == Done(t')
    ensures Linked(h, t')
  {
    LinkRow(h, t.chain, t.heights, t'.chain[|t.chain|]);
  }

  lemma {:induction false} AddKeepsLinks(h: Hashes, t: Tables, a: Addition, t': Tables)
    requires Linked(h, t) && AddBlock(h, t, a) == Done(t')
    ensures Linked(h, t')
  {
    var filled := FillTransactions(h, t, a).value;
    FillFrame(h, t, a, filled);
    FinishKeepsLinks(h, filled, a, t');
  }

  lemma {:induction false} DropKeepsLinks(h: Hashes, t: Tables, t': Tables)
    requires Linked(h, t) && RemoveBlockRow(t) == Done(t')
    ensures Linked(h, t')
  {
  }

  lemma {:induction false} PopKeepsLinks(h: Hashes, t: Tables, p: Popped)
    requires Linked(h, t) && PopBlock(h, t) == Done(p)
    ensures Linked(h, p.tables)
  {
    var t1 := RemoveBlockRow(t).value;
    DropKeepsLinks(h, t, t1);
    PopFrame(h, t1.(commitments := t1.commitments - {|t.chain| - 1}), t.chain[|t.chain| - 1].blk, p);
  }

  /** Over every run, of any blocks whatever, the stored blocks are linked. */
  lemma {:induction false} AlwaysLinked(h: Hashes, ops: seq<Op>)
    ensures Linked(h, Run(h, ops))
  {
    if ops != [] {
      var before := Run(h, ops[..|ops| - 1]);
      AlwaysLinked(h, ops[..|ops| - 1]);
      match ops[|ops| - 1] {
        case Add(a) => if AddBlock(h, before, a).Done? { AddKeepsLinks(h, before, a, AddBlock(h, before, a).value); }
        case Pop => if PopBlock(h, before).Done? { PopKeepsLinks(h, before, PopBlock(h, before).value); }
      }
    }
  }

  // ----- spent keys

  function ImagesIn(txs: seq<Transaction>): set<KeyImage>
  {
    if txs == [] then {} else ImagesIn(txs[..|txs| - 1]) + Images(txs[|txs| - 1].vin)
  }

  /** No image is spent twice, within a transaction or by two of them. */
  ghost predicate NoDoubleSpend(txs: seq<Transaction>)
  {
    && (forall i :: 0 <= i < |txs| ==> DistinctImages(txs[i].vin))
    && (forall i, j :: 0 <= i < j < |txs| ==> Images(txs[i].vin) !! Images(txs[j].vin))
  }

  /** The spent keys are exactly the images of the transactions, and none is spent twice. */
  ghost predicate SpentBy(spent: set<KeyImage>, txs: seq<Transaction>)
  {
    spent == ImagesIn(txs) && NoDoubleSpend(txs)
  }

  lemma {:induction false} ImagesOfOne(txs: seq<Transaction>, i: nat)
    requires i < |txs|
    ensures Images(txs[i].vin) <= ImagesIn(txs)
  {
    if i < |txs| - 1 {
      ImagesOfOne(txs[..|txs| - 1], i);
    }
  }

  lemma {:induction false} SpendMore(spent: set<KeyImage>, txs: seq<Transaction>, tx: Transaction)
    requires SpentBy(spent, txs) && Images(tx.vin) !! spent && DistinctImages(tx.vin)
    ensures SpentBy(spent + Images(tx.vin), txs + [tx])
  {
    var all := txs + [tx];
    assert all[..|txs|] == txs;
    forall i, j | 0 <= i < j < |all|
      ensures Images(all[i].vin) !! Images(all[j].vin)
    {
      if j == |txs| { ImagesOfOne(txs, i); }
    }
  }

  /** A transaction that is added spends fresh images only. */
  lemma {:induction false} AddedSpends(h: Hashes, t: Tables, tx: Transaction, hash: Hash, t': Tables)
    requires AddTransaction(h, t, tx, hash) == Done(t')
    ensures t'.spent == t.spent + Images(tx.vin) && Images(tx.vin) !! t.spent && DistinctImages(tx.vin)
  {
    SpendAdds(t.spent, tx.vin);
  }

  lemma {:induction false} AddTransactionSpends(h: Hashes, t: Tables, tx: Transaction, hash: Hash,
                                                t': Tables, txs: seq<Transaction>, all: seq<Transaction>)
    requires SpentBy(t.spent, txs) && AddTransaction(h, t, tx, hash) == Done(t') && all == txs + [tx]
    ensures SpentBy(t'.spent, all)
  {
    AddedSpends(h, t, tx, hash, t');
    SpendMore(t.spent, txs, tx);
  }

  /** Exactly the earlier transactions and the first `i` of `txs` have spent. */
  ghost function SpentUpTo(before: seq<Transaction>, txs: seq<Transaction>): (Tables, nat) -> bool
  {
    (t: Tables, i: nat) => i <= |txs| && SpentBy(t.spent, before + txs[..i])
  }

  lemma {:induction false} StepSpends(h: Hashes, t: Tables, txs: seq<Transaction>, hashes: seq<Hash>,
                                      i: nat, t': Tables, before: seq<Transaction>)
    requires i < |txs| && SpentUpTo(before, txs)(t, i) && AddStep(h, txs, hashes)(t, i) == Done(t')
    ensures SpentUpTo(before, txs)(t', i + 1)
  {
    assert before + txs[..i + 1] == before + txs[..i] + [txs[i]];
    AddTransactionSpends(h, t, txs[i], hashes[i], t', before + txs[..i], before + txs[..i + 1]);
  }

  lemma {:induction false} StepsSpend(h: Hashes, txs: seq<Transaction>, hashes: seq<Hash>, before: seq<Transaction>,
                                      step: (Tables, nat) -> Outcome<Tables>, inv: (Tables, nat) -> bool)
    requires step == AddStep(h, txs, hashes) && inv == SpentUpTo(before, txs)
    ensures forall t: Tables, i: nat :: i < |txs| && inv(t, i) && step(t, i).Done? ==> inv(step(t, i).value, i + 1)
  {
    forall t: Tables, i: nat | i < |txs| && inv(t, i) && step(t, i).Done?
      ensures inv(step(t, i).value, i + 1)
    {
      StepSpends(h, t, txs, hashes, i, step(t, i).value, before);
    }
  }

  lemma {:induction false} AddTransactionsSpend(h: Hashes, t: Tables, txs: seq<Transaction>, hashes: seq<Hash>,
                                                t': Tables, before: seq<Transaction>, all: seq<Transaction>)
    requires SpentBy(t.spent, before) && Forward(AddStep(h, txs, hashes), t, |txs|) == Done(t') && all == before + txs
    ensures SpentBy(t'.spent, all)
  {
    var step, inv := AddStep(h, txs, hashes), SpentUpTo(before, txs);
    StepsSpend(h, txs, hashes, before, step, inv);
    assert inv(t, 0) by {
      assert before + txs[..0] == before;
    }
    ForwardKeepsInvariant(step, inv, t, |txs|);
    assert inv(t', |txs|);
    assert txs[..|txs|] == txs;
  }

  /** The transactions of a block in insertion order. */
  function TransactionsOf(a: Addition): seq<Transaction>
  {
    [a.blk.minerTx] + a.txs
  }

  function AllTransactions(blocks: seq<Addition>): seq<Transaction>
  {
    if blocks == [] then [] else AllTransactions(blocks[..|blocks| - 1]) + TransactionsOf(blocks[|blocks| - 1])
  }

  lemma {:induction false} FillSpends(h: Hashes, t: Tables, a: Addition, t': Tables, before: seq<Transaction>,
                                      all: seq<Transaction>)
    requires |a.blk.txHashes| == |a.txs| && SpentBy(t.spent, before) && FillTransactions(h, t, a) == Done(t')
    requires all == before + [a.blk.minerTx] + a.txs
    ensures SpentBy(t'.spent, all)
  {
    var miner, hash := a.blk.minerTx, h.tx(a.blk.minerTx);
    var t1 := AddTransaction(h, t, miner, hash).value;
    AddTransactionSpends(h, t, miner, hash, t1, before, before + [miner]);
    AddTransactionsSpend(h, t1, a.txs, a.blk.txHashes, t', before + [miner], all);
  }

  lemma {:induction false} AddBlockSpends(h: Hashes, t: Tables, a: Addition, t': Tables, before: seq<Transaction>)
    requires SpentBy(t.spent, before) && AddBlock(h, t, a) == Done(t')
    ensures SpentBy(t'.spent, before + TransactionsOf(a))
  {
    var filled := FillTransactions(h, t, a).value;
    assert before + [a.blk.minerTx] + a.txs == before + TransactionsOf(a);
    FillSpends(h, t, a, filled, before, before + TransactionsOf(a));
    assert t'.spent == filled.spent;
  }

  ghost function SpentByBlocks(): (Tables, seq<Addition>) -> bool
  {
    (t: Tables, blocks: seq<Addition>) => SpentBy(t.spent, AllTransactions(blocks))
  }

  lemma {:induction false} SpendingCarries(h: Hashes)
    ensures Carries(SpentByBlocks(), AddTo(h), Matching(h), Rest)
  {
    var add := AddTo(h);
    forall t: Tables, a: Addition, blocks: seq<Addition> | SpentBy(t.spent, AllTransactions(blocks)) && add(t, a).Done?
      ensures SpentBy(add(t, a).value.spent, AllTransactions(blocks + [a]))
    {
      AddBlockSpends(h, t, a, add(t, a).value, AllTransactions(blocks));
      assert (blocks + [a])[..|blocks|] == blocks;
    }
  }

  lemma {:induction false} LeftBySpends(h: Hashes, t: Tables, blocks: seq<Addition>, befores: seq<Tables>)
    requires LeftBy(h, t, blocks, befores)
    ensures SpentBy(t.spent, AllTransactions(blocks))
  {
    SpendingCarries(h);
    TrackedHas(SpentByBlocks(), AddTo(h), Matching(h), Rest, EMPTY, t, blocks, befores);
  }

  /** Over every run, of any blocks whatever, the spent keys are exactly the images of the transactions of the surviving
      blocks, and none of these is spent twice. */
  lemma {:induction false} SpentExactlyOnce(h: Hashes, ops: seq<Op>)
    ensures SpentBy(Run(h, ops).spent, AllTransactions(Surviving(h, ops)))
  {
    RunLeftBy(h, ops);
    LeftBySpends(h, Run(h, ops), Surviving(h, ops), Befores(h, ops));
  }
}
