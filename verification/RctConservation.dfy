/** The numbers of rct outputs handed to the stored blocks add up to the outputs held under amount 0. */
module RctConservation {
  import opened ChainTables
  import opened Histories
  import opened Rollback
  import opened ChainSpec
  import opened ChainInverse
  import opened BlockInverse
  import opened ChainRuns
  import opened ChainRestore
  import opened ChainReplay

  // ----- what was handed over

  /** The number handed over with the block at a height, from the cumulative counts stored. */
  function Handed(chain: seq<BlockRow>, k: nat): int
    requires k < |chain|
  {
    chain[k].cumRct - if chain[k].blk.majorVersion >= 4 && k > 0 then chain[k - 1].cumRct else 0
  }

  function SumHanded(chain: seq<BlockRow>, n: nat): int
    requires n <= |chain|
  {
    if n == 0 then 0 else SumHanded(chain, n - 1) + Handed(chain, n - 1)
  }

  lemma {:induction false} SumHandedPrefix(chain: seq<BlockRow>, row: BlockRow, n: nat)
    requires n <= |chain|
    ensures SumHanded(chain + [row], n) == SumHanded(chain, n)
  {
    if n > 0 { SumHandedPrefix(chain, row, n - 1); }
  }

  lemma {:induction false} AddHands(h: Hashes, t: Tables, a: Addition, t': Tables)
    requires AddBlock(h, t, a) == Done(t')
    ensures SumHanded(t'.chain, |t'.chain|) == SumHanded(t.chain, |t.chain|) + NumRctOuts(a)
  {
    var filled := FillTransactions(h, t, a).value;
    FillFrame(h, t, a, filled);
    FinishHands(filled, a, h.block(a.blk), t');
  }

  lemma {:induction false} FinishHands(t: Tables, a: Addition, hash: Hash, t': Tables)
    requires FinishBlock(t, a, hash) == Done(t')
    ensures SumHanded(t'.chain, |t'.chain|) == SumHanded(t.chain, |t.chain|) + NumRctOuts(a)
  {
    SumHandedPrefix(t.chain, t'.chain[|t.chain|], |t.chain|);
  }

  // ----- both agree

  /** Unless stored as a coinbase, the outputs under amount 0 are those that show amount 0. */
  lemma {:induction false} ShownZeros(tx: Transaction, n: nat)
    requires n <= |tx.vout| && !StoredAsRct(tx)
    ensures Sum(StoredZero(tx), n) == ZeroAmounts(tx.vout[..n])
  {
    if n > 0 {
      ShownZeros(tx, n - 1);
      assert tx.vout[..n][..n - 1] == tx.vout[..n - 1];
    }
  }

  lemma {:induction false} CoinbaseZeros(tx: Transaction, n: nat)
    requires n <= |tx.vout| && StoredAsRct(tx)
    ensures Sum(StoredZero(tx), n) == n
  {
    if n > 0 { CoinbaseZeros(tx, n - 1); }
  }

  lemma {:induction false} ZeroAmountsBound(vout: seq<Output>)
    ensures ZeroAmounts(vout) <= |vout|
    ensures ZeroAmounts(vout) == |vout| <==> forall i :: 0 <= i < |vout| ==> vout[i].amount == 0
    ensures ZeroAmounts(vout) == 0 <==> forall i :: 0 <= i < |vout| ==> vout[i].amount != 0
  {
    if vout != [] {
      var init := vout[..|vout| - 1];
      ZeroAmountsBound(init);
      assert forall i :: 0 <= i < |vout| - 1 ==> init[i] == vout[i];
    }
  }

  /** `add_block` counts the outputs of the miner transaction as they are stored. */
  predicate MinerCounted(tx: Transaction)
  {
    if tx.version == 2 then HasGen(tx.vin) || forall i :: 0 <= i < |tx.vout| ==> tx.vout[i].amount == 0
    else forall i :: 0 <= i < |tx.vout| ==> tx.vout[i].amount != 0
  }

  lemma {:induction false} MinerZeros(tx: Transaction)
    ensures StoredZeros(tx) == (if tx.version == 2 then |tx.vout| else 0) <==> MinerCounted(tx)
  {
    assert tx.vout[..|tx.vout|] == tx.vout;
    ZeroAmountsBound(tx.vout);
    if StoredAsRct(tx) {
      CoinbaseZeros(tx, |tx.vout|);
    } else {
      ShownZeros(tx, |tx.vout|);
    }
  }

  ghost predicate NoGen(txs: seq<Transaction>)
  {
    forall i :: 0 <= i < |txs| ==> !HasGen(txs[i].vin)
  }

  lemma {:induction false} OrdinaryZeros(txs: seq<Transaction>, n: nat)
    requires n <= |txs| && NoGen(txs)
    ensures Sum(StoredOf(txs), n) == ZeroAmountsIn(txs[..n])
  {
    if n > 0 {
      OrdinaryZeros(txs, n - 1);
      var tx := txs[n - 1];
      ShownZeros(tx, |tx.vout|);
      assert tx.vout[..|tx.vout|] == tx.vout && txs[..n][..n - 1] == txs[..n - 1];
    }
  }

  /** With ordinary transactions, the number handed over is the number stored if and only if the
      miner transaction is counted as it is stored. */
  lemma {:induction false} HandedIsStored(h: Hashes, t: Tables, a: Addition, t': Tables)
    requires AddBlock(h, t, a) == Done(t') && NoGen(a.txs)
    ensures RCT_OUTPUTS(t') == RCT_OUTPUTS(t) + NumRctOuts(a) <==> MinerCounted(a.blk.minerTx)
  {
    AddBlockCounts(h, t, a, t');
    CountedStored(a);
  }

  lemma {:induction false} CountedStored(a: Addition)
    requires NoGen(a.txs)
    ensures NumRctOuts(a) == StoredBy(a) <==> MinerCounted(a.blk.minerTx)
  {
    OrdinaryZeros(a.txs, |a.txs|);
    assert a.txs[..|a.txs|] == a.txs;
    MinerZeros(a.blk.minerTx);
  }

  // ----- over every run

  /** The outputs of the block are counted as they are stored. */
  ghost predicate Counted(a: Addition)
  {
    NoGen(a.txs) && MinerCounted(a.blk.minerTx)
  }

  /** Blocks with a miner transaction of version 2 whose only input is a generating one, and ordinary others. */
  lemma {:induction false} UsualBlocks(a: Addition)
    requires NoGen(a.txs) && a.blk.minerTx.version == 2 && |a.blk.minerTx.vin| == 1 && a.blk.minerTx.vin[0].Gen?
    ensures Counted(a) && Undoable(a)
  {
    UsualTransactions(a.blk.minerTx);
    forall i | 0 <= i < |a.txs| ensures SameAmounts(a.txs[i]) { UsualTransactions(a.txs[i]); }
  }

  /** The numbers handed over with the blocks. */
  function HandedOver(blocks: seq<Addition>): nat
  {
    if blocks == [] then 0 else HandedOver(blocks[..|blocks| - 1]) + NumRctOuts(blocks[|blocks| - 1])
  }

  lemma {:induction false} AllCountedStored(blocks: seq<Addition>)
    requires forall i :: 0 <= i < |blocks| ==> Counted(blocks[i])
    ensures HandedOver(blocks) == StoredByAll(blocks)
  {
    if blocks != [] {
      AllCountedStored(blocks[..|blocks| - 1]);
      CountedStored(blocks[|blocks| - 1]);
    }
  }

  /** Over every run whose surviving blocks are counted as they are stored, the outputs held under amount 0 are the
      numbers handed over with these blocks and what pops have left behind. They are just the numbers handed over if
      and only if every pop that succeeds takes an undoable block. */
  lemma {:induction false} RctOutputsConserved(h: Hashes, ops: seq<Op>)
    requires forall i :: 0 <= i < |Surviving(h, ops)| ==> Counted(Surviving(h, ops)[i])
    ensures Count(Run(h, ops).outs, 0) == HandedOver(Surviving(h, ops)) + LeftBehind(h, ops)
    ensures Count(Run(h, ops).outs, 0) == HandedOver(Surviving(h, ops)) <==> TakesUndoable(h, ops)
  {
    OutputsAccounted(h, ops);
    AllCountedStored(Surviving(h, ops));
    NothingLeftBehind(h, ops);
  }

  // ----- cumulative counts

  ghost function CountsHandedOver(): (Tables, seq<Addition>) -> bool
  {
    (t: Tables, blocks: seq<Addition>) => SumHanded(t.chain, |t.chain|) == HandedOver(blocks)
  }

  lemma {:induction false} CountingCarries(h: Hashes)
    ensures Carries(CountsHandedOver(), AddTo(h), Matching(h), Rest)
  {
    var add := AddTo(h);
    forall t: Tables, a: Addition, blocks: seq<Addition> |
        SumHanded(t.chain, |t.chain|) == HandedOver(blocks) && add(t, a).Done?
      ensures SumHanded(add(t, a).value.chain, |add(t, a).value.chain|) == HandedOver(blocks + [a])
    {
      AddHands(h, t, a, add(t, a).value);
      assert (blocks + [a])[..|blocks|] == blocks;
    }
  }

  lemma {:induction false} CountsLeft(h: Hashes, t: Tables, blocks: seq<Addition>, befores: seq<Tables>)
    requires LeftBy(h, t, blocks, befores)
    ensures SumHanded(t.chain, |t.chain|) == HandedOver(blocks)
  {
    CountingCarries(h);
    assert SumHanded(Rest(EMPTY).chain, 0) == HandedOver([]);
    TrackedHas(CountsHandedOver(), AddTo(h), Matching(h), Rest, EMPTY, t, blocks, befores);
  }

  /** Over every run, of any blocks whatever, the stored counts add up to the numbers handed over with the surviving
      blocks. */
  lemma {:induction false} CountsAddUp(h: Hashes, ops: seq<Op>)
    ensures SumHanded(Run(h, ops).chain, |Run(h, ops).chain|) == HandedOver(Surviving(h, ops))
  {
    RunLeftBy(h, ops);
    CountsLeft(h, Run(h, ops), Surviving(h, ops), Befores(h, ops));
  }

  lemma {:induction false} CountsTelescope(chain: seq<BlockRow>, n: nat)
    requires 0 < n <= |chain| && forall k :: 0 < k < n ==> chain[k].blk.majorVersion >= 4
    ensures chain[n - 1].cumRct == SumHanded(chain, n)
  {
    if n > 1 { CountsTelescope(chain, n - 1); }
  }

  /** Over every run where the stored blocks after the first have major version 4 or above, the cumulative count of the
      top block is what was handed over with the surviving blocks. If these are counted as they are stored, it is the
      number of outputs held under amount 0 if and only if every pop that succeeds takes an undoable block. */
  lemma {:induction false} CumulativeCount(h: Hashes, ops: seq<Op>, chain: seq<BlockRow>)
    requires chain == Run(h, ops).chain && |chain| > 0 && forall k :: 0 < k < |chain| ==> chain[k].blk.majorVersion >= 4
    ensures chain[|chain| - 1].cumRct == HandedOver(Surviving(h, ops))
    ensures (forall i :: 0 <= i < |Surviving(h, ops)| ==> Counted(Surviving(h, ops)[i])) ==>
              (chain[|chain| - 1].cumRct == Count(Run(h, ops).outs, 0) <==> TakesUndoable(h, ops))
  {
    CountsAddUp(h, ops);
    CountsTelescope(chain, |chain|);
    if forall i :: 0 <= i < |Surviving(h, ops)| ==> Counted(Surviving(h, ops)[i]) { RctOutputsConserved(h, ops); }
  }
}
