/** The store itself: the primitives of the backend and the operations of `BlockchainDB` on its tables. */
module ChainStore {
  import opened Wrappers
  import opened ChainTables
  import opened Rollback
  import opened ChainSpec
  import opened ChainInverse
  import opened BlockInverse

  /** The operation threw what it should, or left the tables as it should. */
  ghost predicate Leaves(r: Outcome<()>, tables: Tables, expected: Outcome<Tables>)
  {
    match expected
    case Done(t) => r == Done(()) && tables == t
    case Thrown(f) => r == Thrown(f)
  }

  class BlockchainDb {
    const hashes: Hashes
    var tables: Tables

    constructor (h: Hashes)
      ensures hashes == h && tables == EMPTY
    {
      hashes, tables := h, EMPTY;
    }

    // ----- primitives

    /** `add_spent_key` */
    method AddSpentKey(image: KeyImage) returns (r: Outcome<()>)
      modifies this
      ensures r == if image in old(tables.spent) then Thrown(KeyImageExists) else Done(())
      ensures tables == old(tables).(spent := old(tables.spent) + {image})
    {
      if image in tables.spent {
        assert tables.spent + {image} == tables.spent;
        return Thrown(KeyImageExists);
      }
      tables := tables.(spent := tables.spent + {image});
      return Done(());
    }

    /** `remove_spent_key`, which does not mind a missing key. */
    method RemoveSpentKey(image: KeyImage)
      modifies this
      ensures tables == old(tables).(spent := old(tables.spent) - {image})
    {
      tables := tables.(spent := tables.spent - {image});
    }

    /** `num_outputs` */
    method NumOutputs() returns (id: nat)
      ensures id == NextId(tables.outs.txs)
    {
      id := 0;
      var keys := tables.outs.txs.Keys;
      while keys != {}
        invariant keys <= tables.outs.txs.Keys && IsNext(tables.outs.txs.Keys - keys, id)
        decreases |keys|
      {
        var k :| k in keys;
        NextInsert(tables.outs.txs.Keys - keys, k, id);
        assert tables.outs.txs.Keys - (keys - {k}) == tables.outs.txs.Keys - keys + {k};
        if k >= id {
          id := k + 1;
        }
        keys := keys - {k};
      }
      assert tables.outs.txs.Keys - keys == tables.outs.txs.Keys;
      NextUnique(tables.outs.txs.Keys, id, NextId(tables.outs.txs));
    }

    /** `add_output` on its tables. */
    method StoreOutput(out: NewOutput, txHash: Hash, localIndex: nat, unlockTime: nat) returns (r: Outcome<nat>)
      modifies this
      ensures var spec := AddOutput(old(tables.outs), out, txHash, localIndex, unlockTime, |old(tables.chain)|);
              if spec.Done? then r == Done(spec.value.1) && tables == old(tables).(outs := spec.value.0)
              else r == Thrown(spec.failure)
    {
      var o := tables.outs;
      if out.key.None? || (out.amount == 0 && out.commitment.None?) {
        return Thrown(DbError);
      }
      var id := NumOutputs();
      var elements := IndicesOf(o, out.amount);
      var i := |elements|;
      if exists j :: j in elements && j >= i {
        return Thrown(DbError);
      }
      var row := OutKey(id, out.key.value, unlockTime, |tables.chain|,
                        if out.amount == 0 then out.commitment else None);
      tables := tables.(outs := Outputs(o.txs[id := OutTx(txHash, localIndex)], o.amounts[(out.amount, i) := row]));
      return Done(i);
    }

    /** `remove_output` */
    method DropOutput(amount: nat, i: nat) returns (r: Outcome<()>)
      modifies this
      ensures var spec := RemoveOutput(old(tables.outs), amount, i);
              if spec.Done? then r == Done(()) && tables == old(tables).(outs := spec.value)
              else r == Thrown(spec.failure)
    {
      var o := tables.outs;
      if (amount, i) !in o.amounts {
        return Thrown(OutputDne);
      }
      var id := o.amounts[(amount, i)].outputId;
      if id !in o.txs {
        return Thrown(DbError);
      }
      tables := tables.(outs := Outputs(o.txs - {id}, o.amounts - {(amount, i)}));
      return Done(());
    }

    // ----- add_transaction

    /** The input loop of `add_transaction`. */
    method SpendInputs(vin: seq<Input>) returns (r: Outcome<bool>)
      modifies this
      ensures var spec := Spend(old(tables.spent), vin);
              if spec.Done? then r == Done(HasGen(vin)) && tables == old(tables).(spent := spec.value)
              else r == Thrown(spec.failure)
    {
      var minerTx := false;
      assert vin[..0] == [];
      for i := 0 to |vin|
        invariant Spend(old(tables.spent), vin[..i]) == Done(tables.spent)
        invariant tables == old(tables).(spent := tables.spent)
        invariant minerTx == HasGen(vin[..i])
      {
        SpendStep(old(tables.spent), vin, i);
        match vin[i] {
          case ToKey(image) =>
            var added := AddSpentKey(image);
            if added.Thrown? {
              return Thrown(added.failure);
            }
          case Gen(_) =>
            minerTx := true;
          case OtherInput =>
            return Thrown(UnexpectedInput);
        }
      }
      assert vin[..|vin|] == vin;
      return Done(minerTx);
    }

    /** The body of the output loop of `add_transaction`. */
    method StoreNext(tx: Transaction, i: nat, txHash: Hash, minerTx: bool) returns (r: Outcome<nat>)
      requires minerTx == HasGen(tx.vin) && i < |tx.vout|
      modifies this
      ensures var spec := AddOutput(old(tables.outs), NewOutputOf(hashes, tx, i), txHash, i, tx.unlockTime,
                                    |old(tables.chain)|);
              if spec.Done? then r == Done(spec.value.1) && tables == old(tables).(outs := spec.value.0)
              else r == Thrown(spec.failure)
    {
      var vout := tx.vout[i];
      if minerTx && tx.version == 2 {
        r := StoreOutput(NewOutput(0, vout.key, Some(hashes.zeroCommit(vout.amount))), txHash, i, tx.unlockTime);
      } else {
        r := StoreOutput(NewOutput(vout.amount, vout.key, if tx.version > 1 then Some(vout.mask) else None),
                         txHash, i, tx.unlockTime);
      }
    }

    /** The output loop of `add_transaction`. */
    method OutputLoop(tx: Transaction, txHash: Hash, minerTx: bool, ghost height: nat,
                      ghost step: (Outputs, nat) -> Outcome<(Outputs, nat)>) returns (r: Outcome<seq<nat>>)
      requires minerTx == HasGen(tx.vin) && height == |tables.chain|
      requires forall o: Outputs, i: nat
                 {:trigger AddOutput(o, NewOutputOf(hashes, tx, i), txHash, i, tx.unlockTime, height)} ::
                 i < |tx.vout| ==>
                   step(o, i) == AddOutput(o, NewOutputOf(hashes, tx, i), txHash, i, tx.unlockTime, height)
      modifies this
      ensures var spec := Logged(step, old(tables.outs), |tx.vout|);
              if spec.Done? then r == Done(spec.value.1) && tables == old(tables).(outs := spec.value.0)
              else r == Thrown(spec.failure)
    {
      var amountOutputIndices: seq<nat> := [];
      for i := 0 to |tx.vout|
        invariant tables == old(tables).(outs := tables.outs)
        invariant Logged(step, old(tables.outs), i) == Done((tables.outs, amountOutputIndices))
      {
        var index := StoreNext(tx, i, txHash, minerTx);
        if index.Thrown? {
          LoggedThrows(step, old(tables.outs), i + 1, |tx.vout|);
          return Thrown(index.failure);
        }
        amountOutputIndices := amountOutputIndices + [index.value];
      }
      return Done(amountOutputIndices);
    }

    method StoreOutputs(tx: Transaction, txHash: Hash, minerTx: bool) returns (r: Outcome<seq<nat>>)
      requires minerTx == HasGen(tx.vin)
      modifies this
      ensures var spec := AddOutputs(hashes, old(tables.outs), tx, txHash, |old(tables.chain)|);
              if spec.Done? then r == Done(spec.value.1) && tables == old(tables).(outs := spec.value.0)
              else r == Thrown(spec.failure)
    {
      r := OutputLoop(tx, txHash, minerTx, |tables.chain|, OutputStep(hashes, tx, txHash, |tables.chain|));
    }

    /** `add_transaction_data` */
    method StoreTransactionData(tx: Transaction, txHash: Hash) returns (r: Outcome<nat>)
      modifies this
      ensures var spec := AddTransactionData(hashes, old(tables.txs), tx, txHash, |old(tables.chain)|);
              if spec.Done? then r == Done(|old(tables.txs.blobs)|) && tables == old(tables).(txs := spec.value)
              else r == Thrown(spec.failure)
    {
      var t := tables.txs;
      var id := |t.blobs|;
      if txHash in t.indices {
        return Thrown(TxExists);
      }
      if tx.version == 0 || tx.version > CURRENT_TRANSACTION_VERSION {
        return Thrown(DbError);
      }
      if !Above(t.blobs, id) || (tx.version > 1 && !Above(t.prunable, id)) {
        return Thrown(DbError);
      }
      t := t.(indices := t.indices[txHash := TxIndex(id, tx.unlockTime, |tables.chain|)]);
      t := t.(blobs := t.blobs[id := tx]);
      if tx.version > 1 {
        t := t.(prunable := t.prunable[id := hashes.prunable(tx)]);
      }
      tables := tables.(txs := t);
      return Done(id);
    }

    /** `BlockchainDB::add_transaction` */
    method StoreTransaction(tx: Transaction, txHash: Hash) returns (r: Outcome<()>)
      modifies this
      ensures Leaves(r, tables, AddTransaction(hashes, old(tables), tx, txHash))
    {
      var minerTx := SpendInputs(tx.vin);
      if minerTx.Thrown? {
        return Thrown(minerTx.failure);
      }
      var id := StoreTransactionData(tx, txHash);
      if id.Thrown? {
        return Thrown(id.failure);
      }
      var indices := StoreOutputs(tx, txHash, minerTx.value);
      if indices.Thrown? {
        return Thrown(indices.failure);
      }
      if !Above(tables.txs.outputs, id.value) {
        return Thrown(DbError);
      }
      tables := tables.(txs := tables.txs.(outputs := tables.txs.outputs[id.value := indices.value]));
      return Done(());
    }

    // ----- remove_transaction

    /** The input loop of `remove_transaction`. */
    method UnspendInputs(vin: seq<Input>)
      modifies this
      ensures tables == old(tables).(spent := old(tables.spent) - Images(vin))
    {
      assert Images(vin[..0]) == {};
      for i := 0 to |vin|
        invariant tables == old(tables).(spent := old(tables.spent) - Images(vin[..i]))
      {
        assert vin[..i + 1] == vin[..i] + [vin[i]];
        ImagesSnoc(vin[..i], vin[i]);
        if vin[i].ToKey? {
          RemoveSpentKey(vin[i].image);
        }
      }
      assert vin[..|vin|] == vin;
    }

    /** `remove_tx_outputs` */
    method DropOutputs(tx: Transaction, indices: seq<nat>) returns (r: Outcome<()>)
      modifies this
      ensures var spec := RemoveOutputs(old(tables.outs), tx, indices);
              if spec.Done? then r == Done(()) && tables == old(tables).(outs := spec.value)
              else r == Thrown(spec.failure)
    {
      if |indices| < |tx.vout| {
        return Thrown(DbError);
      }
      var isPseudoRct := tx.version >= 2 && |tx.vin| == 1 && tx.vin[0].Gen?;
      ghost var undo := OutputUndo(tx);
      for i := |tx.vout| downto 0
        invariant tables == old(tables).(outs := tables.outs)
        invariant Unlogged(undo, old(tables.outs), indices, |tx.vout|) == Unlogged(undo, tables.outs, indices, i)
      {
        var amount := if isPseudoRct then 0 else tx.vout[i].amount;
        assert amount == RemovalAmount(tx, i);
        r := DropOutput(amount, indices[i]);
        if r.Thrown? {
          return;
        }
      }
      return Done(());
    }

    /** `BlockchainDB::remove_transaction` */
    method DropTransaction(txHash: Hash) returns (r: Outcome<()>)
      modifies this
      ensures Leaves(r, tables, RemoveTransaction(old(tables), txHash))
    {
      var found := FindTransaction(tables, txHash);
      if found.Thrown? {
        return Thrown(found.failure);
      }
      var tx := found.value;
      UnspendInputs(tx.vin);
      var txs := tables.txs;
      var id := txs.indices[txHash].txId;
      if tx.version > 1 && id !in txs.prunable {
        return Thrown(DbError);
      }
      r := DropOutputs(tx, IndicesFor(txs, id));
      if r.Thrown? {
        return;
      }
      txs := txs.(blobs := txs.blobs - {id});
      if tx.version > 1 {
        txs := txs.(prunable := txs.prunable - {id});
      }
      txs := txs.(outputs := txs.outputs - {id}, indices := txs.indices - {txHash});
      tables := tables.(txs := txs);
    }

    // ----- add_block

    method CountZeros(vout: seq<Output>) returns (n: nat)
      ensures n == ZeroAmounts(vout)
    {
      n := 0;
      assert vout[..0] == [];
      for i := 0 to |vout|
        invariant n == ZeroAmounts(vout[..i])
      {
        assert vout[..i + 1][..i] == vout[..i];
        if vout[i].amount == 0 {
          n := n + 1;
        }
      }
      assert vout[..|vout|] == vout;
    }

    /** The transaction loop of `add_block`. */
    method TransactionLoop(txs: seq<Transaction>, txHashes: seq<Hash>, ghost step: (Tables, nat) -> Outcome<Tables>)
      returns (r: Outcome<nat>)
      requires |txs| == |txHashes|
      requires forall t: Tables, i: nat {:trigger AddTransaction(hashes, t, txs[i], txHashes[i])} ::
                 i < |txs| ==> step(t, i) == AddTransaction(hashes, t, txs[i], txHashes[i])
      modifies this
      ensures var spec := Forward(step, old(tables), |txs|);
              if spec.Done? then r == Done(ZeroAmountsIn(txs)) && tables == spec.value else r == Thrown(spec.failure)
    {
      var numRctOuts: nat := 0;
      assert txs[..0] == [];
      for i := 0 to |txs|
        invariant Forward(step, old(tables), i) == Done(tables) && numRctOuts == ZeroAmountsIn(txs[..i])
      {
        assert txs[..i + 1][..i] == txs[..i];
        var stored := StoreTransaction(txs[i], txHashes[i]);
        if stored.Thrown? {
          ForwardThrows(step, old(tables), i + 1, |txs|);
          return Thrown(stored.failure);
        }
        var zeros := CountZeros(txs[i].vout);
        numRctOuts := numRctOuts + zeros;
      }
      assert txs[..|txs|] == txs;
      return Done(numRctOuts);
    }

    method StoreTransactions(txs: seq<Transaction>, txHashes: seq<Hash>) returns (r: Outcome<nat>)
      requires |txs| == |txHashes|
      modifies this
      ensures var spec := Forward(AddStep(hashes, txs, txHashes), old(tables), |txs|);
              if spec.Done? then r == Done(ZeroAmountsIn(txs)) && tables == spec.value else r == Thrown(spec.failure)
    {
      r := TransactionLoop(txs, txHashes, AddStep(hashes, txs, txHashes));
    }

    /** The backend's own `add_block`. */
    method StoreBlockRow(blk: Block, numRctOuts: nat, blkHash: Hash) returns (r: Outcome<()>)
      modifies this
      ensures Leaves(r, tables, AddBlockRow(old(tables), blk, blkHash, numRctOuts))
    {
      var height := |tables.chain|;
      if blkHash in tables.heights {
        return Thrown(BlockExists);
      }
      if height > 0 {
        if blk.prevId !in tables.heights {
          return Thrown(DbError);
        }
        if tables.heights[blk.prevId] != height - 1 {
          return Thrown(BlockParentDne);
        }
      }
      var cumRct := numRctOuts;
      if blk.majorVersion >= 4 && height > 0 {
        cumRct := cumRct + tables.chain[height - 1].cumRct;
      }
      tables := tables.(chain := tables.chain + [BlockRow(blk, blkHash, cumRct)],
                        heights := tables.heights[blkHash := height]);
      return Done(());
    }

    /** `add_epose_state_commitment_v2` for a commitment that is present. */
    method StoreCommitment(height: nat, c: Option<Commitment>) returns (r: Outcome<()>)
      modifies this
      ensures Leaves(r, tables, AddCommitment(old(tables), height, c))
    {
      if c.Some? {
        if height in tables.commitments {
          return Thrown(DbError);
        }
        tables := tables.(commitments := tables.commitments[height := c.value]);
      }
      return Done(());
    }

    /** Block row and commitment. */
    method StoreBlock(a: Addition, numRctOuts: nat, blkHash: Hash, prevHeight: nat) returns (r: Outcome<()>)
      requires numRctOuts == NumRctOuts(a) && prevHeight == |tables.chain|
      modifies this
      ensures Leaves(r, tables, FinishBlock(old(tables), a, blkHash))
    {
      r := StoreBlockRow(a.blk, numRctOuts, blkHash);
      if r.Done? {
        r := StoreCommitment(prevHeight, a.commitment);
      }
    }

    /** Miner transaction and transactions; the number is that of their outputs of amount 0, the miner's left out. */
    method Fill(a: Addition) returns (r: Outcome<nat>)
      requires |a.blk.txHashes| == |a.txs|
      modifies this
      ensures var spec := FillTransactions(hashes, old(tables), a);
              if spec.Done? then r == Done(ZeroAmountsIn(a.txs)) && tables == spec.value else r == Thrown(spec.failure)
    {
      var stored := StoreTransaction(a.blk.minerTx, hashes.tx(a.blk.minerTx));
      if stored.Thrown? {
        return Thrown(stored.failure);
      }
      r := StoreTransactions(a.txs, a.blk.txHashes);
    }

    /** `BlockchainDB::add_block` */
    method Add(a: Addition) returns (r: Outcome<()>)
      modifies this
      ensures Leaves(r, tables, AddBlock(hashes, old(tables), a))
    {
      if |a.blk.txHashes| != |a.txs| {
        return Thrown(SizeMismatch);
      }
      var blkHash := hashes.block(a.blk);
      if a.commitment.Some? && !ValidCommitment(a.commitment.value, blkHash) {
        return Thrown(InvalidCommitment);
      }
      var prevHeight := |tables.chain|;
      var zeros := Fill(a);
      if zeros.Thrown? {
        return Thrown(zeros.failure);
      }
      var numRctOuts := zeros.value;
      if a.blk.minerTx.version == 2 {
        numRctOuts := numRctOuts + |a.blk.minerTx.vout|;
      }
      FillFrame(hashes, old(tables), a, tables);
      r := StoreBlock(a, numRctOuts, blkHash, prevHeight);
    }

    // ----- pop_block

    /** `remove_block` */
    method DropBlockRow() returns (r: Outcome<()>)
      modifies this
      ensures Leaves(r, tables, RemoveBlockRow(old(tables)))
    {
      var height := |tables.chain|;
      if height == 0 {
        return Thrown(BlockDne);
      }
      var hash := tables.chain[height - 1].hash;
      if hash !in tables.heights {
        return Thrown(DbError);
      }
      tables := tables.(chain := tables.chain[..height - 1], heights := tables.heights - {hash});
      return Done(());
    }

    /** A transaction of the popped block. */
    method TakeOne(txHash: Hash) returns (r: Outcome<Transaction>)
      modifies this
      ensures var spec := TakeTransaction(old(tables), txHash);
              if spec.Done? then r == Done(spec.value.1) && tables == spec.value.0 else r == Thrown(spec.failure)
    {
      var found := FindTransaction(tables, txHash);
      if found.Thrown? {
        return Thrown(DbError);
      }
      var dropped := DropTransaction(txHash);
      if dropped.Thrown? {
        return Thrown(dropped.failure);
      }
      return found;
    }

    /** The transaction loop of `pop_block`. */
    method TakeLoop(txHashes: seq<Hash>, ghost undo: (Tables, nat) -> Outcome<(Tables, Transaction)>)
      returns (r: Outcome<seq<Transaction>>)
      requires forall t: Tables, i: nat {:trigger TakeTransaction(t, txHashes[i])} ::
                 i < |txHashes| ==> undo(t, i) == TakeTransaction(t, txHashes[i])
      modifies this
      ensures var spec := Backward(undo, old(tables), |txHashes|);
              if spec.Done? then r == Done(spec.value.1) && tables == spec.value.0 else r == Thrown(spec.failure)
    {
      var txs: seq<Transaction> := [];
      PrependNothing(Backward(undo, tables, |txHashes|));
      for i := |txHashes| downto 0
        invariant Backward(undo, old(tables), |txHashes|) == Prepend(txs, Backward(undo, tables, i))
      {
        ghost var before := tables;
        var taken := TakeOne(txHashes[i]);
        if taken.Thrown? {
          return Thrown(taken.failure);
        }
        BackwardStep(undo, before, i + 1, txs, tables, taken.value);
        txs := txs + [taken.value];
      }
      assert txs + [] == txs;
      return Done(txs);
    }

    method TakeTransactions(txHashes: seq<Hash>) returns (r: Outcome<seq<Transaction>>)
      modifies this
      ensures var spec := Backward(TakeStep(txHashes), old(tables), |txHashes|);
              if spec.Done? then r == Done(spec.value.1) && tables == spec.value.0 else r == Thrown(spec.failure)
    {
      r := TakeLoop(txHashes, TakeStep(txHashes));
    }

    /** `BlockchainDB::pop_block` */
    method Pop() returns (r: Outcome<(Block, seq<Transaction>)>)
      modifies this
      ensures var spec := PopBlock(hashes, old(tables));
              if spec.Done? then r == Done((spec.value.blk, spec.value.txs)) && tables == spec.value.tables
              else r == Thrown(spec.failure)
    {
      var height := |tables.chain|;
      if height == 0 {
        return Thrown(DbError);
      }
      var blk := tables.chain[height - 1].blk;
      var dropped := DropBlockRow();
      if dropped.Thrown? {
        return Thrown(dropped.failure);
      }
      tables := tables.(commitments := tables.commitments - {height - 1});
      var txs := TakeTransactions(blk.txHashes);
      if txs.Thrown? {
        return Thrown(txs.failure);
      }
      dropped := DropTransaction(hashes.tx(blk.minerTx));
      if dropped.Thrown? {
        return Thrown(dropped.failure);
      }
      return Done((blk, txs.value));
    }
  }

  /** One more input. */
  lemma {:induction false} SpendStep(spent: set<KeyImage>, vin: seq<Input>, i: nat)
    requires i < |vin| && Spend(spent, vin[..i]).Done?
    ensures HasGen(vin[..i + 1]) == (HasGen(vin[..i]) || vin[i].Gen?)
    ensures var s := Spend(spent, vin[..i]).value;
            match vin[i]
            case ToKey(image) =>
              if image in s then Spend(spent, vin) == Thrown(KeyImageExists)
              else Spend(spent, vin[..i + 1]) == Done(s + {image})
            case Gen(_) => Spend(spent, vin[..i + 1]) == Done(s)
            case OtherInput => Spend(spent, vin) == Thrown(UnexpectedInput)
  {
    assert vin[..i + 1][..i] == vin[..i];
    if Spend(spent, vin[..i + 1]).Thrown? {
      SpendThrows(spent, vin, i + 1);
    }
  }

  lemma {:induction false} SpendThrows(spent: set<KeyImage>, vin: seq<Input>, i: nat)
    requires i <= |vin| && Spend(spent, vin[..i]).Thrown?
    ensures Spend(spent, vin) == Spend(spent, vin[..i])
  {
    if i < |vin| {
      var init := vin[..|vin| - 1];
      assert init[..i] == vin[..i];
      SpendThrows(spent, init, i);
    } else {
      assert vin[..i] == vin;
    }
  }
}
