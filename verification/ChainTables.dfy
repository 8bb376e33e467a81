/** The tables of the chain store and their primitives, as the LMDB backend keeps them. */
module ChainTables {
  import opened Wrappers

  type Hash = nat
  type Key = nat
  type KeyImage = nat

  const NULL_HASH: Hash := 0
  const COMMITMENT_SCHEMA_V2 := 1
  const CURRENT_TRANSACTION_VERSION := 2

  /** What the store throws. */
  datatype Failure = SizeMismatch | InvalidCommitment | UnexpectedInput | KeyImageExists | TxExists | TxDne
                   | OutputDne | BlockExists | BlockParentDne | BlockDne | DbError

  datatype Outcome<+T> = Done(value: T) | Thrown(failure: Failure)

  // ----- what is stored

  datatype Input = ToKey(image: KeyImage) | Gen(height: nat) | OtherInput

  /** An output, with the mask of its commitment in the signature data. */
  datatype Output = Output(amount: nat, key: Option<Key>, mask: Key)

  /** A transaction; `rest` stands for all that the store does not look at. */
  datatype Transaction = Transaction(version: nat, unlockTime: nat, vin: seq<Input>, vout: seq<Output>, rest: nat)

  datatype Block = Block(majorVersion: nat, prevId: Hash, minerTx: Transaction, txHashes: seq<Hash>)

  datatype Commitment = Commitment(schemaVersion: nat, blockHash: Hash, stateHash: Hash, parameterSetHash: Hash)

  /** Hash and commitment functions, which the store does not look into. */
  datatype Hashes = Hashes(block: Block -> Hash, tx: Transaction -> Hash, prunable: Transaction -> Hash,
                           zeroCommit: nat -> Key)

  // ----- the tables

  datatype OutTx = OutTx(txHash: Hash, localIndex: nat)
  datatype OutKey = OutKey(outputId: nat, key: Key, unlockTime: nat, height: nat, commitment: Option<Key>)
  datatype TxIndex = TxIndex(txId: nat, unlockTime: nat, height: nat)
  datatype BlockRow = BlockRow(blk: Block, hash: Hash, cumRct: nat)

  /** `output_txs` by output id, and `output_amounts` by amount and index within the amount. */
  datatype Outputs = Outputs(txs: map<nat, OutTx>, amounts: map<(nat, nat), OutKey>)

  /** `tx_indices`, the transaction blobs, their prunable hashes and `tx_outputs`. */
  datatype Transactions = Transactions(indices: map<Hash, TxIndex>, blobs: map<nat, Transaction>,
                                       prunable: map<nat, Hash>, outputs: map<nat, seq<nat>>)

  /** All tables; `chain` is `blocks` with `block_info`, `heights` is `block_heights`. */
  datatype Tables = Tables(chain: seq<BlockRow>, heights: map<Hash, nat>, txs: Transactions,
                           outs: Outputs, spent: set<KeyImage>, commitments: map<nat, Commitment>)

  const EMPTY := Tables([], map[], Transactions(map[], map[], map[], map[]), Outputs(map[], map[]), {}, map[])

  /** Appending to a table needs a key above all others. */
  predicate Above<V>(m: map<nat, V>, k: nat)
  {
    forall i :: i in m ==> i < k
  }

  lemma {:induction false} AppendKeepsAbove<V>(m: map<nat, V>, k: nat, v: V)
    requires Above(m, k)
    ensures k !in m && |m[k := v]| == |m| + 1 && Above(m[k := v], k + 1)
  {
    assert m[k := v].Keys == m.Keys + {k};
    assert |m| == |m.Keys| && |m[k := v]| == |m[k := v].Keys|;
  }

  /** Taking out what was put in. */
  lemma {:induction false} TakeOut<K, V>(m: map<K, V>, k: K, v: V)
    requires k !in m
    ensures m[k := v] - {k} == m && m - {k} == m
  {
  }

  /** One above the last key of a table, or 0 for an empty one. */
  predicate IsNext(keys: set<nat>, id: nat)
  {
    (forall i :: i in keys ==> i < id) && (id == 0 || id - 1 in keys)
  }

  lemma {:induction false} NextExists(keys: set<nat>)
    ensures exists id :: IsNext(keys, id)
    decreases |keys|
  {
    if keys == {} {
      assert IsNext(keys, 0);
    } else {
      var x :| x in keys;
      NextExists(keys - {x});
      var id :| IsNext(keys - {x}, id);
      NextInsert(keys - {x}, x, id);
      assert keys - {x} + {x} == keys;
    }
  }

  lemma {:induction false} NextInsert(keys: set<nat>, x: nat, id: nat)
    requires IsNext(keys, id)
    ensures IsNext(keys + {x}, if x >= id then x + 1 else id)
  {
    forall i | i in keys + {x}
      ensures i < if x >= id then x + 1 else id
    {
      if i != x { assert i in keys; }
    }
  }

  lemma {:induction false} NextUnique(keys: set<nat>, id: nat, id': nat)
    requires IsNext(keys, id) && IsNext(keys, id')
    ensures id == id'
  {
  }

  ghost function NextId<V>(m: map<nat, V>): (id: nat)
    ensures IsNext(m.Keys, id)
  {
    NextExists(m.Keys);
    var id :| IsNext(m.Keys, id);
    id
  }

  // ----- outputs

  function IndicesOf(o: Outputs, amount: nat): set<nat>
  {
    set e | e in o.amounts && e.0 == amount :: e.1
  }

  lemma {:induction false} IndexIn(o: Outputs, amount: nat, i: nat)
    ensures i in IndicesOf(o, amount) <==> (amount, i) in o.amounts
  {
    if (amount, i) in o.amounts {
      var e := (amount, i);
      assert e in o.amounts && e.0 == amount;
    }
  }

  /** How many outputs are held under an amount. */
  function Count(o: Outputs, amount: nat): nat
  {
    |IndicesOf(o, amount)|
  }

  /** An output to be added: its amount as stored, and a commitment if there is one. */
  datatype NewOutput = NewOutput(amount: nat, key: Option<Key>, commitment: Option<Key>)

  /** `add_output` */
  ghost function AddOutput(o: Outputs, out: NewOutput, txHash: Hash, localIndex: nat, unlockTime: nat,
                           height: nat): Outcome<(Outputs, nat)>
  {
    var id, i := NextId(o.txs), Count(o, out.amount);
    if out.key.None? || (out.amount == 0 && out.commitment.None?) then Thrown(DbError)
    else if exists j :: j in IndicesOf(o, out.amount) && j >= i then Thrown(DbError)
    else
      var row := OutKey(id, out.key.value, unlockTime, height, if out.amount == 0 then out.commitment else None);
      Done((Outputs(o.txs[id := OutTx(txHash, localIndex)], o.amounts[(out.amount, i) := row]), i))
  }

  /** `remove_output` */
  function RemoveOutput(o: Outputs, amount: nat, i: nat): Outcome<Outputs>
  {
    if (amount, i) !in o.amounts then Thrown(OutputDne)
    else
      var id := o.amounts[(amount, i)].outputId;
      if id !in o.txs then Thrown(DbError)
      else Done(Outputs(o.txs - {id}, o.amounts - {(amount, i)}))
  }

  lemma {:induction false} RemoveAddedOutput(o: Outputs, out: NewOutput, txHash: Hash, localIndex: nat,
                                             unlockTime: nat, height: nat)
    requires AddOutput(o, out, txHash, localIndex, unlockTime, height).Done?
    ensures var r := AddOutput(o, out, txHash, localIndex, unlockTime, height).value;
            RemoveOutput(r.0, out.amount, r.1) == Done(o)
  {
    var id, i := NextId(o.txs), Count(o, out.amount);
    var r := AddOutput(o, out, txHash, localIndex, unlockTime, height).value;
    IndexIn(o, out.amount, i);
    assert r.0.txs - {id} == o.txs;
    assert r.0.amounts - {(out.amount, i)} == o.amounts;
  }

  /** One more output under its amount, and no change under the others. */
  lemma {:induction false} CountAdded(o: Outputs, out: NewOutput, txHash: Hash, localIndex: nat, unlockTime: nat,
                                      height: nat, amount: nat)
    requires AddOutput(o, out, txHash, localIndex, unlockTime, height).Done?
    ensures Count(AddOutput(o, out, txHash, localIndex, unlockTime, height).value.0, amount)
            == Count(o, amount) + if amount == out.amount then 1 else 0
  {
    var r := AddOutput(o, out, txHash, localIndex, unlockTime, height).value;
    InsertIndex(o, r.0, out.amount, r.1, amount);
  }

  lemma {:induction false} InsertIndex(o: Outputs, o': Outputs, a: nat, i: nat, amount: nat)
    requires o'.amounts.Keys == o.amounts.Keys + {(a, i)} && i !in IndicesOf(o, a)
    ensures Count(o', amount) == Count(o, amount) + if amount == a then 1 else 0
  {
    if amount == a {
      assert (a, i) in o'.amounts;
      assert IndicesOf(o', a) == IndicesOf(o, a) + {i};
    } else {
      assert forall e :: e in o'.amounts && e.0 == amount <==> e in o.amounts && e.0 == amount;
      assert IndicesOf(o', amount) == IndicesOf(o, amount);
    }
  }

  lemma {:induction false} CountRemoved(o: Outputs, a: nat, i: nat, amount: nat)
    requires RemoveOutput(o, a, i).Done?
    ensures Count(o, amount) == Count(RemoveOutput(o, a, i).value, amount) + if amount == a then 1 else 0
  {
    var o' := RemoveOutput(o, a, i).value;
    IndexIn(o', a, i);
    assert o.amounts.Keys == o'.amounts.Keys + {(a, i)};
    InsertIndex(o', o, a, i, amount);
  }
}
