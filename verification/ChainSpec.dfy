/** What `BlockchainDB::add_transaction`, `add_block`, `pop_block` and `remove_transaction` do to the tables. */
module ChainSpec {
  import opened Wrappers
  import opened ChainTables
  import opened Rollback

  // ----- spent keys

  function Images(vin: seq<Input>): set<KeyImage>
  {
    set i | 0 <= i < |vin| && vin[i].ToKey? :: vin[i].image
  }

  predicate HasGen(vin: seq<Input>)
  {
    exists i :: 0 <= i < |vin| && vin[i].Gen?
  }

  /** The input loop of `add_transaction`. */
  function Spend(spent: set<KeyImage>, vin: seq<Input>): Outcome<set<KeyImage>>
  {
    if vin == [] then Done(spent) else
      match Spend(spent, vin[..|vin| - 1])
      case Thrown(f) => Thrown(f)
      case Done(s) =>
        match vin[|vin| - 1]
        case ToKey(image) => if image in s then Thrown(KeyImageExists) else Done(s + {image})
        case Gen(_) => Done(s)
        case OtherInput => Thrown(UnexpectedInput)
  }

  // ----- outputs

  /** Coinbase outputs that `add_transaction` stores under amount 0. */
  predicate StoredAsRct(tx: Transaction)
  {
    HasGen(tx.vin) && tx.version == 2
  }

  /** Transactions whose outputs `remove_tx_outputs` looks for under amount 0. */
  predicate RemovedAsRct(tx: Transaction)
  {
    tx.version >= 2 && |tx.vin| == 1 && tx.vin[0].Gen?
  }

  /** The amount under which an output is stored. */
  function StoredAmount(tx: Transaction, i: nat): nat
    requires i < |tx.vout|
  {
    if StoredAsRct(tx) then 0 else tx.vout[i].amount
  }

  /** The amount under which `remove_tx_outputs` looks for it. */
  function RemovalAmount(tx: Transaction, i: nat): nat
    requires i < |tx.vout|
  {
    if RemovedAsRct(tx) then 0 else tx.vout[i].amount
  }

  function NewOutputOf(h: Hashes, tx: Transaction, i: nat): NewOutput
    requires i < |tx.vout|
  {
    var out := tx.vout[i];
    var commitment := if StoredAsRct(tx) then Some(h.zeroCommit(out.amount))
                      else if tx.version > 1 then Some(out.mask)
                      else None;
    NewOutput(StoredAmount(tx, i), out.key, commitment)
  }

  ghost function OutputStep(h: Hashes, tx: Transaction, hash: Hash, height: nat)
    : (Outputs, nat) -> Outcome<(Outputs, nat)>
  {
    (o: Outputs, i: nat) =>
      if i < |tx.vout| then AddOutput(o, NewOutputOf(h, tx, i), hash, i, tx.unlockTime, height) else Thrown(DbError)
  }

  function OutputUndo(tx: Transaction): (Outputs, nat, nat) -> Outcome<Outputs>
  {
    (o: Outputs, i: nat, k: nat) => if i < |tx.vout| then RemoveOutput(o, RemovalAmount(tx, i), k) else Thrown(DbError)
  }

  /** The output loop of `add_transaction`; the log holds the indices within the amounts. */
  ghost function AddOutputs(h: Hashes, o: Outputs, tx: Transaction, hash: Hash, height: nat)
    : Outcome<(Outputs, seq<nat>)>
  {
    Logged(OutputStep(h, tx, hash, height), o, |tx.vout|)
  }

  /** The loop of `remove_tx_outputs`, from the last output down. */
  function RemoveOutputs(o: Outputs, tx: Transaction, indices: seq<nat>): Outcome<Outputs>
  {
    if |indices| < |tx.vout| then Thrown(DbError) else Unlogged(OutputUndo(tx), o, indices, |tx.vout|)
  }

  // ----- transaction data

  /** `add_transaction_data`; only transactions of the known versions can be serialized. */
  function AddTransactionData(h: Hashes, t: Transactions, tx: Transaction, hash: Hash, height: nat)
    : Outcome<Transactions>
  {
    var id := |t.blobs|;
    if hash in t.indices then Thrown(TxExists)
    else if tx.version == 0 || tx.version > CURRENT_TRANSACTION_VERSION then Thrown(DbError)
    else if !Above(t.blobs, id) || (tx.version > 1 && !Above(t.prunable, id)) then Thrown(DbError)
    else Done(Transactions(t.indices[hash := TxIndex(id, tx.unlockTime, height)], t.blobs[id := tx],
                           if tx.version > 1 then t.prunable[id := h.prunable(tx)] else t.prunable, t.outputs))
  }

  function AddIndices(t: Transactions, id: nat, indices: seq<nat>): Outcome<Transactions>
  {
    if !Above(t.outputs, id) then Thrown(DbError) else Done(t.(outputs := t.outputs[id := indices]))
  }

  /** The parts of `remove_transaction_data` other than the outputs. */
  function RemoveTransactionData(t: Transactions, tx: Transaction, hash: Hash): Outcome<Transactions>
    requires hash in t.indices
  {
    var id := t.indices[hash].txId;
    if id !in t.blobs || (tx.version > 1 && id !in t.prunable) then Thrown(DbError)
    else Done(Transactions(t.indices - {hash}, t.blobs - {id},
                           if tx.version > 1 then t.prunable - {id} else t.prunable, t.outputs - {id}))
  }

  function IndicesFor(t: Transactions, id: nat): seq<nat>
  {
    if id in t.outputs then t.outputs[id] else []
  }

  // ----- whole transactions

  /** `add_transaction` */
  ghost function AddTransaction(h: Hashes, t: Tables, tx: Transaction, hash: Hash): Outcome<Tables>
  {
    match Spend(t.spent, tx.vin)
    case Thrown(f) => Thrown(f)
    case Done(spent) =>
      match AddTransactionData(h, t.txs, tx, hash, |t.chain|)
      case Thrown(f) => Thrown(f)
      case Done(txs) =>
        match AddOutputs(h, t.outs, tx, hash, |t.chain|)
        case Thrown(f) => Thrown(f)
        case Done((outs, indices)) =>
          match AddIndices(txs, |t.txs.blobs|, indices)
          case Thrown(f) => Thrown(f)
          case Done(txs') => Done(t.(spent := spent, txs := txs', outs := outs))
  }

  /** The transaction stored under a hash. */
  function FindTransaction(t: Tables, hash: Hash): Outcome<Transaction>
  {
    if hash !in t.txs.indices then Thrown(TxDne)
    else if t.txs.indices[hash].txId !in t.txs.blobs then Thrown(TxDne)
    else Done(t.txs.blobs[t.txs.indices[hash].txId])
  }

  /** `remove_transaction` */
  function RemoveTransaction(t: Tables, hash: Hash): Outcome<Tables>
  {
    match FindTransaction(t, hash)
    case Thrown(f) => Thrown(f)
    case Done(tx) =>
      var indices := IndicesFor(t.txs, t.txs.indices[hash].txId);
      match RemoveTransactionData(t.txs, tx, hash)
      case Thrown(f) => Thrown(f)
      case Done(txs) =>
        match RemoveOutputs(t.outs, tx, indices)
        case Thrown(f) => Thrown(f)
        case Done(outs) => Done(t.(spent := t.spent - Images(tx.vin), txs := txs, outs := outs))
  }

  /** A transaction removed, and what it was. */
  function TakeTransaction(t: Tables, hash: Hash): Outcome<(Tables, Transaction)>
  {
    match FindTransaction(t, hash)
    case Thrown(f) => Thrown(DbError)
    case Done(tx) =>
      match RemoveTransaction(t, hash)
      case Thrown(f) => Thrown(f)
      case Done(t') => Done((t', tx))
  }

  ghost function AddStep(h: Hashes, txs: seq<Transaction>, hashes: seq<Hash>): (Tables, nat) -> Outcome<Tables>
  {
    (t: Tables, i: nat) =>
      if i < |txs| && i < |hashes| then AddTransaction(h, t, txs[i], hashes[i]) else Thrown(DbError)
  }

  function TakeStep(hashes: seq<Hash>): (Tables, nat) -> Outcome<(Tables, Transaction)>
  {
    (t: Tables, i: nat) => if i < |hashes| then TakeTransaction(t, hashes[i]) else Thrown(DbError)
  }

  // ----- blocks

  /** The arguments of `add_block`. */
  datatype Addition = Addition(blk: Block, txs: seq<Transaction>, commitment: Option<Commitment>)

  predicate ValidCommitment(c: Commitment, hash: Hash)
  {
    && c.schemaVersion == COMMITMENT_SCHEMA_V2 && c.blockHash == hash
    && c.stateHash != NULL_HASH && c.parameterSetHash != NULL_HASH
  }

  function ZeroAmounts(vout: seq<Output>): nat
  {
    if vout == [] then 0 else ZeroAmounts(vout[..|vout| - 1]) + if vout[|vout| - 1].amount == 0 then 1 else 0
  }

  function ZeroAmountsIn(txs: seq<Transaction>): nat
  {
    if txs == [] then 0 else ZeroAmountsIn(txs[..|txs| - 1]) + ZeroAmounts(txs[|txs| - 1].vout)
  }

  /** What `add_block` hands to the backend as the number of rct outputs. */
  function NumRctOuts(a: Addition): nat
  {
    (if a.blk.minerTx.version == 2 then |a.blk.minerTx.vout| else 0) + ZeroAmountsIn(a.txs)
  }

  /** The backend's own `add_block`. */
  function AddBlockRow(t: Tables, blk: Block, hash: Hash, numRctOuts: nat): Outcome<Tables>
  {
    var height := |t.chain|;
    if hash in t.heights then Thrown(BlockExists)
    else if height > 0 && blk.prevId !in t.heights then Thrown(DbError)
    else if height > 0 && t.heights[blk.prevId] != height - 1 then Thrown(BlockParentDne)
    else
      var before := if blk.majorVersion >= 4 && height > 0 then t.chain[height - 1].cumRct else 0;
      Done(t.(chain := t.chain + [BlockRow(blk, hash, numRctOuts + before)], heights := t.heights[hash := height]))
  }

  /** `remove_block` */
  function RemoveBlockRow(t: Tables): Outcome<Tables>
  {
    var height := |t.chain|;
    if height == 0 then Thrown(BlockDne)
    else if t.chain[height - 1].hash !in t.heights then Thrown(DbError)
    else Done(t.(chain := t.chain[..height - 1], heights := t.heights - {t.chain[height - 1].hash}))
  }

  function AddCommitment(t: Tables, height: nat, c: Option<Commitment>): Outcome<Tables>
  {
    if c.None? then Done(t)
    else if height in t.commitments then Thrown(DbError)
    else Done(t.(commitments := t.commitments[height := c.value]))
  }

  /** The transaction part of `add_block`. */
  ghost function FillTransactions(h: Hashes, t: Tables, a: Addition): Outcome<Tables>
    requires |a.blk.txHashes| == |a.txs|
  {
    match AddTransaction(h, t, a.blk.minerTx, h.tx(a.blk.minerTx))
    case Thrown(f) => Thrown(f)
    case Done(t') => Forward(AddStep(h, a.txs, a.blk.txHashes), t', |a.txs|)
  }

  /** The block part of `add_block`. */
  function FinishBlock(t: Tables, a: Addition, hash: Hash): Outcome<Tables>
  {
    match AddBlockRow(t, a.blk, hash, NumRctOuts(a))
    case Thrown(f) => Thrown(f)
    case Done(t') => AddCommitment(t', |t.chain|, a.commitment)
  }

  /** `BlockchainDB::add_block` */
  ghost function AddBlock(h: Hashes, t: Tables, a: Addition): Outcome<Tables>
  {
    var hash := h.block(a.blk);
    if |a.blk.txHashes| != |a.txs| then Thrown(SizeMismatch)
    else if a.commitment.Some? && !ValidCommitment(a.commitment.value, hash) then Thrown(InvalidCommitment)
    else
      match FillTransactions(h, t, a)
      case Thrown(f) => Thrown(f)
      case Done(t') => FinishBlock(t', a, hash)
  }

  /** What `pop_block` leaves and returns. */
  datatype Popped = Popped(tables: Tables, blk: Block, txs: seq<Transaction>)

  /** The transaction part of `pop_block`. */
  function PopTransactions(h: Hashes, t: Tables, blk: Block): Outcome<Popped>
  {
    match Backward(TakeStep(blk.txHashes), t, |blk.txHashes|)
    case Thrown(f) => Thrown(f)
    case Done((t', txs)) =>
      match RemoveTransaction(t', h.tx(blk.minerTx))
      case Thrown(f) => Thrown(f)
      case Done(t'') => Done(Popped(t'', blk, txs))
  }

  /** `BlockchainDB::pop_block` */
  function PopBlock(h: Hashes, t: Tables): Outcome<Popped>
  {
    var height := |t.chain|;
    if height == 0 then Thrown(DbError) else
      match RemoveBlockRow(t)
      case Thrown(f) => Thrown(f)
      case Done(t') => PopTransactions(h, t'.(commitments := t'.commitments - {height - 1}), t.chain[height - 1].blk)
  }
}
