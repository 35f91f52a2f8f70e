/** The tables of the chain store and what the operations on them do, as functions from tables to
    tables. None stands for a thrown exception. */
module StoreTables {
  import opened Optional

  type Hash = nat
  type Key = nat
  type KeyImage = nat
  type Amount = nat

  datatype TxIn = Gen | ToKey(image: KeyImage) | UnsupportedIn
  datatype Target = ToKeyTarget(key: Key) | OtherTarget

  /** `mask` is the commitment the transaction carries for this output. */
  datatype TxOut = TxOut(amount: Amount, target: Target, mask: Key)

  datatype Transaction = Transaction(version: nat, unlockTime: nat, vin: seq<TxIn>, vout: seq<TxOut>)

  /** `hash` and `minerHash` are the hashes of the block and of its miner transaction. */
  datatype Block = Block(hash: Hash, prevId: Hash, majorVersion: nat,
                         minerTx: Transaction, minerHash: Hash, txHashes: seq<Hash>)

  datatype Commitment = NoCommitment | ZeroCommit(amount: Amount) | Mask(mask: Key)

  // ---------- rows ----------

  datatype TxIndex = TxIndex(txId: nat, unlockTime: nat, blockId: nat)
  datatype OutTx = OutTx(txHash: Hash, localIndex: nat)
  datatype OutKey = OutKey(outputId: nat, pubkey: Key, unlockTime: nat, height: nat, commitment: Commitment)
  datatype BlockInfo = BlockInfo(weight: nat, difficulty: nat, coins: nat, cumulativeRct: nat, hash: Hash)

  type Bucket = map<nat, OutKey>
  type Amounts = map<Amount, Bucket>

  /** Outputs by global id, and by amount and index within the amount. An amount without outputs has
      no entry. */
  datatype Outputs = Outputs(txs: map<nat, OutTx>, amounts: Amounts)

  datatype Tables = Tables(spent: set<KeyImage>,
                           index: map<Hash, TxIndex>, rows: map<nat, Transaction>, outIndices: map<nat, seq<nat>>,
                           outs: Outputs,
                           blocks: seq<Block>, infos: seq<BlockInfo>, heights: map<Hash, nat>)

  const EMPTY := Tables({}, map[], map[], map[], Outputs(map[], map[]), [], [], map[])

  // ---------- spent keys ----------

  datatype Inputs = Thrown | Aborted(spent: set<KeyImage>) | Accepted(spent: set<KeyImage>)

  function Images(vin: seq<TxIn>): set<KeyImage> {
    set i | 0 <= i < |vin| && vin[i].ToKey? :: vin[i].image
  }

  predicate Supported(tx: Transaction) {
    forall i | 0 <= i < |tx.vin| :: !tx.vin[i].UnsupportedIn?
  }

  predicate HasGen(tx: Transaction) {
    exists i | 0 <= i < |tx.vin| :: tx.vin[i].Gen?
  }

  /** Marks the images of `vin[i..]` as spent; at an unsupported input, unmarks all of `vin`. */
  function AddInputs(spent: set<KeyImage>, vin: seq<TxIn>, i: nat): Inputs
    requires i <= |vin|
    decreases |vin| - i
  {
    if i == |vin| then Accepted(spent)
    else match vin[i]
      case Gen => AddInputs(spent, vin, i + 1)
      case UnsupportedIn => Aborted(spent - Images(vin))
      case ToKey(image) => if image in spent then Thrown else AddInputs(spent + {image}, vin, i + 1)
  }

  // ---------- outputs ----------

  /** Version 2 miner outputs are stored with amount 0. */
  predicate StoredAsRct(tx: Transaction) {
    HasGen(tx) && tx.version == 2
  }

  /** When outputs are removed, a different test decides which amount they are looked up under. */
  predicate RemovedAsRct(tx: Transaction) {
    tx.version >= 2 && |tx.vin| == 1 && tx.vin[0].Gen?
  }

  function StoredAmount(tx: Transaction, i: nat): Amount
    requires i < |tx.vout|
  {
    if StoredAsRct(tx) then 0 else tx.vout[i].amount
  }

  function RemovedAmount(tx: Transaction, i: nat): Amount
    requires i < |tx.vout|
  {
    if RemovedAsRct(tx) then 0 else tx.vout[i].amount
  }

  function CommitmentOf(tx: Transaction, i: nat): Commitment
    requires i < |tx.vout|
  {
    if StoredAsRct(tx) then ZeroCommit(tx.vout[i].amount)
    else if tx.version > 1 then Mask(tx.vout[i].mask)
    else NoCommitment
  }

  function BucketOf(amounts: Amounts, amount: Amount): Bucket {
    if amount in amounts then amounts[amount] else map[]
  }

  /** Appends a row to its amount; its index is the number of rows already there. */
  function Append(amounts: Amounts, amount: Amount, row: OutKey): Amounts {
    var bucket := BucketOf(amounts, amount);
    amounts[amount := bucket[|bucket| := row]]
  }

  function Delete(amounts: Amounts, amount: Amount, index: nat): Amounts {
    var bucket := BucketOf(amounts, amount) - {index};
    if bucket == map[] then amounts - {amount} else amounts[amount := bucket]
  }

  /** Rows are only ever put behind all others; putting one elsewhere throws. */
  predicate Below<V>(m: map<nat, V>, n: nat) {
    forall i | i in m :: i < n
  }

  /** The numbers the next output of this amount gets, globally and in its list, come after all others. */
  predicate Room(outs: Outputs, amount: Amount) {
    var bucket := BucketOf(outs.amounts, amount);
    Below(outs.txs, |outs.txs|) && Below(bucket, |bucket|)
  }

  function OutKeyOf(tx: Transaction, i: nat, id: nat, height: nat): OutKey
    requires i < |tx.vout| && tx.vout[i].target.ToKeyTarget?
  {
    OutKey(id, tx.vout[i].target.key, tx.unlockTime, height,
           if StoredAmount(tx, i) == 0 then CommitmentOf(tx, i) else NoCommitment)
  }

  /** An amount-0 output needs a commitment, and every output must go to a key. */
  predicate Storable(tx: Transaction, i: nat)
    requires i < |tx.vout|
  {
    tx.vout[i].target.ToKeyTarget? && !(StoredAmount(tx, i) == 0 && CommitmentOf(tx, i).NoCommitment?)
  }

  function AddOutput(outs: Outputs, hash: Hash, tx: Transaction, i: nat, height: nat): Option<Outputs>
    requires i < |tx.vout|
  {
    if !Storable(tx, i) || !Room(outs, StoredAmount(tx, i)) then None
    else
      var id := |outs.txs|;
      Some(Outputs(outs.txs[id := OutTx(hash, i)],
                   Append(outs.amounts, StoredAmount(tx, i), OutKeyOf(tx, i, id, height))))
  }

  datatype Adding = Adding(outs: Outputs, indices: seq<nat>)

  /** Adds the first `k` outputs of `tx` and collects their indices. */
  function AddOutputs(outs: Outputs, hash: Hash, tx: Transaction, k: nat, height: nat): Option<Adding>
    requires k <= |tx.vout|
  {
    if k == 0 then Some(Adding(outs, []))
    else match AddOutputs(outs, hash, tx, k - 1, height)
      case None => None
      case Some(a) =>
        match AddOutput(a.outs, hash, tx, k - 1, height)
        case None => None
        case Some(outs') => Some(Adding(outs', a.indices + [|BucketOf(a.outs.amounts, StoredAmount(tx, k - 1))|]))
  }

  /** Deletes whatever is stored under this amount and index. */
  function RemoveOutput(outs: Outputs, amount: Amount, index: nat): Option<Outputs> {
    if index !in BucketOf(outs.amounts, amount) || outs.amounts[amount][index].outputId !in outs.txs then None
    else Some(Outputs(outs.txs - {outs.amounts[amount][index].outputId}, Delete(outs.amounts, amount, index)))
  }

  /** Removes outputs k-1, ..., 0 of `tx`. */
  function RemoveOutputs(outs: Outputs, tx: Transaction, indices: seq<nat>, k: nat): Option<Outputs>
    requires k <= |tx.vout| && k <= |indices|
    decreases k
  {
    if k == 0 then Some(outs)
    else match RemoveOutput(outs, RemovedAmount(tx, k - 1), indices[k - 1])
      case None => None
      case Some(outs') => RemoveOutputs(outs', tx, indices, k - 1)
  }

  // ---------- transactions ----------

  /** The tables with the rows of a transaction whose inputs and outputs have been dealt with. */
  function PutIn(t: Tables, tx: Transaction, hash: Hash, spent: set<KeyImage>, a: Adding): Tables {
    var id := |t.rows|;
    t.(spent := spent,
       index := t.index[hash := TxIndex(id, tx.unlockTime, |t.blocks|)],
       rows := t.rows[id := tx],
       outIndices := t.outIndices[id := a.indices],
       outs := a.outs)
  }

  function AddTx(t: Tables, tx: Transaction, hash: Hash): Option<Tables> {
    match AddInputs(t.spent, tx.vin, 0)
    case Thrown => None
    case Aborted(spent) => Some(t.(spent := spent))
    case Accepted(spent) =>
      if hash in t.index || !Below(t.rows, |t.rows|) || !Below(t.outIndices, |t.rows|) then None
      else match AddOutputs(t.outs, hash, tx, |tx.vout|, |t.blocks|)
        case None => None
        case Some(a) => Some(PutIn(t, tx, hash, spent, a))
  }

  function GetTx(t: Tables, hash: Hash): Option<Transaction> {
    if hash in t.index && t.index[hash].txId in t.rows then Some(t.rows[t.index[hash].txId]) else None
  }

  function TakenOut(t: Tables, hash: Hash, tx: Transaction, outs: Outputs): Tables
    requires hash in t.index
  {
    var id := t.index[hash].txId;
    t.(spent := t.spent - Images(tx.vin), index := t.index - {hash}, rows := t.rows - {id},
       outIndices := t.outIndices - {id}, outs := outs)
  }

  function RemoveTx(t: Tables, hash: Hash): Option<Tables> {
    match GetTx(t, hash)
    case None => None
    case Some(tx) =>
      var id := t.index[hash].txId;
      var indices := if id in t.outIndices then t.outIndices[id] else [];
      if |indices| < |tx.vout| then None
      else match RemoveOutputs(t.outs, tx, indices, |tx.vout|)
        case None => None
        case Some(outs) => Some(TakenOut(t, hash, tx, outs))
  }

  // ---------- blocks ----------

  /** A block to add, its transactions and what is recorded with it. */
  datatype Entry = Entry(block: Block, txs: seq<Transaction>, weight: nat, difficulty: nat, coins: nat)

  function Zeros(vout: seq<TxOut>): nat {
    if vout == [] then 0
    else Zeros(vout[..|vout| - 1]) + (if vout[|vout| - 1].amount == 0 then 1 else 0)
  }

  function ZerosOfAll(txs: seq<Transaction>): nat {
    if txs == [] then 0 else ZerosOfAll(txs[..|txs| - 1]) + Zeros(txs[|txs| - 1].vout)
  }

  /** The number of amount-0 outputs the store takes a block to have. */
  function NumRctOuts(e: Entry): nat {
    (if e.block.minerTx.version == 2 then |e.block.minerTx.vout| else 0) + ZerosOfAll(e.txs)
  }

  function AddTxs(t: Tables, hashes: seq<Hash>, txs: seq<Transaction>): Option<Tables>
    requires |hashes| == |txs|
  {
    if txs == [] then Some(t)
    else
      var n := |txs| - 1;
      match AddTxs(t, hashes[..n], txs[..n])
      case None => None
      case Some(t') => AddTx(t', txs[n], hashes[n])
  }

  function AddRow(t: Tables, e: Entry): Option<Tables> {
    var b, h := e.block, |t.blocks|;
    if b.hash in t.heights then None
    else if h > 0 && (b.prevId !in t.heights || t.heights[b.prevId] != h - 1) then None
    else if b.majorVersion >= 4 && (h == 0 || |t.infos| < h) then None
    else
      var before := if b.majorVersion >= 4 then t.infos[h - 1].cumulativeRct else 0;
      var info := BlockInfo(e.weight, e.difficulty, e.coins, NumRctOuts(e) + before, b.hash);
      Some(t.(blocks := t.blocks + [b], infos := t.infos + [info], heights := t.heights[b.hash := h]))
  }

  function AddBlock(t: Tables, e: Entry): Option<Tables> {
    if |e.block.txHashes| != |e.txs| then None
    else match AddTx(t, e.block.minerTx, e.block.minerHash)
      case None => None
      case Some(t1) =>
        match AddTxs(t1, e.block.txHashes, e.txs)
        case None => None
        case Some(t2) => AddRow(t2, e)
  }

  function RemoveRow(t: Tables): Option<Tables> {
    if t.blocks == [] || t.infos == [] || t.infos[|t.infos| - 1].hash !in t.heights then None
    else Some(t.(blocks := t.blocks[..|t.blocks| - 1], infos := t.infos[..|t.infos| - 1],
                 heights := t.heights - {t.infos[|t.infos| - 1].hash}))
  }

  datatype Popped = Popped(t: Tables, txs: seq<Transaction>)

  /** Removes the transactions from the last of `hashes` to the first, listing them in that order. */
  function RemoveTxs(t: Tables, hashes: seq<Hash>): Option<Popped>
    decreases |hashes|
  {
    if hashes == [] then Some(Popped(t, []))
    else
      var n := |hashes| - 1;
      if GetTx(t, hashes[n]).None? || RemoveTx(t, hashes[n]).None? then None
      else match RemoveTxs(RemoveTx(t, hashes[n]).value, hashes[..n])
        case None => None
        case Some(p) => Some(Popped(p.t, [GetTx(t, hashes[n]).value] + p.txs))
  }

  function PopBlock(t: Tables): Option<Popped> {
    match RemoveRow(t)
    case None => None
    case Some(t1) =>
      var b := t.blocks[|t.blocks| - 1];
      match RemoveTxs(t1, b.txHashes)
      case None => None
      case Some(p) =>
        match RemoveTx(p.t, b.minerHash)
        case None => None
        case Some(t2) => Some(Popped(t2, p.txs))
  }
}
