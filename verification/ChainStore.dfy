/** The chain store as an object over its tables: adding and removing transactions and blocks, step by
    step, each proved to do what `StoreTables` says. A method that returns `ok == false` has thrown;
    what it leaves behind is rolled back by the block operation that called it. */
module ChainStore {
  import opened Optional
  import opened StoreTables
  import opened StoreUndo
  import opened StoreIndex
  import opened StoreLinks
  import opened StoreAccepts

  lemma {:induction false} AddOutputsFailed(outs: Outputs, hash: Hash, tx: Transaction, k: nat, n: nat, height: nat)
    requires k <= n <= |tx.vout| && AddOutputs(outs, hash, tx, k, height).None?
    ensures AddOutputs(outs, hash, tx, n, height).None?
    decreases n - k
  {
    if k < n {
      AddOutputsFailed(outs, hash, tx, k, n - 1, height);
    }
  }

  lemma AddTxsSnoc(t: Tables, hashes: seq<Hash>, txs: seq<Transaction>, k: nat)
    requires k < |txs| == |hashes|
    ensures AddTxs(t, hashes[..k + 1], txs[..k + 1]) ==
            match AddTxs(t, hashes[..k], txs[..k])
            case None => None
            case Some(t') => AddTx(t', txs[k], hashes[k])
  {
    assert txs[..k + 1][..k] == txs[..k] && hashes[..k + 1][..k] == hashes[..k];
  }

  lemma {:induction false} AddTxsFailed(t: Tables, hashes: seq<Hash>, txs: seq<Transaction>, k: nat)
    requires k <= |txs| == |hashes| && AddTxs(t, hashes[..k], txs[..k]).None?
    ensures AddTxs(t, hashes, txs).None?
    decreases |txs| - k
  {
    if k == |txs| {
      assert txs[..k] == txs && hashes[..k] == hashes;
    } else {
      AddTxsSnoc(t, hashes, txs, k);
      AddTxsFailed(t, hashes, txs, k + 1);
    }
  }

  lemma ImagesSnoc(vin: seq<TxIn>, i: nat)
    requires i < |vin|
    ensures Images(vin[..i + 1]) == Images(vin[..i]) + if vin[i].ToKey? then {vin[i].image} else {}
  {
    assert vin[..i + 1][i] == vin[i];
    assert forall j | 0 <= j < i :: vin[..i + 1][j] == vin[..i][j];
  }

  /** Transactions already listed go in front of those still to be removed. */
  ghost function Before(txs: seq<Transaction>, rest: Option<Popped>): Option<Popped> {
    match rest
    case None => None
    case Some(p) => Some(Popped(p.t, txs + p.txs))
  }

  lemma BeforeNothing(rest: Option<Popped>)
    ensures Before([], rest) == rest
  {
    if rest.Some? {
      assert [] + rest.value.txs == rest.value.txs;
    }
  }

  lemma BeforeEnd(txs: seq<Transaction>, t: Tables, hashes: seq<Hash>)
    ensures Before(txs, RemoveTxs(t, hashes[..0])) == Some(Popped(t, txs))
  {
    assert txs + [] == txs;
  }

  lemma BeforeStep(txs: seq<Transaction>, t: Tables, hashes: seq<Hash>)
    requires hashes != [] && GetTx(t, hashes[|hashes| - 1]).Some?
    ensures var n := |hashes| - 1;
            Before(txs, RemoveTxs(t, hashes)) ==
            if RemoveTx(t, hashes[n]).None? then None
            else Before(txs + [GetTx(t, hashes[n]).value], RemoveTxs(RemoveTx(t, hashes[n]).value, hashes[..n]))
  {
    var n := |hashes| - 1;
    if RemoveTx(t, hashes[n]).Some? && RemoveTxs(RemoveTx(t, hashes[n]).value, hashes[..n]).Some? {
      var tx, p := GetTx(t, hashes[n]).value, RemoveTxs(RemoveTx(t, hashes[n]).value, hashes[..n]).value;
      assert txs + ([tx] + p.txs) == txs + [tx] + p.txs;
    }
  }

  /** What adding does to a store that matches its chain. */
  lemma AddKeeps(chain: seq<Entry>, e: Entry)
    requires Replayable(chain)
    ensures var t := Replay(chain);
            && |t.blocks| == |chain| && Indexed(t) && Linked(t)
            && (AddBlock(t, e).Some? <==> Fits(t, e))
            && (AddBlock(t, e).Some? ==>
                  && Replayable(chain + [e]) && AddBlock(t, e).value == Replay(chain + [e])
                  && Indexed(AddBlock(t, e).value) && Linked(AddBlock(t, e).value)
                  && RowRecords(AddBlock(t, e).value, |chain|, e) && AllReadBack(AddBlock(t, e).value, e, |chain|))
  {
    var t := Replay(chain);
    ReplaySound(chain);
    ReplayIndexed(chain);
    ReplayLinked(chain);
    AddBlockSucceeds(t, e);
    if AddBlock(t, e).Some? {
      ReplaySnoc(chain, e);
      AddBlockIndexed(t, e);
      AddBlockLinked(t, e);
      AddBlockRecords(t, e);
      AddBlockReadBack(t, e);
    }
  }

  /** What popping does to a store that matches its chain. */
  lemma PopKeeps(chain: seq<Entry>, chain': seq<Entry>, t: Tables, t': Tables, ok: bool)
    requires Replayable(chain) && t == Replay(chain) && t' == Step(t, Op.Pop) && (ok <==> PopBlock(t).Some?)
    requires chain' == if ok && chain != [] then chain[..|chain| - 1] else chain
    ensures Linked(t') && (ok ==> chain != [])
    ensures Replayable(chain') && t' == Replay(chain') <==> !ok || TopRestorable(chain)
    ensures t' == Replay(chain') ==> Indexed(t')
    ensures ok && TopDroppedNew(chain) ==> (Indexed(t') <==> TopRestorable(chain))
    ensures chain != [] && TopRestorable(chain) ==>
              PopBlock(t) == Some(Popped(t', Reversed(chain[|chain| - 1].txs))) &&
              t.blocks != [] && t.blocks[|t.blocks| - 1] == chain[|chain| - 1].block
  {
    ReplaySound(chain);
    ReplayLinked(chain);
    if ok {
      PopBlockLinked(t);
    }
    if chain != [] {
      PopReplay(chain);
    }
    ReplayIndexed(chain');
    if ok && TopDroppedNew(chain) {
      PopIndexedReplay(chain);
    }
  }

  /** Every block from this height on was restorable when it was added. */
  ghost predicate RestorableDownTo(es: seq<Entry>, height: nat) {
    forall k | height < k <= |es| :: TopRestorable(es[..k])
  }

  /** The transactions of the blocks from this height on, last to first. */
  ghost function PoppedTxs(es: seq<Entry>, height: nat): seq<Transaction>
    decreases |es|
  {
    if |es| <= height then []
    else Reversed(es[|es| - 1].txs) + PoppedTxs(es[..|es| - 1], height)
  }

  /** After `i` pops from `es` down to this height, `chain` is left and `txs` are listed. */
  ghost predicate PoppedSoFar(es: seq<Entry>, height: nat, i: nat, chain: seq<Entry>, txs: seq<Transaction>) {
    && i <= |es| && chain == es[..|es| - i]
    && PoppedTxs(es, height) == txs + PoppedTxs(chain, height)
  }

  lemma PoppedNone(es: seq<Entry>, height: nat)
    ensures PoppedSoFar(es, height, 0, es, [])
  {
    assert es[..|es|] == es;
    assert [] + PoppedTxs(es, height) == PoppedTxs(es, height);
  }

  lemma NextRestorable(es: seq<Entry>, height: nat, i: nat)
    requires RestorableDownTo(es, height) && height < |es| - i
    ensures TopRestorable(es[..|es| - i])
  {
  }

  lemma PopOneMore(es: seq<Entry>, height: nat, i: nat, chain: seq<Entry>, txs: seq<Transaction>)
    requires PoppedSoFar(es, height, i, chain, txs) && height < |es| - i
    ensures PoppedSoFar(es, height, i + 1, chain[..|chain| - 1], txs + Reversed(chain[|chain| - 1].txs))
  {
    var top, rest := Reversed(chain[|chain| - 1].txs), PoppedTxs(chain[..|chain| - 1], height);
    assert txs + (top + rest) == (txs + top) + rest;
    assert chain[..|chain| - 1] == es[..|es| - (i + 1)];
  }

  lemma PoppedAll(es: seq<Entry>, height: nat, i: nat, chain: seq<Entry>, txs: seq<Transaction>)
    requires PoppedSoFar(es, height, i, chain, txs) && |es| - i == height
    ensures chain == es[..height] && txs == PoppedTxs(es, height)
  {
    assert txs + [] == txs;
  }

  class Store {
    var db: Tables

    /** The blocks in the store, oldest first. */
    ghost var chain: seq<Entry>

    /** The tables are what adding the blocks of the chain, in order, to an empty store produces. */
    ghost predicate Valid()
      reads this
    {
      Replayable(chain) && db == Replay(chain)
    }

    constructor ()
      ensures Valid() && chain == []
    {
      db, chain := EMPTY, [];
    }

    // ---------- single tables ----------

    method AddSpentKey(image: KeyImage) returns (ok: bool)
      modifies this`db
      ensures ok <==> image !in old(db).spent
      ensures db == old(db).(spent := old(db).spent + {image})
    {
      ok := image !in db.spent;
      db := db.(spent := db.spent + {image});
    }

    /** Removing an image that is not there is not an error. */
    method RemoveSpentKeys(vin: seq<TxIn>)
      modifies this`db
      ensures db == old(db).(spent := old(db).spent - Images(vin))
    {
      for i := 0 to |vin|
        invariant db == old(db).(spent := old(db).spent - Images(vin[..i]))
      {
        if vin[i].ToKey? {
          db := db.(spent := db.spent - {vin[i].image});
        }
        ImagesSnoc(vin, i);
        assert old(db).spent - Images(vin[..i]) - (if vin[i].ToKey? then {vin[i].image} else {}) ==
               old(db).spent - Images(vin[..i + 1]);
      }
      assert vin[..|vin|] == vin;
    }

    method AddTransactionData(tx: Transaction, hash: Hash) returns (ok: bool, id: nat)
      modifies this`db
      ensures ok <==> hash !in old(db).index && Below(old(db).rows, |old(db).rows|)
      ensures id == |old(db).rows|
      ensures ok ==> db == old(db).(index := old(db).index[hash := TxIndex(id, tx.unlockTime, |old(db).blocks|)],
                                    rows := old(db).rows[id := tx])
    {
      id := |db.rows|;
      if hash in db.index || !Below(db.rows, id) {
        return false, id;
      }
      db := db.(index := db.index[hash := TxIndex(id, tx.unlockTime, |db.blocks|)]);
      db := db.(rows := db.rows[id := tx]);
      ok := true;
    }

    method PutOutput(hash: Hash, out: TxOut, i: nat, unlockTime: nat, commitment: Commitment)
      returns (ok: bool, n: nat)
      modifies this`db
      ensures ok <==> && out.target.ToKeyTarget? && !(out.amount == 0 && commitment.NoCommitment?)
                      && Room(old(db).outs, out.amount)
      ensures ok ==> n == |BucketOf(old(db).outs.amounts, out.amount)|
      ensures ok ==>
        var outs, id := old(db).outs, |old(db).outs.txs|;
        var row := OutKey(id, out.target.key, unlockTime, |old(db).blocks|,
                          if out.amount == 0 then commitment else NoCommitment);
        db == old(db).(outs := Outputs(outs.txs[id := OutTx(hash, i)], Append(outs.amounts, out.amount, row)))
    {
      ok, n := false, 0;
      if out.target.OtherTarget? || (out.amount == 0 && commitment.NoCommitment?) {
        return;
      }
      var id := |db.outs.txs|;
      if !Below(db.outs.txs, id) {
        return;
      }
      var txs := db.outs.txs[id := OutTx(hash, i)];
      n := |BucketOf(db.outs.amounts, out.amount)|;
      if !Below(BucketOf(db.outs.amounts, out.amount), n) {
        return;
      }
      var row := OutKey(id, out.target.key, unlockTime, |db.blocks|,
                        if out.amount == 0 then commitment else NoCommitment);
      db := db.(outs := Outputs(txs, Append(db.outs.amounts, out.amount, row)));
      ok := true;
    }

    method TakeOutput(amount: Amount, index: nat) returns (ok: bool)
      modifies this`db
      ensures ok <==> RemoveOutput(old(db).outs, amount, index).Some?
      ensures ok ==> db == old(db).(outs := RemoveOutput(old(db).outs, amount, index).value)
    {
      var amounts := db.outs.amounts;
      if index !in BucketOf(amounts, amount) {
        return false;
      }
      var id := amounts[amount][index].outputId;
      if id !in db.outs.txs {
        return false;
      }
      db := db.(outs := Outputs(db.outs.txs - {id}, Delete(amounts, amount, index)));
      return true;
    }

    method RemoveTransactionData(hash: Hash, tx: Transaction) returns (ok: bool)
      requires GetTx(db, hash) == Some(tx)
      modifies this`db
      ensures var id := old(db).index[hash].txId;
              var indices := if id in old(db).outIndices then old(db).outIndices[id] else [];
              && (ok <==> |tx.vout| <= |indices| && RemoveOutputs(old(db).outs, tx, indices, |tx.vout|).Some?)
              && (ok ==> db == old(db).(index := old(db).index - {hash}, rows := old(db).rows - {id},
                                        outIndices := old(db).outIndices - {id},
                                        outs := RemoveOutputs(old(db).outs, tx, indices, |tx.vout|).value))
    {
      var id := db.index[hash].txId;
      db := db.(rows := db.rows - {id});
      var indices := if id in db.outIndices then db.outIndices[id] else [];
      if |indices| < |tx.vout| {
        return false;
      }
      var rct := tx.version >= 2 && |tx.vin| == 1 && tx.vin[0].Gen?;
      var i := |tx.vout|;
      while i > 0
        invariant 0 <= i <= |tx.vout|
        invariant db == old(db).(rows := old(db).rows - {id}, outs := db.outs)
        invariant RemoveOutputs(old(db).outs, tx, indices, |tx.vout|) == RemoveOutputs(db.outs, tx, indices, i)
      {
        i := i - 1;
        ok := TakeOutput(if rct then 0 else tx.vout[i].amount, indices[i]);
        if !ok {
          return false;
        }
      }
      db := db.(outIndices := db.outIndices - {id}, index := db.index - {hash});
      return true;
    }

    // ---------- transactions ----------

    /** Appends one output of a transaction; version 2 miner outputs go under amount 0. */
    method PutOutputOf(tx: Transaction, hash: Hash, i: nat, minerTx: bool) returns (ok: bool, n: nat)
      requires i < |tx.vout| && (minerTx <==> HasGen(tx))
      modifies this`db
      ensures ok <==> AddOutput(old(db).outs, hash, tx, i, |old(db).blocks|).Some?
      ensures ok ==> db == old(db).(outs := AddOutput(old(db).outs, hash, tx, i, |old(db).blocks|).value)
      ensures ok ==> n == |BucketOf(old(db).outs.amounts, StoredAmount(tx, i))|
    {
      if minerTx && tx.version == 2 {
        var commitment := ZeroCommit(tx.vout[i].amount);
        ok, n := PutOutput(hash, tx.vout[i].(amount := 0), i, tx.unlockTime, commitment);
      } else {
        ok, n := PutOutput(hash, tx.vout[i], i, tx.unlockTime,
                           if tx.version > 1 then Mask(tx.vout[i].mask) else NoCommitment);
      }
    }

    /** Appends the outputs of a transaction and returns their indices. */
    method PutOutputs(tx: Transaction, hash: Hash, minerTx: bool) returns (ok: bool, indices: seq<nat>)
      requires minerTx <==> HasGen(tx)
      modifies this`db
      ensures var added := AddOutputs(old(db).outs, hash, tx, |tx.vout|, |old(db).blocks|);
              && (ok <==> added.Some?)
              && (ok ==> db == old(db).(outs := added.value.outs) && indices == added.value.indices)
    {
      indices := [];
      for i := 0 to |tx.vout|
        invariant db == old(db).(outs := db.outs)
        invariant AddOutputs(old(db).outs, hash, tx, i, |db.blocks|) == Some(Adding(db.outs, indices))
      {
        var n;
        ok, n := PutOutputOf(tx, hash, i, minerTx);
        if !ok {
          AddOutputsFailed(old(db).outs, hash, tx, i + 1, |tx.vout|, |old(db).blocks|);
          return false, indices;
        }
        indices := indices + [n];
      }
      ok := true;
    }

    method AddTransaction(tx: Transaction, hash: Hash) returns (ok: bool)
      modifies this`db
      ensures ok <==> AddTx(old(db), tx, hash).Some?
      ensures ok ==> db == AddTx(old(db), tx, hash).value
    {
      var minerTx := false;
      for i := 0 to |tx.vin|
        invariant db == old(db).(spent := db.spent)
        invariant minerTx <==> exists j | 0 <= j < i :: tx.vin[j].Gen?
        invariant AddInputs(old(db).spent, tx.vin, 0) == AddInputs(db.spent, tx.vin, i)
      {
        match tx.vin[i]
        case ToKey(image) =>
          ok := AddSpentKey(image);
          if !ok {
            return false;
          }
        case Gen =>
          minerTx := true;
        case UnsupportedIn =>
          RemoveSpentKeys(tx.vin);
          return true;
      }
      var id, indices;
      ok, id := AddTransactionData(tx, hash);
      if !ok {
        return false;
      }
      ok, indices := PutOutputs(tx, hash, minerTx);
      if !ok {
        return false;
      }
      if !Below(db.outIndices, id) {
        return false;
      }
      db := db.(outIndices := db.outIndices[id := indices]);
      return true;
    }

    method RemoveTransaction(hash: Hash) returns (ok: bool)
      modifies this`db
      ensures ok <==> RemoveTx(old(db), hash).Some?
      ensures ok ==> db == RemoveTx(old(db), hash).value
    {
      var tx := GetTx(db, hash);
      if tx.None? {
        return false;
      }
      RemoveSpentKeys(tx.value.vin);
      ok := RemoveTransactionData(hash, tx.value);
    }

    // ---------- blocks ----------

    method PutBlock(b: Block, weight: nat, difficulty: nat, coins: nat, numRctOuts: nat, ghost e: Entry)
      returns (ok: bool)
      requires e.block == b && e.weight == weight && e.difficulty == difficulty && e.coins == coins
      requires numRctOuts == NumRctOuts(e)
      modifies this`db
      ensures ok <==> AddRow(old(db), e).Some?
      ensures ok ==> db == AddRow(old(db), e).value
    {
      var height := |db.blocks|;
      if b.hash in db.heights {
        return false;
      }
      if height > 0 {
        if b.prevId !in db.heights || db.heights[b.prevId] != height - 1 {
          return false;
        }
      }
      var cumulative := numRctOuts;
      if b.majorVersion >= 4 {
        if height == 0 || |db.infos| < height {
          return false;
        }
        cumulative := cumulative + db.infos[height - 1].cumulativeRct;
      }
      db := db.(blocks := db.blocks + [b]);
      db := db.(infos := db.infos + [BlockInfo(weight, difficulty, coins, cumulative, b.hash)]);
      db := db.(heights := db.heights[b.hash := height]);
      return true;
    }

    method CountZeros(vout: seq<TxOut>) returns (zeros: nat)
      ensures zeros == Zeros(vout)
    {
      zeros := 0;
      for k := 0 to |vout|
        invariant zeros == Zeros(vout[..k])
      {
        assert vout[..k + 1][..k] == vout[..k];
        if vout[k].amount == 0 {
          zeros := zeros + 1;
        }
      }
      assert vout[..|vout|] == vout;
    }

    /** Adds the transactions of a block and counts their zero-amount outputs. */
    method PutTxs(hashes: seq<Hash>, txs: seq<Transaction>) returns (ok: bool, zeros: nat)
      requires |hashes| == |txs|
      modifies this`db
      ensures ok <==> AddTxs(old(db), hashes, txs).Some?
      ensures ok ==> db == AddTxs(old(db), hashes, txs).value && zeros == ZerosOfAll(txs)
    {
      zeros := 0;
      for i := 0 to |txs|
        invariant AddTxs(old(db), hashes[..i], txs[..i]) == Some(db)
        invariant zeros == ZerosOfAll(txs[..i])
      {
        AddTxsSnoc(old(db), hashes, txs, i);
        assert txs[..i + 1][..i] == txs[..i];
        ok := AddTransaction(txs[i], hashes[i]);
        if !ok {
          AddTxsFailed(old(db), hashes, txs, i + 1);
          return false, zeros;
        }
        var more := CountZeros(txs[i].vout);
        zeros := zeros + more;
      }
      assert txs[..|txs|] == txs && hashes[..|txs|] == hashes;
      ok := true;
    }

    /** Adds the transactions and the row of a block inside one database transaction. */
    method PutAll(e: Entry) returns (ok: bool)
      requires |e.block.txHashes| == |e.txs|
      modifies this`db
      ensures ok <==> AddBlock(old(db), e).Some?
      ensures ok ==> db == AddBlock(old(db), e).value
    {
      var b, numRctOuts := e.block, 0;
      ok := AddTransaction(b.minerTx, b.minerHash);
      if !ok {
        return false;
      }
      if b.minerTx.version == 2 {
        numRctOuts := numRctOuts + |b.minerTx.vout|;
      }
      var zeros;
      ok, zeros := PutTxs(b.txHashes, e.txs);
      if !ok {
        return false;
      }
      numRctOuts := numRctOuts + zeros;
      ok := PutBlock(b, e.weight, e.difficulty, e.coins, numRctOuts, e);
    }

    /** Adds a block on top of the chain, or changes nothing. */
    method Add(e: Entry) returns (ok: bool, prevHeight: nat)
      modifies this
      ensures ok <==> AddBlock(old(db), e).Some?
      ensures chain == if ok then old(chain) + [e] else old(chain)
      ensures !ok ==> db == old(db)
      ensures old(Valid()) ==> Valid() && Indexed(db) && Linked(db) && prevHeight == |old(chain)|
      ensures old(Valid()) ==> (ok <==> Fits(old(db), e))
      ensures old(Valid()) && ok ==> RowRecords(db, prevHeight, e) && AllReadBack(db, e, prevHeight)
    {
      prevHeight := |db.blocks|;
      var saved := db;
      ok := |e.block.txHashes| == |e.txs|;
      if ok {
        ok := PutAll(e);
      }
      if ok {
        chain := chain + [e];
      } else {
        db := saved;
      }
      if old(Valid()) {
        AddKeeps(old(chain), e);
      }
    }

    /** Removes transactions from the last of `hashes` to the first, listing them in that order. */
    method TakeTxs(hashes: seq<Hash>) returns (ok: bool, txs: seq<Transaction>)
      modifies this`db
      ensures ok <==> RemoveTxs(old(db), hashes).Some?
      ensures ok ==> RemoveTxs(old(db), hashes) == Some(Popped(db, txs))
    {
      txs := [];
      var i := |hashes|;
      assert hashes[..i] == hashes;
      BeforeNothing(RemoveTxs(db, hashes));
      while i > 0
        invariant 0 <= i <= |hashes|
        invariant RemoveTxs(old(db), hashes) == Before(txs, RemoveTxs(db, hashes[..i]))
      {
        i := i - 1;
        assert hashes[..i + 1][..i] == hashes[..i];
        var tx := GetTx(db, hashes[i]);
        if tx.None? {
          return false, txs;
        }
        BeforeStep(txs, db, hashes[..i + 1]);
        txs := txs + [tx.value];
        ok := RemoveTransaction(hashes[i]);
        if !ok {
          return false, txs;
        }
      }
      BeforeEnd(txs, db, hashes);
      ok := true;
    }

    method TakeAll() returns (ok: bool, blk: Block, txs: seq<Transaction>)
      requires db.blocks != []
      modifies this`db
      ensures ok <==> PopBlock(old(db)).Some?
      ensures ok ==> PopBlock(old(db)) == Some(Popped(db, txs))
      ensures blk == old(db).blocks[|old(db).blocks| - 1]
    {
      blk, txs := db.blocks[|db.blocks| - 1], [];
      var row := RemoveRow(db);
      if row.None? {
        return false, blk, txs;
      }
      db := row.value;
      ok, txs := TakeTxs(blk.txHashes);
      if !ok {
        return false, blk, txs;
      }
      ok := RemoveTransaction(blk.minerHash);
    }

    /** Takes the newest block off the chain, or changes nothing. The tables still match the chain
        exactly if the block was restorable, and then it and its transactions in reverse are returned. */
    method Pop() returns (ok: bool, blk: Option<Block>, txs: seq<Transaction>)
      modifies this
      ensures ok <==> PopBlock(old(db)).Some?
      ensures chain == if ok && old(chain) != [] then old(chain)[..|old(chain)| - 1] else old(chain)
      ensures !ok ==> db == old(db)
      ensures old(Valid()) && ok ==> old(chain) != []
      ensures old(Valid()) ==> (Valid() <==> !ok || TopRestorable(old(chain)))
      ensures old(Valid()) && old(chain) != [] && TopRestorable(old(chain)) ==>
        ok && blk == Some(old(chain)[|old(chain)| - 1].block) && txs == Reversed(old(chain)[|old(chain)| - 1].txs)
      ensures old(Valid()) && Valid() ==> Indexed(db)
      ensures old(Valid()) && ok && TopDroppedNew(old(chain)) ==> (Indexed(db) <==> TopRestorable(old(chain)))
      ensures old(Valid()) ==> Linked(db)
    {
      var saved := db;
      ok, blk, txs := false, None, [];
      if db.blocks != [] {
        var b;
        ok, b, txs := TakeAll();
        blk := Some(b);
      }
      if !ok {
        db := saved;
      } else if chain != [] {
        chain := chain[..|chain| - 1];
      }
      if old(Valid()) {
        PopKeeps(old(chain), chain, old(db), db, ok);
      }
    }

    /** After `i` pops from `es` down to this height: the store matches what is left, and `txs` are
        listed. */
    ghost predicate PoppedFrom(es: seq<Entry>, height: nat, i: nat, txs: seq<Transaction>)
      reads this
    {
      Valid() && PoppedSoFar(es, height, i, chain, txs)
    }

    method PopNext(txs: seq<Transaction>, ghost es: seq<Entry>, ghost height: nat, ghost i: nat)
      returns (ok: bool, more: seq<Transaction>)
      modifies this
      ensures old(PoppedFrom(es, height, i, txs)) && RestorableDownTo(es, height) && height < |es| - i ==>
        ok && PoppedFrom(es, height, i + 1, txs + more)
      ensures old(PoppedFrom(es, height, i, txs)) && i == |es| ==> !ok && PoppedFrom(es, height, i, txs)
    {
      if PoppedFrom(es, height, i, txs) && RestorableDownTo(es, height) && height < |es| - i {
        NextRestorable(es, height, i);
        PopOneMore(es, height, i, chain, txs);
      }
      var blk;
      ok, blk, more := Pop();
    }

    /** Pops `num` blocks, until one fails. */
    method PopBlocks(num: nat) returns (ok: bool, txs: seq<Transaction>)
      modifies this
      ensures var n := |old(chain)|;
              var kept := if num <= n then n - num else 0;
              old(Valid()) && RestorableDownTo(old(chain), kept) ==>
                && Valid() && chain == old(chain)[..kept] && (ok <==> num <= n)
                && txs == PoppedTxs(old(chain), kept)
    {
      txs := [];
      ghost var es := chain;
      ghost var kept := if num <= |es| then |es| - num else 0;
      ghost var sure := Valid() && RestorableDownTo(es, kept);
      PoppedNone(es, kept);
      for i := 0 to num
        invariant sure ==> i <= |es| && PoppedFrom(es, kept, i, txs)
      {
        var more;
        ok, more := PopNext(txs, es, kept, i);
        if !ok {
          if sure {
            PoppedAll(es, kept, i, chain, txs);
          }
          return false, txs;
        }
        txs := txs + more;
      }
      if sure {
        PoppedAll(es, kept, num, chain, txs);
      }
      ok := true;
    }
  }
}
