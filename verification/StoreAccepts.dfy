/** When a transaction and a block can be added, told from what is to be added and what is stored, and
    what is recorded when they are. */
module StoreAccepts {
  import opened Optional
  import opened StoreTables
  import opened StoreSound
  import opened StoreUndo
  import opened StoreLinks

  // ---------- transactions ----------

  /** Before the first unsupported input no image is repeated or was spent. */
  ghost predicate ImagesFit(spent: set<KeyImage>, vin: seq<TxIn>) {
    var cut := FirstUnsupported(vin, 0);
    UnspentImages(spent, vin, 0, cut) && DistinctImages(vin, 0, cut)
  }

  /** Every output goes to a key, and below version 2 none has amount 0. */
  ghost predicate OutputsFit(tx: Transaction) {
    forall i | 0 <= i < |tx.vout| :: tx.vout[i].target.ToKeyTarget? && (tx.version > 1 || tx.vout[i].amount > 0)
  }

  /** The transaction can be added to a store with these images and hashes. One with an unsupported input
      is not looked at any further. */
  ghost predicate TxFits(spent: set<KeyImage>, hashes: set<Hash>, tx: Transaction, hash: Hash) {
    && ImagesFit(spent, tx.vin)
    && (UnsupportedIn !in tx.vin ==> hash !in hashes && OutputsFit(tx))
  }

  lemma StorableMeaning(tx: Transaction, i: nat)
    requires i < |tx.vout|
    ensures Storable(tx, i) <==> tx.vout[i].target.ToKeyTarget? && (tx.version > 1 || tx.vout[i].amount > 0)
  {
  }

  lemma SupportedMeaning(tx: Transaction)
    ensures Supported(tx) <==> UnsupportedIn !in tx.vin
  {
  }

  ghost predicate AllStorable(tx: Transaction, k: nat)
    requires k <= |tx.vout|
  {
    forall i | 0 <= i < k :: Storable(tx, i)
  }

  lemma AddOutputSucceeds(outs: Outputs, hash: Hash, tx: Transaction, i: nat, height: nat)
    requires DenseOutputs(outs) && i < |tx.vout|
    ensures AddOutput(outs, hash, tx, i, height).Some? <==> Storable(tx, i)
  {
    DenseRoom(outs, StoredAmount(tx, i));
  }

  /** In tables without holes all outputs can be stored exactly if each of them can. */
  lemma {:induction false} AddOutputsSucceeds(outs: Outputs, hash: Hash, tx: Transaction, k: nat, height: nat)
    requires DenseOutputs(outs) && k <= |tx.vout|
    ensures AddOutputs(outs, hash, tx, k, height).Some? <==> AllStorable(tx, k)
  {
    if k > 0 {
      var j, before := k - 1, AddOutputs(outs, hash, tx, k - 1, height);
      AddOutputsSucceeds(outs, hash, tx, j, height);
      assert AllStorable(tx, k) <==> AllStorable(tx, j) && Storable(tx, j);
      if before.Some? {
        AddOutputsSound(outs, hash, tx, j, height);
        AddOutputSucceeds(before.value.outs, hash, tx, j, height);
      }
    }
  }

  lemma OutputsStored(outs: Outputs, hash: Hash, tx: Transaction, height: nat)
    requires DenseOutputs(outs)
    ensures AddOutputs(outs, hash, tx, |tx.vout|, height).Some? <==> OutputsFit(tx)
  {
    AddOutputsSucceeds(outs, hash, tx, |tx.vout|, height);
    forall i | 0 <= i < |tx.vout|
      ensures Storable(tx, i) <==> tx.vout[i].target.ToKeyTarget? && (tx.version > 1 || tx.vout[i].amount > 0)
    {
      StorableMeaning(tx, i);
    }
  }

  /** Adding a transaction succeeds exactly if it fits. */
  lemma AddTxSucceeds(t: Tables, tx: Transaction, hash: Hash)
    requires Sound(t)
    ensures AddTx(t, tx, hash).Some? <==> TxFits(t.spent, t.index.Keys, tx, hash)
  {
    SupportedMeaning(tx);
    UnsupportedCut(tx);
    InputsOutcome(t.spent, tx.vin, 0);
    OutputsStored(t.outs, hash, tx, |t.blocks|);
    assert Below(t.rows, |t.rows|) && Below(t.outIndices, |t.rows|);
  }

  /** The images spent and the hashes stored after a transaction. */
  ghost function SpentAfter(spent: set<KeyImage>, tx: Transaction): set<KeyImage> {
    if UnsupportedIn in tx.vin then spent - Images(tx.vin) else spent + Images(tx.vin)
  }

  ghost function HashesAfter(hashes: set<Hash>, tx: Transaction, hash: Hash): set<Hash> {
    if UnsupportedIn in tx.vin then hashes else hashes + {hash}
  }

  lemma AddTxLeaves(t: Tables, tx: Transaction, hash: Hash)
    requires Sound(t) && AddTx(t, tx, hash).Some?
    ensures AddTx(t, tx, hash).value.spent == SpentAfter(t.spent, tx)
    ensures AddTx(t, tx, hash).value.index.Keys == HashesAfter(t.index.Keys, tx, hash)
  {
    SupportedMeaning(tx);
    AddTxIndex(t, tx, hash);
    if Supported(tx) {
      AddTxAccepted(t, tx, hash);
      AcceptedInputs(t.spent, tx.vin, 0);
      assert tx.vin[0..] == tx.vin;
    } else {
      UnsupportedLeavesNoTrace(t, tx, hash);
    }
  }

  // ---------- lists of transactions ----------

  ghost function SpentAfterAll(spent: set<KeyImage>, txs: seq<Transaction>): set<KeyImage> {
    if txs == [] then spent else SpentAfter(SpentAfterAll(spent, txs[..|txs| - 1]), txs[|txs| - 1])
  }

  ghost function HashesAfterAll(hashes: set<Hash>, txs: seq<Transaction>, listed: seq<Hash>): set<Hash>
    requires |txs| == |listed|
  {
    if txs == [] then hashes
    else
      var n := |txs| - 1;
      HashesAfter(HashesAfterAll(hashes, txs[..n], listed[..n]), txs[n], listed[n])
  }

  /** The transactions can be added one after the other. */
  ghost predicate TxsFit(spent: set<KeyImage>, hashes: set<Hash>, txs: seq<Transaction>, listed: seq<Hash>)
    requires |txs| == |listed|
  {
    txs == [] ||
    var n := |txs| - 1;
    && TxsFit(spent, hashes, txs[..n], listed[..n])
    && TxFits(SpentAfterAll(spent, txs[..n]), HashesAfterAll(hashes, txs[..n], listed[..n]), txs[n], listed[n])
  }

  lemma {:induction false} AddTxsSucceeds(t: Tables, listed: seq<Hash>, txs: seq<Transaction>)
    requires Sound(t) && |txs| == |listed|
    ensures AddTxs(t, listed, txs).Some? <==> TxsFit(t.spent, t.index.Keys, txs, listed)
    ensures AddTxs(t, listed, txs).Some? ==>
              && AddTxs(t, listed, txs).value.spent == SpentAfterAll(t.spent, txs)
              && AddTxs(t, listed, txs).value.index.Keys == HashesAfterAll(t.index.Keys, txs, listed)
    decreases |txs|
  {
    if txs != [] {
      var n := |txs| - 1;
      AddTxsSucceeds(t, listed[..n], txs[..n]);
      if AddTxs(t, listed[..n], txs[..n]).Some? {
        var t' := AddTxs(t, listed[..n], txs[..n]).value;
        AddTxsSound(t, listed[..n], txs[..n]);
        AddTxSucceeds(t', txs[n], listed[n]);
        if AddTx(t', txs[n], listed[n]).Some? {
          AddTxLeaves(t', txs[n], listed[n]);
        }
      }
    }
  }

  // ---------- blocks ----------

  /** The block comes next: its hash is new, its parent is the newest block, and from version 4 on there
      is one. */
  ghost predicate ComesNext(blocks: seq<Block>, b: Block) {
    && (forall i | 0 <= i < |blocks| :: blocks[i].hash != b.hash)
    && (blocks != [] ==> blocks[|blocks| - 1].hash == b.prevId)
    && (b.majorVersion >= 4 ==> blocks != [])
  }

  ghost predicate Fits(t: Tables, e: Entry) {
    var b, hashes := e.block, t.index.Keys;
    && |b.txHashes| == |e.txs|
    && TxFits(t.spent, hashes, b.minerTx, b.minerHash)
    && TxsFit(SpentAfter(t.spent, b.minerTx), HashesAfter(hashes, b.minerTx, b.minerHash), e.txs, b.txHashes)
    && ComesNext(t.blocks, b)
  }

  lemma AddRowSucceeds(t: Tables, e: Entry)
    requires Linked(t)
    ensures AddRow(t, e).Some? <==> ComesNext(t.blocks, e.block)
  {
    var b, n := e.block, |t.blocks|;
    assert b.hash in t.heights <==> exists i :: 0 <= i < n && t.blocks[i].hash == b.hash;
    if n > 0 {
      assert t.heights[t.blocks[n - 1].hash] == n - 1;
    }
  }

  /** Adding a block succeeds exactly if it comes next and its transactions can be added one after the
      other. */
  lemma AddBlockSucceeds(t: Tables, e: Entry)
    requires Sound(t) && Linked(t)
    ensures AddBlock(t, e).Some? <==> Fits(t, e)
  {
    var b := e.block;
    AddTxSucceeds(t, b.minerTx, b.minerHash);
    if |b.txHashes| == |e.txs| && AddTx(t, b.minerTx, b.minerHash).Some? {
      var t1 := AddTx(t, b.minerTx, b.minerHash).value;
      AddTxSound(t, b.minerTx, b.minerHash);
      AddTxLeaves(t, b.minerTx, b.minerHash);
      AddTxsSucceeds(t1, b.txHashes, e.txs);
      if AddTxs(t1, b.txHashes, e.txs).Some? {
        AddTxsKeepBlocks(t1, b.txHashes, e.txs);
        AddRowSucceeds(AddTxs(t1, b.txHashes, e.txs).value, e);
      }
    }
  }

  // ---------- what is recorded ----------

  /** Block `e` is stored at this height with what was given for it. */
  ghost predicate RowRecords(t: Tables, height: nat, e: Entry) {
    && height < |t.blocks| && height < |t.infos| && t.blocks[height] == e.block
    && t.infos[height].weight == e.weight && t.infos[height].difficulty == e.difficulty
    && t.infos[height].coins == e.coins && t.infos[height].hash == e.block.hash
  }

  lemma AddBlockRecords(t: Tables, e: Entry)
    requires |t.infos| == |t.blocks| && AddBlock(t, e).Some?
    ensures RowRecords(AddBlock(t, e).value, |t.blocks|, e)
    ensures t.blocks <= AddBlock(t, e).value.blocks && t.infos <= AddBlock(t, e).value.infos
  {
    AddBlockParts(t, e);
  }

  /** The transaction can be read back under its hash, with the height of its block and its unlock time. */
  ghost predicate ReadBack(t: Tables, hash: Hash, tx: Transaction, height: nat) {
    && hash in t.index && t.index[hash].blockId == height && t.index[hash].unlockTime == tx.unlockTime
    && GetTx(t, hash) == Some(tx)
  }

  lemma AddTxReadBack(t: Tables, tx: Transaction, hash: Hash)
    requires Sound(t) && Supported(tx) && AddTx(t, tx, hash).Some?
    ensures ReadBack(AddTx(t, tx, hash).value, hash, tx, |t.blocks|)
  {
    AddTxAccepted(t, tx, hash);
  }

  /** Adding another transaction leaves it as it is. */
  lemma ReadBackKept(t: Tables, tx: Transaction, hash: Hash, h: Hash, u: Transaction, height: nat)
    requires Sound(t) && AddTx(t, tx, hash).Some? && ReadBack(t, h, u, height)
    ensures ReadBack(AddTx(t, tx, hash).value, h, u, height)
  {
    if Supported(tx) {
      AddTxAccepted(t, tx, hash);
    } else {
      UnsupportedLeavesNoTrace(t, tx, hash);
    }
  }

  lemma {:induction false} AllKept(t: Tables, listed: seq<Hash>, txs: seq<Transaction>, h: Hash, u: Transaction,
                                   height: nat)
    requires Sound(t) && |listed| == |txs| && AddTxs(t, listed, txs).Some? && ReadBack(t, h, u, height)
    ensures ReadBack(AddTxs(t, listed, txs).value, h, u, height)
    decreases |txs|
  {
    if txs != [] {
      var n := |txs| - 1;
      AllKept(t, listed[..n], txs[..n], h, u, height);
      AddTxsSound(t, listed[..n], txs[..n]);
      ReadBackKept(AddTxs(t, listed[..n], txs[..n]).value, txs[n], listed[n], h, u, height);
    }
  }

  lemma {:induction false} AddTxsReadBack(t: Tables, listed: seq<Hash>, txs: seq<Transaction>, i: nat)
    requires Sound(t) && |listed| == |txs| && AddTxs(t, listed, txs).Some? && i < |txs| && Supported(txs[i])
    ensures ReadBack(AddTxs(t, listed, txs).value, listed[i], txs[i], |t.blocks|)
    decreases |txs|
  {
    var n := |txs| - 1;
    var t' := AddTxs(t, listed[..n], txs[..n]).value;
    AddTxsSound(t, listed[..n], txs[..n]);
    AddTxsKeepBlocks(t, listed[..n], txs[..n]);
    if i == n {
      AddTxReadBack(t', txs[n], listed[n]);
    } else {
      AddTxsReadBack(t, listed[..n], txs[..n], i);
      ReadBackKept(t', txs[n], listed[n], listed[i], txs[i], |t.blocks|);
    }
  }

  /** Every transaction of the block that was not dropped can be read back. */
  ghost predicate AllReadBack(t: Tables, e: Entry, height: nat) {
    && (Supported(e.block.minerTx) ==> ReadBack(t, e.block.minerHash, e.block.minerTx, height))
    && forall i | 0 <= i < |e.txs| && i < |e.block.txHashes| && Supported(e.txs[i]) ::
         ReadBack(t, e.block.txHashes[i], e.txs[i], height)
  }

  lemma AddBlockKeeps(t: Tables, e: Entry, h: Hash, u: Transaction, height: nat)
    requires Sound(t) && AddBlock(t, e).Some? && ReadBack(t, h, u, height)
    ensures ReadBack(AddBlock(t, e).value, h, u, height)
  {
    AddBlockParts(t, e);
    var b := e.block;
    AddTxSound(t, b.minerTx, b.minerHash);
    ReadBackKept(t, b.minerTx, b.minerHash, h, u, height);
    AllKept(AddTx(t, b.minerTx, b.minerHash).value, b.txHashes, e.txs, h, u, height);
  }

  lemma AddBlockReadBack(t: Tables, e: Entry)
    requires Sound(t) && AddBlock(t, e).Some?
    ensures AllReadBack(AddBlock(t, e).value, e, |t.blocks|)
  {
    AddBlockParts(t, e);
    var b, t3 := e.block, AddBlock(t, e).value;
    var t1 := AddTx(t, b.minerTx, b.minerHash).value;
    AddTxSound(t, b.minerTx, b.minerHash);
    if Supported(b.minerTx) {
      AddTxReadBack(t, b.minerTx, b.minerHash);
      AllKept(t1, b.txHashes, e.txs, b.minerHash, b.minerTx, |t.blocks|);
    }
    forall i | 0 <= i < |e.txs| && i < |b.txHashes| && Supported(e.txs[i])
      ensures ReadBack(t3, b.txHashes[i], e.txs[i], |t.blocks|)
    {
      AddTxsReadBack(t1, b.txHashes, e.txs, i);
    }
  }

  lemma RecordsKept(t: Tables, e: Entry, earlier: Entry, i: nat)
    requires Sound(t) && AddBlock(t, e).Some? && RowRecords(t, i, earlier) && AllReadBack(t, earlier, i)
    ensures RowRecords(AddBlock(t, e).value, i, earlier) && AllReadBack(AddBlock(t, e).value, earlier, i)
  {
    AddBlockRecords(t, e);
    var b := earlier.block;
    if Supported(b.minerTx) {
      AddBlockKeeps(t, e, b.minerHash, b.minerTx, i);
    }
    forall k | 0 <= k < |earlier.txs| && k < |b.txHashes| && Supported(earlier.txs[k])
      ensures ReadBack(AddBlock(t, e).value, b.txHashes[k], earlier.txs[k], i)
    {
      AddBlockKeeps(t, e, b.txHashes[k], earlier.txs[k], i);
    }
  }

  /** Whatever blocks have been stored, each stands at its height with what was given for it, and its
      transactions can be read back. */
  lemma {:induction false} ReplayRecords(es: seq<Entry>, i: nat)
    requires Replayable(es) && i < |es|
    ensures RowRecords(Replay(es), i, es[i]) && AllReadBack(Replay(es), es[i], i)
  {
    var init, e, t := es[..|es| - 1], es[|es| - 1], Replay(es);
    ReplaySound(init);
    assert AddBlock(Replay(init), e) == Some(t);
    AddBlockRecords(Replay(init), e);
    if i == |es| - 1 {
      AddBlockReadBack(Replay(init), e);
    } else {
      ReplayRecords(init, i);
      assert init[i] == es[i];
      RecordsKept(Replay(init), e, es[i], i);
    }
  }

  /** In every state reached by popping only restorable blocks, this holds of every surviving block. */
  lemma ReachableRecords(ops: seq<Op>, i: nat)
    requires PopsRestorable(ops) && i < |Survivors(ops)|
    ensures RowRecords(RunOps(ops), i, Survivors(ops)[i]) && AllReadBack(RunOps(ops), Survivors(ops)[i], i)
  {
    HistoryIndependence(ops);
    SurvivorsReplayable(ops);
    ReplayRecords(Survivors(ops), i);
  }
}
