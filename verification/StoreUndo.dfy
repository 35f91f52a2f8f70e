/** Removing is the inverse of adding, for transactions and blocks: exactly when, and what that means
    for whole histories of the store. */
module StoreUndo {
  import opened Optional
  import opened StoreTables
  import opened StoreSound
  import opened StoreSlots

  // ---------- transactions ----------

  function StoredAmounts(tx: Transaction): seq<Amount> {
    StoredUpTo(tx, |tx.vout|)
  }

  function LookedAmounts(tx: Transaction): seq<Amount> {
    RemovedUpTo(tx, |tx.vout|)
  }

  /** The places named by the amounts `named`, with the indices that storing under `stored` gives. */
  function Places(amounts: Amounts, named: seq<Amount>, stored: seq<Amount>): (slots: seq<Slot>)
    requires |named| == |stored|
    ensures |slots| == |named|
  {
    Slots(named, Indices(amounts, stored))
  }

  lemma PlacesConcat(amounts: Amounts, amounts': Amounts, named: seq<Amount>, stored: seq<Amount>,
                     named': seq<Amount>, stored': seq<Amount>)
    requires |named| == |stored| && |named'| == |stored'| && Longer(amounts, amounts', stored)
    ensures Places(amounts, named + named', stored + stored') ==
            Places(amounts, named, stored) + Places(amounts', named', stored')
  {
    IndicesConcat(amounts, amounts', stored, stored');
    SlotsConcat(named, Indices(amounts, stored), named', Indices(amounts', stored'));
  }

  ghost function WithOutputs(t: Tables, outs: Option<Outputs>): Option<Tables> {
    match outs
    case None => None
    case Some(o) => Some(t.(outs := o))
  }

  lemma PutInTakenOut(t: Tables, tx: Transaction, hash: Hash, spent: set<KeyImage>, a: Adding, outs: Outputs)
    requires Sound(t) && hash !in t.index && spent - Images(tx.vin) == t.spent
    ensures TakenOut(PutIn(t, tx, hash, spent, a), hash, tx, outs) == t.(outs := outs)
  {
    var id := |t.rows|;
    InsertUndone(t.index, hash, TxIndex(id, tx.unlockTime, |t.blocks|));
    InsertUndone(t.rows, id, tx);
    InsertUndone(t.outIndices, id, a.indices);
  }

  lemma RemovePutIn(t: Tables, tx: Transaction, hash: Hash, spent: set<KeyImage>, a: Adding, outs: Outputs)
    requires Sound(t) && hash !in t.index && spent - Images(tx.vin) == t.spent && |a.indices| == |tx.vout|
    ensures var t' := PutIn(t, tx, hash, spent, a).(outs := outs);
            && GetTx(t', hash) == Some(tx)
            && RemoveTx(t', hash) == WithOutputs(t, RemoveOutputs(outs, tx, a.indices, |tx.vout|))
  {
    var put, t' := PutIn(t, tx, hash, spent, a), PutIn(t, tx, hash, spent, a).(outs := outs);
    var removed := RemoveOutputs(outs, tx, a.indices, |tx.vout|);
    if removed.Some? {
      PutInTakenOut(t, tx, hash, spent, a, removed.value);
      assert TakenOut(t', hash, tx, removed.value) == TakenOut(put, hash, tx, removed.value);
    }
  }

  /** The indices a transaction was given name the places its outputs are looked up in. */
  lemma LookedPlaces(before: Outputs, hash: Hash, tx: Transaction, height: nat, outs: Outputs)
    requires DenseOutputs(before) && AddOutputs(before, hash, tx, |tx.vout|, height).Some?
    ensures var indices := AddOutputs(before, hash, tx, |tx.vout|, height).value.indices;
            && |indices| == |tx.vout|
            && RemoveOutputs(outs, tx, indices, |tx.vout|) ==
               RemoveSlots(outs, Places(before.amounts, LookedAmounts(tx), StoredAmounts(tx)))
  {
    var indices := AddOutputs(before, hash, tx, |tx.vout|, height).value.indices;
    AddOutputsAppended(before, hash, tx, |tx.vout|, height);
    RemoveOutputsSlots(outs, tx, indices, |tx.vout|);
    assert indices[..|tx.vout|] == indices;
  }

  /** Whatever has happened to the outputs since, removing the transaction added last restores all other
      tables and empties the places its outputs are looked up in. */
  lemma RemoveAfterAdd(t: Tables, tx: Transaction, hash: Hash, outs: Outputs)
    requires Sound(t) && Supported(tx) && AddTx(t, tx, hash).Some?
    ensures var t' := AddTx(t, tx, hash).value.(outs := outs);
            && GetTx(t', hash) == Some(tx)
            && RemoveTx(t', hash) ==
               WithOutputs(t, RemoveSlots(outs, Places(t.outs.amounts, LookedAmounts(tx), StoredAmounts(tx))))
  {
    AddTxAccepted(t, tx, hash);
    var n := |tx.vout|;
    var a := AddOutputs(t.outs, hash, tx, n, |t.blocks|).value;
    var spent := AddInputs(t.spent, tx.vin, 0).spent;
    LookedPlaces(t.outs, hash, tx, |t.blocks|, outs);
    RemovePutIn(t, tx, hash, spent, a, outs);
  }

  /** Adding a transaction fills the places foretold by the lengths of the lists. */
  lemma AddTxAppended(t: Tables, tx: Transaction, hash: Hash)
    requires Sound(t) && Supported(tx) && AddTx(t, tx, hash).Some?
    ensures var outs' := AddTx(t, tx, hash).value.outs;
            && Appended(t.outs, outs', Places(t.outs.amounts, StoredAmounts(tx), StoredAmounts(tx)))
            && Longer(t.outs.amounts, outs'.amounts, StoredAmounts(tx))
            && DenseOutputs(outs')
  {
    AddTxAccepted(t, tx, hash);
    AddOutputsAppended(t.outs, hash, tx, |tx.vout|, |t.blocks|);
    AddOutputsLonger(t.outs, hash, tx, |tx.vout|, |t.blocks|);
  }

  /** Both tests put every output of the transaction under the same amount. */
  ghost predicate AmountsAgree(tx: Transaction) {
    forall i | 0 <= i < |tx.vout| :: StoredAmount(tx, i) == RemovedAmount(tx, i)
  }

  lemma AgreeMeansEqual(tx: Transaction)
    ensures AmountsAgree(tx) <==> LookedAmounts(tx) == StoredAmounts(tx)
  {
    if LookedAmounts(tx) == StoredAmounts(tx) {
      forall i | 0 <= i < |tx.vout| ensures StoredAmount(tx, i) == RemovedAmount(tx, i) {
        assert LookedAmounts(tx)[i] == StoredAmounts(tx)[i];
      }
    }
  }

  lemma DistinctPlaces(outs: Outputs, outs': Outputs, slots: seq<Slot>)
    requires Appended(outs, outs', slots)
    ensures AllDifferent(slots)
  {
    forall i, j | 0 <= i < |slots| && 0 <= j < |slots| && slots[i] == slots[j] ensures i == j {
      assert IdAt(outs', slots[i]) == IdAt(outs', slots[j]);
    }
  }

  /** If every place filled is among those looked up, the two tests agree: they differ only when one of
      them says 0 throughout. */
  lemma StoredLookedUpAgree(amounts: Amounts, tx: Transaction)
    requires var stored, looked := StoredAmounts(tx), LookedAmounts(tx);
             && (forall i | 0 <= i < |stored| :: Places(amounts, stored, stored)[i] in Places(amounts, looked, stored))
             && AllDifferent(Places(amounts, stored, stored))
    ensures AmountsAgree(tx)
  {
    var stored, looked := StoredAmounts(tx), LookedAmounts(tx);
    var filled, searched := Places(amounts, stored, stored), Places(amounts, looked, stored);
    forall i | 0 <= i < |tx.vout| ensures StoredAmount(tx, i) == RemovedAmount(tx, i) {
      assert filled[i] in searched;
      var j :| 0 <= j < |searched| && searched[j] == filled[i];
      if StoredAsRct(tx) {
        assert filled[j] == filled[i];
        assert j == i;
      }
    }
  }

  /** Removing a transaction right after adding it restores every table exactly if storing and
      removing agree on where its outputs are. */
  lemma AddTxUndone(t: Tables, tx: Transaction, hash: Hash)
    requires Sound(t) && Supported(tx) && AddTx(t, tx, hash).Some?
    ensures GetTx(AddTx(t, tx, hash).value, hash) == Some(tx)
    ensures RemoveTx(AddTx(t, tx, hash).value, hash) == Some(t) <==> AmountsAgree(tx)
  {
    var t', amounts := AddTx(t, tx, hash).value, t.outs.amounts;
    var filled := Places(amounts, StoredAmounts(tx), StoredAmounts(tx));
    var searched := Places(amounts, LookedAmounts(tx), StoredAmounts(tx));
    RemoveAfterAdd(t, tx, hash, t'.outs);
    assert t'.(outs := t'.outs) == t';
    AddTxAppended(t, tx, hash);
    RestoredIff(t.outs, t'.outs, filled, searched);
    AgreeMeansEqual(tx);
    if Elements(searched) == Elements(filled) {
      DistinctPlaces(t.outs, t'.outs, filled);
      forall i | 0 <= i < |filled| ensures filled[i] in searched {
        assert filled[i] in Elements(filled);
      }
      StoredLookedUpAgree(amounts, tx);
    }
  }

  // ---------- each output is the last of its amount when it is removed ----------

  /** Removes outputs n-1, ..., k of `tx`. */
  ghost function RemoveDownTo(outs: Outputs, tx: Transaction, indices: seq<nat>, k: nat, n: nat): Option<Outputs>
    requires k <= n <= |tx.vout| && n <= |indices|
    decreases n
  {
    if n == k then Some(outs)
    else match RemoveOutput(outs, RemovedAmount(tx, n - 1), indices[n - 1])
      case None => None
      case Some(outs') => RemoveDownTo(outs', tx, indices, k, n - 1)
  }

  lemma {:induction false} RemoveTheRest(outs: Outputs, tx: Transaction, indices: seq<nat>, k: nat, n: nat)
    requires k <= n <= |tx.vout| && n <= |indices|
    ensures RemoveOutputs(outs, tx, indices, n) == match RemoveDownTo(outs, tx, indices, k, n)
                                                   case None => None
                                                   case Some(outs') => RemoveOutputs(outs', tx, indices, k)
    decreases n
  {
    if n > k {
      var removed := RemoveOutput(outs, RemovedAmount(tx, n - 1), indices[n - 1]);
      if removed.Some? {
        RemoveTheRest(removed.value, tx, indices, k, n - 1);
      }
    }
  }

  lemma OutputUndone(a: Adding, a': Adding, hash: Hash, tx: Transaction, k: nat, height: nat)
    requires OneMore(a, a', hash, tx, k, height) && DenseOutputs(a.outs)
    ensures a'.indices[k] + 1 == |BucketOf(a'.outs.amounts, StoredAmount(tx, k))|
    ensures RemoveOutput(a'.outs, StoredAmount(tx, k), a'.indices[k]) == Some(a.outs)
  {
    var amount := StoredAmount(tx, k);
    var bucket, row := BucketOf(a.outs.amounts, amount), OutKeyOf(tx, k, |a.outs.txs|, height);
    AppendLonger(a.outs.amounts, amount, row);
    InsertUndone(a.outs.txs, |a.outs.txs|, OutTx(hash, k));
    InsertUndone(bucket, |bucket|, row);
    assert Delete(a'.outs.amounts, amount, |bucket|) == a.outs.amounts;
  }

  lemma RemovedOneMore(a: Adding, a': Adding, hash: Hash, tx: Transaction, indices: seq<nat>,
                       k: nat, n: nat, height: nat)
    requires OneMore(a, a', hash, tx, n, height) && DenseOutputs(a.outs) && AmountsAgree(tx)
    requires k <= n && a'.indices <= indices
    ensures RemoveDownTo(a'.outs, tx, indices, k, n + 1) == RemoveDownTo(a.outs, tx, indices, k, n)
    ensures indices[n] + 1 == |BucketOf(a'.outs.amounts, RemovedAmount(tx, n))|
    ensures a.indices <= indices
  {
    OutputUndone(a, a', hash, tx, n, height);
    assert indices[n] == a'.indices[n] && StoredAmount(tx, n) == RemovedAmount(tx, n);
  }

  lemma {:induction false} UndoneDownTo(outs: Outputs, hash: Hash, tx: Transaction, indices: seq<nat>,
                                        k: nat, n: nat, height: nat)
    requires DenseOutputs(outs) && AmountsAgree(tx) && k <= n <= |tx.vout| && n <= |indices|
    requires AddOutputs(outs, hash, tx, n, height).Some?
    requires AddOutputs(outs, hash, tx, n, height).value.indices <= indices
    ensures AddOutputs(outs, hash, tx, k, height).Some?
    ensures AddOutputs(outs, hash, tx, k, height).value.indices <= indices
    ensures RemoveDownTo(AddOutputs(outs, hash, tx, n, height).value.outs, tx, indices, k, n) ==
            Some(AddOutputs(outs, hash, tx, k, height).value.outs)
    decreases n
  {
    if k < n {
      var j, a' := n - 1, AddOutputs(outs, hash, tx, n, height).value;
      AddOutputsStep(outs, hash, tx, j, height);
      AddOutputsSound(outs, hash, tx, j, height);
      var a := AddOutputs(outs, hash, tx, j, height).value;
      RemovedOneMore(a, a', hash, tx, indices, k, j, height);
      UndoneDownTo(outs, hash, tx, indices, k, j, height);
    }
  }

  /** Where both tests agree, removing outputs |vout|-1, ..., k leads back to the tables with the first
      `k` outputs, and there output k-1, which is removed next, is the last of its amount. */
  lemma LastOfItsAmount(outs: Outputs, hash: Hash, tx: Transaction, k: nat, height: nat)
    requires DenseOutputs(outs) && AmountsAgree(tx) && k <= |tx.vout|
    requires AddOutputs(outs, hash, tx, |tx.vout|, height).Some?
    ensures var all, some := AddOutputs(outs, hash, tx, |tx.vout|, height), AddOutputs(outs, hash, tx, k, height);
            && |all.value.indices| == |tx.vout| && some.Some?
            && RemoveDownTo(all.value.outs, tx, all.value.indices, k, |tx.vout|) == Some(some.value.outs)
            && RemoveOutputs(all.value.outs, tx, all.value.indices, |tx.vout|) ==
               RemoveOutputs(some.value.outs, tx, all.value.indices, k)
            && (k > 0 ==> all.value.indices[k - 1] + 1 == |BucketOf(some.value.outs.amounts, RemovedAmount(tx, k - 1))|)
  {
    AddOutputsIndices(outs, hash, tx, |tx.vout|, height);
    var indices := AddOutputs(outs, hash, tx, |tx.vout|, height).value.indices;
    UndoneDownTo(outs, hash, tx, indices, k, |tx.vout|, height);
    RemoveTheRest(AddOutputs(outs, hash, tx, |tx.vout|, height).value.outs, tx, indices, k, |tx.vout|);
    if k > 0 {
      var j, a' := k - 1, AddOutputs(outs, hash, tx, k, height).value;
      AddOutputsStep(outs, hash, tx, j, height);
      AddOutputsSound(outs, hash, tx, j, height);
      RemovedOneMore(AddOutputs(outs, hash, tx, j, height).value, a', hash, tx, indices, j, j, height);
    }
  }

  // ---------- blocks ----------

  ghost function Reversed(txs: seq<Transaction>): seq<Transaction> {
    if txs == [] then [] else [txs[|txs| - 1]] + Reversed(txs[..|txs| - 1])
  }

  lemma {:induction false} ReversedAt(txs: seq<Transaction>, k: nat)
    requires k < |txs|
    ensures |Reversed(txs)| == |txs| && Reversed(txs)[k] == txs[|txs| - 1 - k]
  {
    if |txs| > 1 {
      ReversedAt(txs[..|txs| - 1], if k > 0 then k - 1 else 0);
    }
  }

  function StoredOfAll(txs: seq<Transaction>): seq<Amount> {
    if txs == [] then [] else StoredOfAll(txs[..|txs| - 1]) + StoredAmounts(txs[|txs| - 1])
  }

  function LookedOfAll(txs: seq<Transaction>): (looked: seq<Amount>)
    ensures |looked| == |StoredOfAll(txs)|
  {
    if txs == [] then [] else LookedOfAll(txs[..|txs| - 1]) + LookedAmounts(txs[|txs| - 1])
  }

  lemma LongerConcat(a: Amounts, b: Amounts, c: Amounts, xs: seq<Amount>, ys: seq<Amount>)
    requires Longer(a, b, xs) && Longer(b, c, ys)
    ensures Longer(a, c, xs + ys)
  {
    forall x ensures |BucketOf(c, x)| == |BucketOf(a, x)| + Count(xs + ys, x) {
      CountConcat(xs, ys, x);
    }
  }

  ghost predicate AllSupported(txs: seq<Transaction>) {
    forall i | 0 <= i < |txs| :: Supported(txs[i])
  }

  lemma BothAppended(a: Outputs, b: Outputs, c: Outputs, xs: seq<Amount>, ys: seq<Amount>)
    requires Appended(a, b, Places(a.amounts, xs, xs)) && Longer(a.amounts, b.amounts, xs)
    requires Appended(b, c, Places(b.amounts, ys, ys)) && Longer(b.amounts, c.amounts, ys)
    ensures Appended(a, c, Places(a.amounts, xs + ys, xs + ys)) && Longer(a.amounts, c.amounts, xs + ys)
  {
    PlacesConcat(a.amounts, b.amounts, xs, xs, ys, ys);
    AppendedConcat(a, b, c, Places(a.amounts, xs, xs), Places(b.amounts, ys, ys));
    LongerConcat(a.amounts, b.amounts, c.amounts, xs, ys);
  }

  lemma {:induction false} AddTxsAppended(t: Tables, hashes: seq<Hash>, txs: seq<Transaction>)
    requires Sound(t) && |hashes| == |txs| && AddTxs(t, hashes, txs).Some? && AllSupported(txs)
    ensures var outs', stored := AddTxs(t, hashes, txs).value.outs, StoredOfAll(txs);
            && Appended(t.outs, outs', Places(t.outs.amounts, stored, stored))
            && Longer(t.outs.amounts, outs'.amounts, stored)
    decreases |txs|
  {
    if txs != [] {
      var n, t'' := |txs| - 1, AddTxs(t, hashes, txs).value;
      AddTxsAppended(t, hashes[..n], txs[..n]);
      AddTxsSound(t, hashes[..n], txs[..n]);
      var t' := AddTxs(t, hashes[..n], txs[..n]).value;
      assert AddTx(t', txs[n], hashes[n]) == Some(t'') && Supported(txs[n]);
      AddTxAppended(t', txs[n], hashes[n]);
      BothAppended(t.outs, t'.outs, t''.outs, StoredOfAll(txs[..n]), StoredAmounts(txs[n]));
    }
  }

  ghost function PoppedWith(t: Tables, outs: Option<Outputs>, txs: seq<Transaction>): Option<Popped> {
    match outs
    case None => None
    case Some(o) => Some(Popped(t.(outs := o), txs))
  }

  lemma RemoveOneMoreTx(t'': Tables, t': Tables, hashes: seq<Hash>, tx: Transaction,
                        t: Tables, outs: Option<Outputs>, txs: seq<Transaction>)
    requires hashes != [] && GetTx(t'', hashes[|hashes| - 1]) == Some(tx)
    requires RemoveTx(t'', hashes[|hashes| - 1]) == Some(t')
    requires RemoveTxs(t', hashes[..|hashes| - 1]) == PoppedWith(t, outs, txs)
    ensures RemoveTxs(t'', hashes) == PoppedWith(t, outs, [tx] + txs)
  {
  }

  /** Removing a block's transactions in reverse restores all other tables and empties the places their
      outputs are looked up in. */
  lemma {:induction false} RemoveTxsAfterAdd(t: Tables, hashes: seq<Hash>, txs: seq<Transaction>, outs: Outputs)
    requires Sound(t) && |hashes| == |txs| && AddTxs(t, hashes, txs).Some? && AllSupported(txs)
    ensures RemoveTxs(AddTxs(t, hashes, txs).value.(outs := outs), hashes) ==
            PoppedWith(t, RemoveSlots(outs, Places(t.outs.amounts, LookedOfAll(txs), StoredOfAll(txs))), Reversed(txs))
    decreases |txs|
  {
    if txs != [] {
      var n, tx, hash, t'' := |txs| - 1, txs[|txs| - 1], hashes[|txs| - 1], AddTxs(t, hashes, txs).value;
      var t' := AddTxs(t, hashes[..n], txs[..n]).value;
      AddTxsSound(t, hashes[..n], txs[..n]);
      AddTxsAppended(t, hashes[..n], txs[..n]);
      assert AddTx(t', tx, hash) == Some(t'') && Supported(tx);
      RemoveAfterAdd(t', tx, hash, outs);
      var before := Places(t.outs.amounts, LookedOfAll(txs[..n]), StoredOfAll(txs[..n]));
      var last := Places(t'.outs.amounts, LookedAmounts(tx), StoredAmounts(tx));
      PlacesConcat(t.outs.amounts, t'.outs.amounts, LookedOfAll(txs[..n]), StoredOfAll(txs[..n]),
                   LookedAmounts(tx), StoredAmounts(tx));
      RemoveSlotsConcat(outs, before, last);
      var t1 := t''.(outs := outs);
      if RemoveSlots(outs, last).Some? {
        var o := RemoveSlots(outs, last).value;
        RemoveTxsAfterAdd(t, hashes[..n], txs[..n], o);
        RemoveOneMoreTx(t1, t'.(outs := o), hashes, tx, t, RemoveSlots(o, before), Reversed(txs[..n]));
      }
    }
  }

  lemma AddRowUndone(t: Tables, e: Entry)
    requires |t.infos| == |t.blocks| && AddRow(t, e).Some?
    ensures RemoveRow(AddRow(t, e).value) == Some(t)
    ensures AddRow(t, e).value.blocks == t.blocks + [e.block]
  {
    InsertUndone(t.heights, e.block.hash, |t.blocks|);
    var t' := AddRow(t, e).value;
    assert t'.blocks[..|t'.blocks| - 1] == t.blocks && t'.infos[..|t'.infos| - 1] == t.infos;
  }

  function StoredOf(e: Entry): seq<Amount> {
    StoredAmounts(e.block.minerTx) + StoredOfAll(e.txs)
  }

  function LookedOf(e: Entry): (looked: seq<Amount>)
    ensures |looked| == |StoredOf(e)|
  {
    LookedAmounts(e.block.minerTx) + LookedOfAll(e.txs)
  }

  ghost predicate EntrySupported(e: Entry) {
    Supported(e.block.minerTx) && AllSupported(e.txs)
  }

  /** Whether a block can be popped again, told from the block and the lengths of the lists before it is
      added: no input is unsupported, and the places its outputs will be looked up in are, as a set,
      the places they will be put in. */
  ghost predicate Restorable(t: Tables, e: Entry) {
    && EntrySupported(e)
    && Elements(Places(t.outs.amounts, LookedOf(e), StoredOf(e))) ==
       Elements(Places(t.outs.amounts, StoredOf(e), StoredOf(e)))
  }

  lemma PopBlockSteps(t3: Tables, t2: Tables, b: Block, t1: Tables, outs: Option<Outputs>, txs: seq<Transaction>)
    requires t3.blocks != [] && t3.blocks[|t3.blocks| - 1] == b
    requires RemoveRow(t3) == Some(t2) && RemoveTxs(t2, b.txHashes) == PoppedWith(t1, outs, txs)
    ensures PopBlock(t3) == match outs
                            case None => None
                            case Some(o) =>
                              match RemoveTx(t1.(outs := o), b.minerHash)
                              case None => None
                              case Some(t) => Some(Popped(t, txs))
  {
  }

  /** Popping a block right after adding it restores all other tables, lists its transactions in reverse
      and empties the places its outputs are looked up in. */
  lemma PopAfterAdd(t: Tables, e: Entry)
    requires Sound(t) && AddBlock(t, e).Some? && EntrySupported(e)
    ensures var t3, amounts := AddBlock(t, e).value, t.outs.amounts;
            && PopBlock(t3) ==
               PoppedWith(t, RemoveSlots(t3.outs, Places(amounts, LookedOf(e), StoredOf(e))), Reversed(e.txs))
            && Appended(t.outs, t3.outs, Places(amounts, StoredOf(e), StoredOf(e)))
            && Longer(amounts, t3.outs.amounts, StoredOf(e))
  {
    AddBlockParts(t, e);
    var b, t3, m := e.block, AddBlock(t, e).value, e.block.minerTx;
    var t1 := AddTx(t, m, b.minerHash).value;
    var t2 := AddTxs(t1, b.txHashes, e.txs).value;
    AddTxSound(t, m, b.minerHash);
    AddTxAppended(t, m, b.minerHash);
    AddTxsAppended(t1, b.txHashes, e.txs);
    BothAppended(t.outs, t1.outs, t2.outs, StoredAmounts(m), StoredOfAll(e.txs));
    AddRowUndone(t2, e);
    RemoveTxsAfterAdd(t1, b.txHashes, e.txs, t2.outs);
    assert t2.(outs := t2.outs) == t2;
    var before := Places(t.outs.amounts, LookedAmounts(m), StoredAmounts(m));
    var after := Places(t1.outs.amounts, LookedOfAll(e.txs), StoredOfAll(e.txs));
    PlacesConcat(t.outs.amounts, t1.outs.amounts, LookedAmounts(m), StoredAmounts(m),
                 LookedOfAll(e.txs), StoredOfAll(e.txs));
    RemoveSlotsConcat(t2.outs, before, after);
    PopBlockSteps(t3, t2, b, t1, RemoveSlots(t2.outs, after), Reversed(e.txs));
    if RemoveSlots(t2.outs, after).Some? {
      RemoveAfterAdd(t, m, b.minerHash, RemoveSlots(t2.outs, after).value);
    }
  }

  ghost predicate PopsBackTo(t': Tables, t: Tables) {
    PopBlock(t').Some? && PopBlock(t').value.t == t
  }

  lemma RemoveTxRows(t: Tables, hash: Hash)
    requires RemoveTx(t, hash).Some?
    ensures |t.rows| == |RemoveTx(t, hash).value.rows| + 1
  {
    var id := t.index[hash].txId;
    assert (t.rows - {id}).Keys == t.rows.Keys - {id};
  }

  lemma {:induction false} RemoveTxsRows(t: Tables, hashes: seq<Hash>)
    requires RemoveTxs(t, hashes).Some?
    ensures |t.rows| == |RemoveTxs(t, hashes).value.t.rows| + |hashes|
    decreases |hashes|
  {
    if hashes != [] {
      var n := |hashes| - 1;
      RemoveTxRows(t, hashes[n]);
      RemoveTxsRows(RemoveTx(t, hashes[n]).value, hashes[..n]);
    }
  }

  /** A block that is popped back to where it was had no transaction dropped when it was added. */
  lemma PopNeedsSupported(t: Tables, e: Entry)
    requires Sound(t) && AddBlock(t, e).Some?
    ensures PopsBackTo(AddBlock(t, e).value, t) ==> EntrySupported(e)
  {
    if !PopsBackTo(AddBlock(t, e).value, t) {
      return;
    }
    AddBlockParts(t, e);
    var b := e.block;
    var t1 := AddTx(t, b.minerTx, b.minerHash).value;
    var t2 := AddTxs(t1, b.txHashes, e.txs).value;
    AddTxSound(t, b.minerTx, b.minerHash);
    AddTxsSound(t1, b.txHashes, e.txs);
    AddRowUndone(t2, e);
    RemoveTxsRows(t2, b.txHashes);
    RemoveTxRows(RemoveTxs(t2, b.txHashes).value.t, b.minerHash);
    SupportedCountFull(e.txs);
  }

  /** The hashes of transactions that will be dropped do not name stored ones. Stored transactions have
      only supported inputs, so this is so wherever a hash belongs to one transaction. */
  ghost predicate DroppedNew(t: Tables, e: Entry) {
    && (!Supported(e.block.minerTx) ==> e.block.minerHash !in t.index)
    && forall i | 0 <= i < |e.txs| && i < |e.block.txHashes| && !Supported(e.txs[i]) ::
         e.block.txHashes[i] !in t.index
  }

  ghost function SupportedHashes(hashes: seq<Hash>, txs: seq<Transaction>): set<Hash>
    requires |hashes| == |txs|
  {
    if txs == [] then {}
    else
      var n := |txs| - 1;
      SupportedHashes(hashes[..n], txs[..n]) + if Supported(txs[n]) then {hashes[n]} else {}
  }

  lemma {:induction false} SupportedUnder(hashes: seq<Hash>, txs: seq<Transaction>, h: Hash)
    requires |hashes| == |txs| && h in SupportedHashes(hashes, txs)
    ensures exists i :: 0 <= i < |txs| && hashes[i] == h && Supported(txs[i])
  {
    var n := |txs| - 1;
    if h in SupportedHashes(hashes[..n], txs[..n]) {
      SupportedUnder(hashes[..n], txs[..n], h);
      var i :| 0 <= i < n && hashes[..n][i] == h && Supported(txs[..n][i]);
      assert hashes[i] == h && Supported(txs[i]);
    }
  }

  lemma AddTxIndex(t: Tables, tx: Transaction, hash: Hash)
    requires AddTx(t, tx, hash).Some?
    ensures AddTx(t, tx, hash).value.index.Keys == t.index.Keys + if Supported(tx) then {hash} else {}
  {
    if Supported(tx) {
      AddTxOutputs(t, tx, hash);
    } else {
      UnsupportedLeavesNoTrace(t, tx, hash);
    }
  }

  lemma {:induction false} AddTxsIndex(t: Tables, hashes: seq<Hash>, txs: seq<Transaction>)
    requires |hashes| == |txs| && AddTxs(t, hashes, txs).Some?
    ensures AddTxs(t, hashes, txs).value.index.Keys == t.index.Keys + SupportedHashes(hashes, txs)
    decreases |txs|
  {
    if txs != [] {
      var n, t'' := |txs| - 1, AddTxs(t, hashes, txs).value;
      AddTxsIndex(t, hashes[..n], txs[..n]);
      var t' := AddTxs(t, hashes[..n], txs[..n]).value;
      assert AddTx(t', txs[n], hashes[n]) == Some(t'');
      AddTxIndex(t', txs[n], hashes[n]);
    }
  }

  ghost predicate DifferentHashes(hashes: seq<Hash>) {
    forall i, j | 0 <= i < |hashes| && 0 <= j < |hashes| && hashes[i] == hashes[j] :: i == j
  }

  lemma RemovedHashStep(hashes: seq<Hash>, n: nat)
    requires |hashes| == n + 1 && DifferentHashes(hashes[..n]) && hashes[n] !in hashes[..n]
    ensures DifferentHashes(hashes)
  {
    forall i, j | 0 <= i < |hashes| && 0 <= j < |hashes| && hashes[i] == hashes[j] ensures i == j {
      assert i < n ==> hashes[..n][i] == hashes[i];
      assert j < n ==> hashes[..n][j] == hashes[j];
    }
  }

  /** A list of transactions can be removed only if their hashes are different and all stored. */
  lemma {:induction false} RemoveTxsIndex(t: Tables, hashes: seq<Hash>)
    requires RemoveTxs(t, hashes).Some?
    ensures DifferentHashes(hashes) && forall h | h in hashes :: h in t.index
    ensures RemoveTxs(t, hashes).value.t.index.Keys == t.index.Keys - set h | h in hashes
    decreases |hashes|
  {
    if hashes != [] {
      var n := |hashes| - 1;
      var t' := RemoveTx(t, hashes[n]).value;
      RemoveTxsIndex(t', hashes[..n]);
      assert t'.index.Keys == t.index.Keys - {hashes[n]};
      RemovedHashStep(hashes, n);
      assert forall h :: h in hashes <==> h in hashes[..n] || h == hashes[n];
    }
  }

  lemma DroppedHashes(index: set<Hash>, index': set<Hash>, e: Entry)
    requires |e.block.txHashes| == |e.txs| && DifferentHashes(e.block.txHashes)
    requires index' == index + (if Supported(e.block.minerTx) then {e.block.minerHash} else {})
                       + SupportedHashes(e.block.txHashes, e.txs)
    requires e.block.minerHash in index' && e.block.minerHash !in e.block.txHashes
    requires forall h | h in e.block.txHashes :: h in index'
    requires !Supported(e.block.minerTx) ==> e.block.minerHash !in index
    requires forall i | 0 <= i < |e.txs| && !Supported(e.txs[i]) :: e.block.txHashes[i] !in index
    ensures EntrySupported(e)
  {
    var b, supported := e.block, SupportedHashes(e.block.txHashes, e.txs);
    if b.minerHash in supported {
      SupportedUnder(b.txHashes, e.txs, b.minerHash);
    }
    forall i | 0 <= i < |e.txs| ensures Supported(e.txs[i]) {
      assert b.txHashes[i] in b.txHashes;
      if b.txHashes[i] in supported {
        SupportedUnder(b.txHashes, e.txs, b.txHashes[i]);
      }
    }
  }

  /** A block can be popped only if its hashes are different and all stored. */
  lemma PopHashes(t: Tables)
    requires PopBlock(t).Some?
    ensures t.blocks != []
    ensures var b := t.blocks[|t.blocks| - 1];
            && DifferentHashes(b.txHashes) && (forall h | h in b.txHashes :: h in t.index)
            && b.minerHash in t.index && b.minerHash !in b.txHashes
  {
    var b, row := t.blocks[|t.blocks| - 1], RemoveRow(t).value;
    RemoveTxsIndex(row, b.txHashes);
    assert b.minerHash in RemoveTxs(row, b.txHashes).value.t.index;
  }

  lemma AddBlockIndex(t: Tables, e: Entry)
    requires AddBlock(t, e).Some?
    ensures |e.block.txHashes| == |e.txs|
    ensures AddBlock(t, e).value.index.Keys ==
            t.index.Keys + (if Supported(e.block.minerTx) then {e.block.minerHash} else {})
            + SupportedHashes(e.block.txHashes, e.txs)
    ensures AddBlock(t, e).value.blocks == t.blocks + [e.block]
  {
    AddBlockParts(t, e);
    var t1 := AddTx(t, e.block.minerTx, e.block.minerHash).value;
    AddTxIndex(t, e.block.minerTx, e.block.minerHash);
    AddTxsIndex(t1, e.block.txHashes, e.txs);
  }

  /** If a block with dropped transactions can be popped again, their hashes name older transactions. */
  lemma DroppedFound(t: Tables, e: Entry)
    requires AddBlock(t, e).Some? && PopBlock(AddBlock(t, e).value).Some?
    ensures DroppedNew(t, e) ==> EntrySupported(e)
  {
    AddBlockIndex(t, e);
    PopHashes(AddBlock(t, e).value);
    if DroppedNew(t, e) {
      DroppedHashes(t.index.Keys, AddBlock(t, e).value.index.Keys, e);
    }
  }

  /** For every block: popping it right after adding it restores every table exactly if it is
      restorable, and then its transactions are listed in reverse. */
  lemma PopUndoesAdd(t: Tables, e: Entry)
    requires Sound(t) && AddBlock(t, e).Some?
    ensures PopsBackTo(AddBlock(t, e).value, t) <==> Restorable(t, e)
    ensures Restorable(t, e) ==> PopBlock(AddBlock(t, e).value).value.txs == Reversed(e.txs)
  {
    if EntrySupported(e) {
      var t3, amounts := AddBlock(t, e).value, t.outs.amounts;
      var searched, filled := Places(amounts, LookedOf(e), StoredOf(e)), Places(amounts, StoredOf(e), StoredOf(e));
      PopAfterAdd(t, e);
      AddBlockSound(t, e);
      RestoredIff(t.outs, t3.outs, filled, searched);
      assert t.(outs := t.outs) == t;
      assert PopsBackTo(t3, t) <==> RemoveSlots(t3.outs, searched) == Some(t.outs);
    } else {
      PopNeedsSupported(t, e);
    }
  }

  // ---------- blocks that are restorable in every state ----------

  ghost predicate Removable(tx: Transaction) {
    Supported(tx) && AmountsAgree(tx)
  }

  ghost predicate WellFormed(e: Entry) {
    Removable(e.block.minerTx) && forall i | 0 <= i < |e.txs| :: Removable(e.txs[i])
  }

  lemma {:induction false} AllAgree(txs: seq<Transaction>)
    requires forall i | 0 <= i < |txs| :: AmountsAgree(txs[i])
    ensures LookedOfAll(txs) == StoredOfAll(txs)
  {
    if txs != [] {
      AllAgree(txs[..|txs| - 1]);
      AgreeMeansEqual(txs[|txs| - 1]);
    }
  }

  /** If the two tests agree on every output, the block is restorable whatever the state. */
  lemma WellFormedRestorable(t: Tables, e: Entry)
    requires WellFormed(e)
    ensures Restorable(t, e)
  {
    AgreeMeansEqual(e.block.minerTx);
    AllAgree(e.txs);
  }

  /** Only transactions with a generation input can be looked up in the wrong place. */
  lemma NoGenAgrees(tx: Transaction)
    requires !HasGen(tx)
    ensures AmountsAgree(tx)
  {
  }

  lemma MinePlacesFound(filled: seq<Slot>, searched: seq<Slot>, others: seq<Slot>)
    requires Elements(searched + others) == Elements(filled + others)
    requires AllDifferent(filled + others)
    ensures forall i | 0 <= i < |filled| :: filled[i] in searched
  {
    forall i | 0 <= i < |filled| ensures filled[i] in searched {
      var all := filled + others;
      assert all[i] == filled[i] && filled[i] in Elements(all);
      assert filled[i] in Elements(searched + others);
      forall j | 0 <= j < |others| ensures others[j] != filled[i] {
        assert all[|filled| + j] == others[j] && |filled| + j != i;
      }
    }
  }

  lemma MinerRestored(t: Tables, e: Entry)
    requires Sound(t) && AddBlock(t, e).Some? && Restorable(t, e)
    requires forall i | 0 <= i < |e.txs| :: AmountsAgree(e.txs[i])
    ensures AmountsAgree(e.block.minerTx)
  {
    AddBlockParts(t, e);
    var m, t1, amounts := e.block.minerTx, AddTx(t, e.block.minerTx, e.block.minerHash).value, t.outs.amounts;
    var stored, looked, rest := StoredAmounts(m), LookedAmounts(m), StoredOfAll(e.txs);
    AllAgree(e.txs);
    AddTxAppended(t, m, e.block.minerHash);
    PlacesConcat(amounts, t1.outs.amounts, stored, stored, rest, rest);
    PlacesConcat(amounts, t1.outs.amounts, looked, stored, rest, rest);
    PopAfterAdd(t, e);
    var filled, searched := Places(amounts, stored, stored), Places(amounts, looked, stored);
    var others := Places(t1.outs.amounts, rest, rest);
    DistinctPlaces(t.outs, AddBlock(t, e).value.outs, filled + others);
    MinePlacesFound(filled, searched, others);
    DistinctPlaces(t.outs, t1.outs, filled);
    StoredLookedUpAgree(amounts, m);
  }

  /** In blocks where only the miner transaction has generation inputs, which is what validation lets
      through, the state does not matter. */
  lemma MinerDecides(t: Tables, e: Entry)
    requires Sound(t) && AddBlock(t, e).Some?
    requires forall i | 0 <= i < |e.txs| :: !HasGen(e.txs[i])
    ensures Restorable(t, e) <==> WellFormed(e)
  {
    forall i | 0 <= i < |e.txs| ensures AmountsAgree(e.txs[i]) {
      NoGenAgrees(e.txs[i]);
    }
    if WellFormed(e) {
      WellFormedRestorable(t, e);
    } else if Restorable(t, e) {
      MinerRestored(t, e);
      assert false;
    }
  }

  /** The two tests agree exactly if all amounts are zero, or a generation input and version 2 come
      together with being a single generation input of version 2 or above. */
  lemma WhenTestsAgree(tx: Transaction)
    ensures AmountsAgree(tx) <==>
            || (forall i | 0 <= i < |tx.vout| :: tx.vout[i].amount == 0)
            || (Gen in tx.vin && tx.version == 2 <==> tx.vin == [Gen] && tx.version >= 2)
  {
    assert HasGen(tx) <==> Gen in tx.vin;
    assert RemovedAsRct(tx) <==> tx.version >= 2 && tx.vin == [Gen];
    if AmountsAgree(tx) && StoredAsRct(tx) != RemovedAsRct(tx) {
      forall i | 0 <= i < |tx.vout| ensures tx.vout[i].amount == 0 {
        assert StoredAmount(tx, i) == RemovedAmount(tx, i);
      }
    }
  }

  /** For a miner transaction with its single generation input, agreement fails exactly for versions
      above 2 that carry an amount. */
  lemma MinerAgrees(tx: Transaction)
    requires tx.vin == [Gen]
    ensures AmountsAgree(tx) <==> tx.version <= 2 || forall i | 0 <= i < |tx.vout| :: tx.vout[i].amount == 0
  {
    assert tx.vin[0].Gen?;
    if tx.version > 2 && AmountsAgree(tx) {
      forall i | 0 <= i < |tx.vout| ensures tx.vout[i].amount == 0 {
        assert StoredAmount(tx, i) == RemovedAmount(tx, i);
      }
    }
  }

  // ---------- histories ----------

  datatype Op = Add(e: Entry) | Pop

  /** A failed operation is rolled back. */
  function Step(t: Tables, op: Op): Tables {
    match op
    case Add(e) => (match AddBlock(t, e) case None => t case Some(t') => t')
    case Pop => (match PopBlock(t) case None => t case Some(p) => p.t)
  }

  function RunOps(ops: seq<Op>): Tables {
    if ops == [] then EMPTY else Step(RunOps(ops[..|ops| - 1]), ops[|ops| - 1])
  }

  /** The blocks added and not popped again, oldest first; a failed operation changes nothing. */
  function Survivors(ops: seq<Op>): seq<Entry> {
    if ops == [] then []
    else
      var before, t := Survivors(ops[..|ops| - 1]), RunOps(ops[..|ops| - 1]);
      match ops[|ops| - 1]
      case Add(e) => if AddBlock(t, e).Some? then before + [e] else before
      case Pop => if before != [] && PopBlock(t).Some? then before[..|before| - 1] else before
  }

  function Replay(es: seq<Entry>): Tables {
    if es == [] then EMPTY else Step(Replay(es[..|es| - 1]), Add(es[|es| - 1]))
  }

  /** Every one of these blocks can be added on top of the ones before it. */
  ghost predicate Replayable(es: seq<Entry>) {
    es == [] ||
    var init, e := es[..|es| - 1], es[|es| - 1];
    Replayable(init) && AddBlock(Replay(init), e).Some?
  }

  lemma ReplaySnoc(es: seq<Entry>, e: Entry)
    requires Replayable(es) && AddBlock(Replay(es), e).Some?
    ensures Replayable(es + [e]) && Replay(es + [e]) == AddBlock(Replay(es), e).value
  {
    assert (es + [e])[..|es|] == es;
  }

  lemma {:induction false} ReplaySound(es: seq<Entry>)
    requires Replayable(es)
    ensures Sound(Replay(es)) && |Replay(es).blocks| == |es|
    ensures es != [] ==> Replay(es).blocks[|es| - 1] == es[|es| - 1].block
  {
    if es == [] {
      assert Sound(EMPTY);
    } else {
      var init, e, t := es[..|es| - 1], es[|es| - 1], Replay(es);
      ReplaySound(init);
      assert AddBlock(Replay(init), e) == Some(t);
      AddBlockSound(Replay(init), e);
    }
  }

  /** The newest of these blocks can be popped again. */
  ghost predicate TopRestorable(es: seq<Entry>)
    requires es != []
  {
    Restorable(Replay(es[..|es| - 1]), es[|es| - 1])
  }

  /** Popping the newest block leads back to the blocks below it exactly if it is restorable. */
  lemma PopReplay(es: seq<Entry>)
    requires Replayable(es) && es != []
    ensures Step(Replay(es), Pop) == Replay(es[..|es| - 1]) <==> TopRestorable(es)
    ensures TopRestorable(es) ==>
              PopBlock(Replay(es)) == Some(Popped(Replay(es[..|es| - 1]), Reversed(es[|es| - 1].txs)))
  {
    var init, e, t := es[..|es| - 1], es[|es| - 1], Replay(es);
    ReplaySound(init);
    assert AddBlock(Replay(init), e) == Some(t);
    PopUndoesAdd(Replay(init), e);
    AddBlockSound(Replay(init), e);
  }

  /** At every point of the history the tables are what adding just the survivors so far, in order,
      produces. */
  ghost predicate Coherent(ops: seq<Op>) {
    && RunOps(ops) == Replay(Survivors(ops))
    && (ops != [] ==> Coherent(ops[..|ops| - 1]))
  }

  /** After the operations `before`, `op` takes off the newest block. */
  ghost predicate PopsTop(before: seq<Op>, op: Op) {
    op.Pop? && Survivors(before) != [] && PopBlock(RunOps(before)).Some?
  }

  /** Every block that was popped had been restorable when it was added. */
  ghost predicate PopsRestorable(ops: seq<Op>) {
    ops == [] ||
    var before := ops[..|ops| - 1];
    && PopsRestorable(before)
    && (PopsTop(before, ops[|ops| - 1]) ==> TopRestorable(Survivors(before)))
  }

  lemma {:induction false} SurvivorsReplayable(ops: seq<Op>)
    requires Coherent(ops)
    ensures Replayable(Survivors(ops))
  {
    if ops != [] {
      var before := ops[..|ops| - 1];
      SurvivorsReplayable(before);
      match ops[|ops| - 1]
      case Add(e) =>
        if AddBlock(RunOps(before), e).Some? {
          ReplaySnoc(Survivors(before), e);
        }
      case Pop =>
    }
  }

  lemma OneStep(before: seq<Op>, op: Op, ops: seq<Op>)
    requires ops != [] && ops[..|ops| - 1] == before && ops[|ops| - 1] == op
    requires RunOps(before) == Replay(Survivors(before)) && Replayable(Survivors(before))
    ensures RunOps(ops) == Replay(Survivors(ops)) <==>
            (PopsTop(before, op) ==> TopRestorable(Survivors(before)))
  {
    var es, t := Survivors(before), RunOps(before);
    match op
    case Add(e) =>
      if AddBlock(t, e).Some? {
        ReplaySnoc(es, e);
      }
    case Pop =>
      if es != [] {
        PopReplay(es);
      }
  }

  /** State depends only on the surviving blocks: for all histories, whatever was added and whatever
      failed, every state along the way is the one the survivors alone produce, exactly if every block
      popped was restorable. */
  lemma {:induction false} HistoryIndependence(ops: seq<Op>)
    ensures Coherent(ops) <==> PopsRestorable(ops)
  {
    if ops != [] {
      var before, op := ops[..|ops| - 1], ops[|ops| - 1];
      HistoryIndependence(before);
      if Coherent(before) {
        SurvivorsReplayable(before);
        OneStep(before, op, ops);
      }
    }
  }

  ghost predicate AllWellFormed(es: seq<Entry>) {
    forall i | 0 <= i < |es| :: WellFormed(es[i])
  }

  lemma SurvivorsSnoc(before: seq<Op>, op: Op, ops: seq<Op>)
    requires ops != [] && ops[..|ops| - 1] == before && ops[|ops| - 1] == op
    requires AllWellFormed(Survivors(before)) && (op.Add? ==> WellFormed(op.e))
    ensures AllWellFormed(Survivors(ops))
  {
  }

  /** Histories of well-formed blocks pop only restorable ones. */
  lemma {:induction false} WellFormedHistory(ops: seq<Op>)
    requires forall i | 0 <= i < |ops| && ops[i].Add? :: WellFormed(ops[i].e)
    ensures PopsRestorable(ops) && AllWellFormed(Survivors(ops))
  {
    if ops != [] {
      var before := ops[..|ops| - 1];
      WellFormedHistory(before);
      var es := Survivors(before);
      SurvivorsSnoc(before, ops[|ops| - 1], ops);
      if es != [] {
        WellFormedRestorable(Replay(es[..|es| - 1]), es[|es| - 1]);
      }
    }
  }

  /** Two histories that leave the same blocks leave the same tables, however they got there. */
  lemma SameSurvivors(ops: seq<Op>, ops': seq<Op>)
    requires PopsRestorable(ops) && PopsRestorable(ops') && Survivors(ops) == Survivors(ops')
    ensures RunOps(ops) == RunOps(ops')
  {
    HistoryIndependence(ops);
    HistoryIndependence(ops');
  }
}
