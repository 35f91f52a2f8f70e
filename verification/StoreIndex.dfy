/** The indices recorded with a transaction locate its outputs, and every stored output is located
    by exactly one transaction. */
module StoreIndex {
  import opened Optional
  import opened StoreTables
  import opened StoreSound
  import opened StoreSlots
  import opened StoreUndo

  /** The row carries what the output says: its key, when it unlocks, the height of its block, and for
      amount 0 a commitment, which for version 2 miner outputs commits to the real amount. */
  ghost predicate Describes(row: OutKey, tx: Transaction, i: nat, height: nat)
    requires i < |tx.vout|
  {
    && tx.vout[i].target == ToKeyTarget(row.pubkey)
    && row.unlockTime == tx.unlockTime && row.height == height
    && (StoredAsRct(tx) ==> row.commitment == ZeroCommit(tx.vout[i].amount))
    && (!StoredAsRct(tx) ==>
          row.commitment == if tx.vout[i].amount == 0 then Mask(tx.vout[i].mask) else NoCommitment)
  }

  /** Output `i` of transaction `hash` is stored under this amount and index. */
  ghost predicate Located(outs: Outputs, amount: Amount, n: nat, hash: Hash, tx: Transaction, i: nat, height: nat)
    requires i < |tx.vout|
  {
    && n in BucketOf(outs.amounts, amount)
    && var row := BucketOf(outs.amounts, amount)[n];
       && row.outputId in outs.txs && outs.txs[row.outputId] == OutTx(hash, i)
       && Describes(row, tx, i, height)
  }

  ghost predicate OutputsLocated(outs: Outputs, hash: Hash, tx: Transaction, height: nat, indices: seq<nat>, k: nat)
    requires k <= |tx.vout|
  {
    && |indices| >= k
    && forall i | 0 <= i < k :: Located(outs, StoredAmount(tx, i), indices[i], hash, tx, i, height)
  }

  /** Some output among the first `k` has this amount and index. */
  ghost predicate Claims(tx: Transaction, indices: seq<nat>, k: nat, amount: Amount, n: nat)
    requires k <= |tx.vout| && k <= |indices|
  {
    exists i :: 0 <= i < k && StoredAmount(tx, i) == amount && indices[i] == n
  }

  ghost predicate Grows(outs: Outputs, outs': Outputs) {
    && (forall id | id in outs.txs :: id in outs'.txs && outs'.txs[id] == outs.txs[id])
    && (forall a, n | n in BucketOf(outs.amounts, a) ::
          n in BucketOf(outs'.amounts, a) && BucketOf(outs'.amounts, a)[n] == BucketOf(outs.amounts, a)[n])
  }

  lemma GrowsTransitive(a: Outputs, b: Outputs, c: Outputs)
    requires Grows(a, b) && Grows(b, c)
    ensures Grows(a, c)
  {
  }

  lemma LocatedGrows(outs: Outputs, outs': Outputs, amount: Amount, n: nat, hash: Hash,
                     tx: Transaction, i: nat, height: nat)
    requires i < |tx.vout| && Grows(outs, outs') && Located(outs, amount, n, hash, tx, i, height)
    ensures Located(outs', amount, n, hash, tx, i, height)
  {
  }

  lemma AddOutputGrows(outs: Outputs, hash: Hash, tx: Transaction, i: nat, height: nat)
    requires i < |tx.vout| && AddOutput(outs, hash, tx, i, height).Some?
    ensures var outs' := AddOutput(outs, hash, tx, i, height).value;
            var amount := StoredAmount(tx, i);
            var n := |BucketOf(outs.amounts, amount)|;
            && Grows(outs, outs')
            && Located(outs', amount, n, hash, tx, i, height)
            && forall a, m | m in BucketOf(outs'.amounts, a) ::
                 m in BucketOf(outs.amounts, a) || (a == amount && m == n)
  {
  }

  lemma LocatedStep(outs: Outputs, a: Adding, a': Adding, hash: Hash, tx: Transaction, k: nat, height: nat)
    requires OneMore(a, a', hash, tx, k, height)
    requires Grows(outs, a.outs) && OutputsLocated(a.outs, hash, tx, height, a.indices, k)
    ensures Grows(outs, a'.outs) && OutputsLocated(a'.outs, hash, tx, height, a'.indices, k + 1)
  {
    AddOutputGrows(a.outs, hash, tx, k, height);
    GrowsTransitive(outs, a.outs, a'.outs);
    forall i | 0 <= i < k
      ensures Located(a'.outs, StoredAmount(tx, i), a'.indices[i], hash, tx, i, height)
    {
      LocatedGrows(a.outs, a'.outs, StoredAmount(tx, i), a.indices[i], hash, tx, i, height);
    }
  }

  lemma {:induction false} AddOutputsLocated(outs: Outputs, hash: Hash, tx: Transaction, k: nat, height: nat)
    requires k <= |tx.vout| && AddOutputs(outs, hash, tx, k, height).Some?
    ensures var a := AddOutputs(outs, hash, tx, k, height).value;
            Grows(outs, a.outs) && OutputsLocated(a.outs, hash, tx, height, a.indices, k)
    decreases k
  {
    if k > 0 {
      var j, a' := k - 1, AddOutputs(outs, hash, tx, k, height).value;
      AddOutputsStep(outs, hash, tx, j, height);
      var a := AddOutputs(outs, hash, tx, j, height).value;
      assert OneMore(a, a', hash, tx, j, height);
      AddOutputsLocated(outs, hash, tx, j, height);
      LocatedStep(outs, a, a', hash, tx, j, height);
    }
  }

  lemma ClaimsMore(tx: Transaction, indices: seq<nat>, indices': seq<nat>, k: nat, amount: Amount, n: nat)
    requires k < |tx.vout| && |indices| == k && |indices'| == k + 1 && indices <= indices'
    ensures Claims(tx, indices, k, amount, n) ==> Claims(tx, indices', k + 1, amount, n)
    ensures StoredAmount(tx, k) == amount && indices'[k] == n ==> Claims(tx, indices', k + 1, amount, n)
  {
  }

  lemma ClaimedStep(a: Adding, a': Adding, hash: Hash, tx: Transaction, k: nat, height: nat, amount: Amount, n: nat)
    requires OneMore(a, a', hash, tx, k, height) && n in BucketOf(a'.outs.amounts, amount)
    ensures n in BucketOf(a.outs.amounts, amount) || Claims(tx, a'.indices, k + 1, amount, n)
    ensures Claims(tx, a.indices, k, amount, n) ==> Claims(tx, a'.indices, k + 1, amount, n)
  {
    AddOutputGrows(a.outs, hash, tx, k, height);
    ClaimsMore(tx, a.indices, a'.indices, k, amount, n);
  }

  lemma {:induction false} AddOutputsClaimed(outs: Outputs, hash: Hash, tx: Transaction, k: nat, height: nat,
                                             amount: Amount, n: nat)
    requires k <= |tx.vout| && AddOutputs(outs, hash, tx, k, height).Some?
    requires n in BucketOf(AddOutputs(outs, hash, tx, k, height).value.outs.amounts, amount)
    requires n !in BucketOf(outs.amounts, amount)
    ensures |AddOutputs(outs, hash, tx, k, height).value.indices| == k
    ensures Claims(tx, AddOutputs(outs, hash, tx, k, height).value.indices, k, amount, n)
    decreases k
  {
    if k > 0 {
      var j, a' := k - 1, AddOutputs(outs, hash, tx, k, height).value;
      AddOutputsStep(outs, hash, tx, j, height);
      var a := AddOutputs(outs, hash, tx, j, height).value;
      assert OneMore(a, a', hash, tx, j, height);
      ClaimedStep(a, a', hash, tx, j, height, amount, n);
      if n in BucketOf(a.outs.amounts, amount) {
        AddOutputsClaimed(outs, hash, tx, j, height, amount, n);
      }
    }
  }

  // ---------- the invariant of the whole store ----------

  ghost predicate TxLocated(t: Tables, h: Hash)
    requires Sound(t) && h in t.index
  {
    var TxIndex(id, _, height) := t.index[h];
    OutputsLocated(t.outs, h, t.rows[id], height, t.outIndices[id], |t.rows[id].vout|)
  }

  /** The row under this amount and index belongs to a stored transaction, which records that index. */
  ghost predicate Owned(t: Tables, amount: Amount, n: nat)
    requires Sound(t) && n in BucketOf(t.outs.amounts, amount)
  {
    var oid := BucketOf(t.outs.amounts, amount)[n].outputId;
    && oid in t.outs.txs
    && var OutTx(h, i) := t.outs.txs[oid];
       && h in t.index
       && var id := t.index[h].txId;
          && i < |t.rows[id].vout| && i < |t.outIndices[id]|
          && StoredAmount(t.rows[id], i) == amount && t.outIndices[id][i] == n
  }

  ghost predicate Indexed(t: Tables) {
    && Sound(t)
    && (forall h | h in t.index :: TxLocated(t, h))
    && (forall a, n | n in BucketOf(t.outs.amounts, a) :: Owned(t, a, n))
  }

  lemma NewTxLocated(t: Tables, tx: Transaction, hash: Hash, h: Hash)
    requires Indexed(t) && Supported(tx) && AddTx(t, tx, hash).Some?
    requires Sound(AddTx(t, tx, hash).value) && h in AddTx(t, tx, hash).value.index
    ensures TxLocated(AddTx(t, tx, hash).value, h)
  {
    var t' := AddTx(t, tx, hash).value;
    AddTxAccepted(t, tx, hash);
    AddOutputsLocated(t.outs, hash, tx, |tx.vout|, |t.blocks|);
    if h != hash {
      var TxIndex(id, _, height) := t.index[h];
      var u := t.rows[id];
      assert TxLocated(t, h);
      forall i | 0 <= i < |u.vout|
        ensures Located(t'.outs, StoredAmount(u, i), t.outIndices[id][i], h, u, i, height)
      {
        LocatedGrows(t.outs, t'.outs, StoredAmount(u, i), t.outIndices[id][i], h, u, i, height);
      }
    }
  }

  lemma NewRowOwned(t: Tables, tx: Transaction, hash: Hash, a: Amount, n: nat)
    requires Indexed(t) && Supported(tx) && AddTx(t, tx, hash).Some?
    requires Sound(AddTx(t, tx, hash).value) && n in BucketOf(AddTx(t, tx, hash).value.outs.amounts, a)
    ensures Owned(AddTx(t, tx, hash).value, a, n)
  {
    var t' := AddTx(t, tx, hash).value;
    AddTxAccepted(t, tx, hash);
    AddOutputsLocated(t.outs, hash, tx, |tx.vout|, |t.blocks|);
    if n in BucketOf(t.outs.amounts, a) {
      assert Owned(t, a, n);
    } else {
      AddOutputsClaimed(t.outs, hash, tx, |tx.vout|, |t.blocks|, a, n);
      var indices := t'.outIndices[|t.rows|];
      var i :| 0 <= i < |tx.vout| && StoredAmount(tx, i) == a && indices[i] == n;
      assert Located(t'.outs, StoredAmount(tx, i), indices[i], hash, tx, i, |t.blocks|);
    }
  }

  lemma SameRowsIndexed(t: Tables, t': Tables)
    requires Indexed(t) && Sound(t')
    requires t'.index == t.index && t'.rows == t.rows && t'.outIndices == t.outIndices && t'.outs == t.outs
    ensures Indexed(t')
  {
    forall h | h in t'.index ensures TxLocated(t', h) {
      assert TxLocated(t, h);
    }
    forall a, n | n in BucketOf(t'.outs.amounts, a) ensures Owned(t', a, n) {
      assert Owned(t, a, n);
    }
  }

  lemma AddTxIndexed(t: Tables, tx: Transaction, hash: Hash)
    requires Indexed(t) && AddTx(t, tx, hash).Some?
    ensures Indexed(AddTx(t, tx, hash).value)
  {
    var t' := AddTx(t, tx, hash).value;
    AddTxSound(t, tx, hash);
    if Supported(tx) {
      forall h | h in t'.index ensures TxLocated(t', h) {
        NewTxLocated(t, tx, hash, h);
      }
      forall a, n | n in BucketOf(t'.outs.amounts, a) ensures Owned(t', a, n) {
        NewRowOwned(t, tx, hash, a, n);
      }
    } else {
      UnsupportedLeavesNoTrace(t, tx, hash);
      SameRowsIndexed(t, t');
    }
  }

  lemma {:induction false} AddTxsIndexed(t: Tables, hashes: seq<Hash>, txs: seq<Transaction>)
    requires Indexed(t) && |hashes| == |txs| && AddTxs(t, hashes, txs).Some?
    ensures Indexed(AddTxs(t, hashes, txs).value)
    decreases |txs|
  {
    if txs != [] {
      var n := |txs| - 1;
      AddTxsIndexed(t, hashes[..n], txs[..n]);
      AddTxIndexed(AddTxs(t, hashes[..n], txs[..n]).value, txs[n], hashes[n]);
    }
  }

  /** Every successful addition of a block keeps the store indexed. */
  lemma AddBlockIndexed(t: Tables, e: Entry)
    requires Indexed(t) && AddBlock(t, e).Some?
    ensures Indexed(AddBlock(t, e).value)
  {
    var t1 := AddTx(t, e.block.minerTx, e.block.minerHash).value;
    AddTxIndexed(t, e.block.minerTx, e.block.minerHash);
    AddTxsIndexed(t1, e.block.txHashes, e.txs);
    SameRowsIndexed(AddTxs(t1, e.block.txHashes, e.txs).value, AddBlock(t, e).value);
  }

  lemma {:induction false} ReplayIndexed(es: seq<Entry>)
    requires Replayable(es)
    ensures Indexed(Replay(es))
  {
    if es == [] {
      assert Sound(EMPTY);
    } else {
      var init := es[..|es| - 1];
      ReplayIndexed(init);
      AddBlockIndexed(Replay(init), es[|es| - 1]);
    }
  }

  // ---------- popping ----------

  /** A store that is indexed has no row with an id beyond the number of rows. */
  lemma IdsInRange(t: Tables, s: Slot)
    requires Indexed(t) && Has(t.outs, s)
    ensures IdAt(t.outs, s) < |t.outs.txs|
  {
    assert Owned(t, s.0, s.1);
  }

  lemma SameSize(filled: seq<Slot>, searched: seq<Slot>)
    requires |filled| == |searched| && AllDifferent(filled) && AllDifferent(searched)
    requires Elements(filled) <= Elements(searched)
    ensures Elements(filled) == Elements(searched)
  {
    NoRepeats(filled);
    NoRepeats(searched);
    var more := Elements(searched) - Elements(filled);
    assert Elements(searched) == Elements(filled) + more;
  }

  /** Emptying as many places as were filled leaves no filled place only if they are the same places:
      a row left behind would have an id that is out of range. */
  lemma IndexedSamePlaces(t: Tables, outs': Outputs, filled: seq<Slot>, searched: seq<Slot>)
    requires Appended(t.outs, outs', filled) && |filled| == |searched|
    requires RemoveSlots(outs', searched).Some? && Indexed(t.(outs := RemoveSlots(outs', searched).value))
    ensures Elements(searched) == Elements(filled)
  {
    var p := t.(outs := RemoveSlots(outs', searched).value);
    RemoveSlotsShrinks(outs', searched);
    RemoveSlotsDifferent(outs', searched);
    RemoveSlotsEffect(outs', searched);
    DistinctPlaces(t.outs, outs', filled);
    forall i | 0 <= i < |filled| ensures filled[i] in searched {
      assert Has(outs', filled[i]) && IdAt(outs', filled[i]) == |t.outs.txs| + i;
      if filled[i] !in searched {
        assert Has(p.outs, filled[i]);
        IdsInRange(p, filled[i]);
        assert false;
      }
    }
    SameSize(filled, searched);
  }

  /** Popping a block right after adding it leaves recorded indices and stored outputs matching exactly
      if the block was restorable. */
  lemma PopIndexed(t: Tables, e: Entry)
    requires Indexed(t) && AddBlock(t, e).Some? && DroppedNew(t, e) && PopBlock(AddBlock(t, e).value).Some?
    ensures Indexed(PopBlock(AddBlock(t, e).value).value.t) <==> Restorable(t, e)
  {
    var t3, amounts := AddBlock(t, e).value, t.outs.amounts;
    DroppedFound(t, e);
    PopUndoesAdd(t, e);
    PopAfterAdd(t, e);
    if Indexed(PopBlock(t3).value.t) {
      var filled, searched := Places(amounts, StoredOf(e), StoredOf(e)), Places(amounts, LookedOf(e), StoredOf(e));
      IndexedSamePlaces(t, t3.outs, filled, searched);
    }
  }

  // ---------- histories ----------

  /** At every point of the history recorded indices and stored outputs match one to one. */
  ghost predicate AlwaysIndexed(ops: seq<Op>) {
    && Indexed(RunOps(ops))
    && (ops != [] ==> AlwaysIndexed(ops[..|ops| - 1]))
  }

  /** No block added has a dropped transaction with the hash of a stored one. */
  ghost predicate DroppedAlwaysNew(ops: seq<Op>) {
    ops == [] ||
    var before, op := ops[..|ops| - 1], ops[|ops| - 1];
    && DroppedAlwaysNew(before)
    && (op.Add? && AddBlock(RunOps(before), op.e).Some? ==> DroppedNew(RunOps(before), op.e))
  }

  ghost predicate TopDroppedNew(es: seq<Entry>)
    requires es != []
  {
    DroppedNew(Replay(es[..|es| - 1]), es[|es| - 1])
  }

  ghost predicate AllDroppedNew(es: seq<Entry>) {
    es == [] || (AllDroppedNew(es[..|es| - 1]) && TopDroppedNew(es))
  }

  lemma {:induction false} SurvivorsDroppedNew(ops: seq<Op>)
    requires Coherent(ops) && DroppedAlwaysNew(ops)
    ensures AllDroppedNew(Survivors(ops))
  {
    if ops != [] {
      var before := ops[..|ops| - 1];
      var es := Survivors(before);
      SurvivorsDroppedNew(before);
      match ops[|ops| - 1]
      case Add(e) =>
        assert (es + [e])[..|es|] == es;
      case Pop =>
    }
  }

  /** Popping the newest block leaves the store indexed exactly if it was restorable. */
  lemma PopIndexedReplay(es: seq<Entry>)
    requires Replayable(es) && es != [] && TopDroppedNew(es) && PopBlock(Replay(es)).Some?
    ensures Indexed(PopBlock(Replay(es)).value.t) <==> TopRestorable(es)
  {
    var init, e, t := es[..|es| - 1], es[|es| - 1], Replay(es);
    ReplayIndexed(init);
    assert AddBlock(Replay(init), e) == Some(t);
    PopIndexed(Replay(init), e);
  }

  /** In every history, recorded indices and stored outputs match one to one at every point exactly if
      every block popped was restorable. */
  lemma {:induction false} ReachableIndexed(ops: seq<Op>)
    requires DroppedAlwaysNew(ops)
    ensures AlwaysIndexed(ops) <==> PopsRestorable(ops)
  {
    if ops == [] {
      ReplayIndexed([]);
    } else {
      var before, op := ops[..|ops| - 1], ops[|ops| - 1];
      ReachableIndexed(before);
      HistoryIndependence(before);
      HistoryIndependence(ops);
      if PopsRestorable(ops) {
        SurvivorsReplayable(ops);
        ReplayIndexed(Survivors(ops));
      } else if Coherent(before) {
        SurvivorsReplayable(before);
        SurvivorsDroppedNew(before);
        PopIndexedReplay(Survivors(before));
      }
    }
  }
}
