/** The tables have no holes, what that gives each addition, and exactly when the inputs of a
    transaction are accepted. */
module StoreSound {
  import opened Optional
  import opened StoreTables

  // ---------- tables without holes ----------

  ghost predicate Dense<V>(m: map<nat, V>) {
    forall i: nat :: i in m <==> i < |m|
  }

  ghost predicate DenseAmounts(amounts: Amounts) {
    forall a | a in amounts :: amounts[a] != map[] && Dense(amounts[a])
  }

  ghost predicate DenseOutputs(outs: Outputs) {
    Dense(outs.txs) && DenseAmounts(outs.amounts)
  }

  /** Row numbers and indices have no holes, so "how many" is always the next free number. */
  ghost predicate Sound(t: Tables) {
    && Dense(t.rows) && t.outIndices.Keys == t.rows.Keys
    && DenseOutputs(t.outs)
    && (forall h | h in t.index :: t.index[h].txId in t.rows)
    && |t.infos| == |t.blocks|
  }

  lemma InsertUndone<K, V>(m: map<K, V>, k: K, v: V)
    requires k !in m
    ensures m[k := v] - {k} == m
  {
  }

  lemma DenseAppend<V>(m: map<nat, V>, v: V)
    requires Dense(m)
    ensures Dense(m[|m| := v]) && |m[|m| := v]| == |m| + 1
  {
    var m' := m[|m| := v];
    forall i: nat ensures i in m' <==> i < |m'| {
      assert i in m' <==> i in m || i == |m|;
    }
  }

  // ---------- spent keys ----------

  /** The first unsupported input from `i` on, or the end. */
  function FirstUnsupported(vin: seq<TxIn>, i: nat): (cut: nat)
    requires i <= |vin|
    ensures i <= cut <= |vin|
    ensures forall j | i <= j < cut :: !vin[j].UnsupportedIn?
    ensures cut < |vin| ==> vin[cut].UnsupportedIn?
    decreases |vin| - i
  {
    if i == |vin| || vin[i].UnsupportedIn? then i else FirstUnsupported(vin, i + 1)
  }

  /** No image among inputs `i` to `cut` is repeated there. */
  predicate DistinctImages(vin: seq<TxIn>, i: nat, cut: nat)
    requires cut <= |vin|
  {
    forall j, k | i <= j < k < cut && vin[j].ToKey? && vin[k].ToKey? :: vin[j].image != vin[k].image
  }

  predicate UnspentImages(spent: set<KeyImage>, vin: seq<TxIn>, i: nat, cut: nat)
    requires cut <= |vin|
  {
    forall j | i <= j < cut && vin[j].ToKey? :: vin[j].image !in spent
  }

  /** Marking the inputs throws exactly if, before the first unsupported one, an image is repeated or
      was spent; else it is aborted at the first unsupported input, if there is one. */
  lemma {:induction false} InputsOutcome(spent: set<KeyImage>, vin: seq<TxIn>, i: nat)
    requires i <= |vin|
    ensures var cut, r := FirstUnsupported(vin, i), AddInputs(spent, vin, i);
            && (r.Thrown? <==> !(UnspentImages(spent, vin, i, cut) && DistinctImages(vin, i, cut)))
            && (r.Aborted? ==> cut < |vin|) && (r.Accepted? ==> cut == |vin|)
    decreases |vin| - i
  {
    if i < |vin| && !vin[i].UnsupportedIn? {
      var cut := FirstUnsupported(vin, i);
      if vin[i].ToKey? && vin[i].image !in spent {
        var spent' := spent + {vin[i].image};
        InputsOutcome(spent', vin, i + 1);
        assert UnspentImages(spent', vin, i + 1, cut) <==>
               UnspentImages(spent, vin, i + 1, cut) &&
               forall k | i < k < cut && vin[k].ToKey? :: vin[i].image != vin[k].image;
      } else {
        InputsOutcome(spent, vin, i + 1);
      }
    }
  }

  lemma ImagesCons(x: TxIn, rest: seq<TxIn>)
    ensures Images([x] + rest) == Images(rest) + if x.ToKey? then {x.image} else {}
  {
    var all := [x] + rest;
    forall im | im in Images(rest) ensures im in Images(all) {
      var j :| 0 <= j < |rest| && rest[j].ToKey? && rest[j].image == im;
      assert all[j + 1] == rest[j];
    }
    assert all[0] == x;
  }

  lemma {:induction false} AcceptedInputs(spent: set<KeyImage>, vin: seq<TxIn>, i: nat)
    requires i <= |vin| && AddInputs(spent, vin, i).Accepted?
    ensures AddInputs(spent, vin, i).spent == spent + Images(vin[i..])
    ensures spent !! Images(vin[i..])
    decreases |vin| - i
  {
    if i < |vin| {
      assert vin[i..] == [vin[i]] + vin[i + 1..];
      ImagesCons(vin[i], vin[i + 1..]);
      AcceptedInputs(if vin[i].ToKey? then spent + {vin[i].image} else spent, vin, i + 1);
    }
  }

  lemma {:induction false} AbortedInputs(spent: set<KeyImage>, vin: seq<TxIn>, i: nat)
    requires i <= |vin| && AddInputs(spent, vin, i).Aborted?
    ensures AddInputs(spent, vin, i).spent == spent - Images(vin)
    decreases |vin| - i
  {
    if i < |vin| && !vin[i].UnsupportedIn? {
      var spent' := if vin[i].ToKey? then spent + {vin[i].image} else spent;
      AbortedInputs(spent', vin, i + 1);
      assert vin[i].ToKey? ==> vin[i].image in Images(vin);
      assert spent' - Images(vin) == spent - Images(vin);
    }
  }

  lemma UnsupportedCut(tx: Transaction)
    ensures Supported(tx) <==> FirstUnsupported(tx.vin, 0) == |tx.vin|
  {
  }

  /** A transaction with an unsupported input is dropped after the inputs before it were marked and all
      of its images were unmarked. It throws exactly if an image before that input is repeated or was
      spent; otherwise nothing is left of it but the images it un-spent; and the store is as it was
      exactly if no image of it was spent and none before that input is repeated. */
  lemma UnsupportedLeavesNoTrace(t: Tables, tx: Transaction, hash: Hash)
    requires !Supported(tx)
    ensures var cut := FirstUnsupported(tx.vin, 0);
            && (AddTx(t, tx, hash).Some? <==>
                UnspentImages(t.spent, tx.vin, 0, cut) && DistinctImages(tx.vin, 0, cut))
            && (AddTx(t, tx, hash).Some? ==> AddTx(t, tx, hash) == Some(t.(spent := t.spent - Images(tx.vin))))
            && (AddTx(t, tx, hash) == Some(t) <==> t.spent !! Images(tx.vin) && DistinctImages(tx.vin, 0, cut))
  {
    var cut, images := FirstUnsupported(tx.vin, 0), Images(tx.vin);
    UnsupportedCut(tx);
    InputsOutcome(t.spent, tx.vin, 0);
    if AddInputs(t.spent, tx.vin, 0).Aborted? {
      AbortedInputs(t.spent, tx.vin, 0);
      assert t.spent - images == t.spent <==> t.spent !! images by {
        assert forall im :: im in t.spent - images <==> im in t.spent && im !in images;
      }
    }
    if t.spent !! images {
      assert forall j | 0 <= j < cut && tx.vin[j].ToKey? :: tx.vin[j].image in images;
    }
  }

  // ---------- outputs ----------

  function Count(amounts: seq<Amount>, a: Amount): nat {
    if amounts == [] then 0
    else Count(amounts[..|amounts| - 1], a) + if amounts[|amounts| - 1] == a then 1 else 0
  }

  lemma {:induction false} CountConcat(xs: seq<Amount>, ys: seq<Amount>, a: Amount)
    ensures Count(xs + ys, a) == Count(xs, a) + Count(ys, a)
    decreases |ys|
  {
    if ys == [] {
      assert xs + ys == xs;
    } else {
      assert (xs + ys)[..|xs + ys| - 1] == xs + ys[..|ys| - 1];
      CountConcat(xs, ys[..|ys| - 1], a);
    }
  }

  /** The amounts the first `k` outputs are stored under, and the ones they are looked up under. */
  function StoredUpTo(tx: Transaction, k: nat): (s: seq<Amount>)
    requires k <= |tx.vout|
    ensures |s| == k && forall i | 0 <= i < k :: s[i] == StoredAmount(tx, i)
  {
    if k == 0 then [] else StoredUpTo(tx, k - 1) + [StoredAmount(tx, k - 1)]
  }

  function RemovedUpTo(tx: Transaction, k: nat): (s: seq<Amount>)
    requires k <= |tx.vout|
    ensures |s| == k && forall i | 0 <= i < k :: s[i] == RemovedAmount(tx, i)
  {
    if k == 0 then [] else RemovedUpTo(tx, k - 1) + [RemovedAmount(tx, k - 1)]
  }

  /** Every list has become longer by as many outputs as `added` says. */
  ghost predicate Longer(amounts: Amounts, amounts': Amounts, added: seq<Amount>) {
    forall a :: |BucketOf(amounts', a)| == |BucketOf(amounts, a)| + Count(added, a)
  }

  lemma AppendLonger(amounts: Amounts, amount: Amount, row: OutKey)
    requires |BucketOf(amounts, amount)| !in BucketOf(amounts, amount)
    ensures forall a :: |BucketOf(Append(amounts, amount, row), a)| ==
                        |BucketOf(amounts, a)| + if a == amount then 1 else 0
  {
  }

  lemma DenseRoom(outs: Outputs, amount: Amount)
    requires DenseOutputs(outs)
    ensures Room(outs, amount)
  {
  }

  lemma AddOutputSound(outs: Outputs, hash: Hash, tx: Transaction, i: nat, height: nat)
    requires DenseOutputs(outs) && i < |tx.vout| && Storable(tx, i)
    ensures AddOutput(outs, hash, tx, i, height).Some?
    ensures var outs' := AddOutput(outs, hash, tx, i, height).value;
            DenseOutputs(outs') && |outs'.txs| == |outs.txs| + 1
  {
    DenseRoom(outs, StoredAmount(tx, i));
    DenseAppend(outs.txs, OutTx(hash, i));
    DenseAppend(BucketOf(outs.amounts, StoredAmount(tx, i)), OutKeyOf(tx, i, |outs.txs|, height));
  }

  /** The step from `k` to `k + 1` outputs. */
  ghost predicate OneMore(a: Adding, a': Adding, hash: Hash, tx: Transaction, k: nat, height: nat) {
    && k < |tx.vout| && |a.indices| == k
    && AddOutput(a.outs, hash, tx, k, height) == Some(a'.outs)
    && a'.indices == a.indices + [|BucketOf(a.outs.amounts, StoredAmount(tx, k))|]
  }

  lemma {:induction false} AddOutputsIndices(outs: Outputs, hash: Hash, tx: Transaction, k: nat, height: nat)
    requires k <= |tx.vout| && AddOutputs(outs, hash, tx, k, height).Some?
    ensures |AddOutputs(outs, hash, tx, k, height).value.indices| == k
  {
    if k > 0 {
      AddOutputsIndices(outs, hash, tx, k - 1, height);
    }
  }

  lemma AddOutputsStep(outs: Outputs, hash: Hash, tx: Transaction, k: nat, height: nat)
    requires k < |tx.vout| && AddOutputs(outs, hash, tx, k + 1, height).Some?
    ensures AddOutputs(outs, hash, tx, k, height).Some?
    ensures OneMore(AddOutputs(outs, hash, tx, k, height).value, AddOutputs(outs, hash, tx, k + 1, height).value,
                    hash, tx, k, height)
  {
    AddOutputsIndices(outs, hash, tx, k, height);
  }

  lemma LongerStep(amounts: Amounts, a: Adding, a': Adding, hash: Hash, tx: Transaction, k: nat, height: nat)
    requires OneMore(a, a', hash, tx, k, height) && Longer(amounts, a.outs.amounts, StoredUpTo(tx, k))
    ensures Longer(amounts, a'.outs.amounts, StoredUpTo(tx, k + 1))
  {
    AppendLonger(a.outs.amounts, StoredAmount(tx, k), OutKeyOf(tx, k, |a.outs.txs|, height));
    assert StoredUpTo(tx, k + 1)[..k] == StoredUpTo(tx, k);
  }

  /** In whatever state the tables are, storing outputs makes each list longer by as many as go there. */
  lemma {:induction false} AddOutputsLonger(outs: Outputs, hash: Hash, tx: Transaction, k: nat, height: nat)
    requires k <= |tx.vout| && AddOutputs(outs, hash, tx, k, height).Some?
    ensures Longer(outs.amounts, AddOutputs(outs, hash, tx, k, height).value.outs.amounts, StoredUpTo(tx, k))
  {
    if k > 0 {
      var j, a' := k - 1, AddOutputs(outs, hash, tx, k, height).value;
      AddOutputsStep(outs, hash, tx, j, height);
      AddOutputsLonger(outs, hash, tx, j, height);
      LongerStep(outs.amounts, AddOutputs(outs, hash, tx, j, height).value, a', hash, tx, j, height);
    }
  }

  lemma {:induction false} AddOutputsSound(outs: Outputs, hash: Hash, tx: Transaction, k: nat, height: nat)
    requires DenseOutputs(outs) && k <= |tx.vout| && AddOutputs(outs, hash, tx, k, height).Some?
    ensures DenseOutputs(AddOutputs(outs, hash, tx, k, height).value.outs)
  {
    if k > 0 {
      AddOutputsSound(outs, hash, tx, k - 1, height);
      AddOutputSound(AddOutputs(outs, hash, tx, k - 1, height).value.outs, hash, tx, k - 1, height);
    }
  }

  // ---------- transactions and blocks ----------

  /** In whatever state the tables are, a supported transaction that is added has its outputs stored. */
  lemma AddTxOutputs(t: Tables, tx: Transaction, hash: Hash)
    requires Supported(tx) && AddTx(t, tx, hash).Some?
    ensures AddOutputs(t.outs, hash, tx, |tx.vout|, |t.blocks|).Some?
    ensures AddTx(t, tx, hash).value.outs == AddOutputs(t.outs, hash, tx, |tx.vout|, |t.blocks|).value.outs
    ensures AddTx(t, tx, hash).value.index.Keys == t.index.Keys + {hash}
  {
    UnsupportedCut(tx);
    InputsOutcome(t.spent, tx.vin, 0);
  }

  /** What adding a supported transaction does to the inputs and outputs. */
  lemma AddTxAccepted(t: Tables, tx: Transaction, hash: Hash)
    requires Sound(t) && Supported(tx) && AddTx(t, tx, hash).Some?
    ensures hash !in t.index && AddInputs(t.spent, tx.vin, 0).Accepted?
    ensures AddInputs(t.spent, tx.vin, 0).spent - Images(tx.vin) == t.spent
    ensures var added := AddOutputs(t.outs, hash, tx, |tx.vout|, |t.blocks|);
            && added.Some? && |added.value.indices| == |tx.vout| && DenseOutputs(added.value.outs)
            && AddTx(t, tx, hash).value == PutIn(t, tx, hash, AddInputs(t.spent, tx.vin, 0).spent, added.value)
  {
    UnsupportedCut(tx);
    InputsOutcome(t.spent, tx.vin, 0);
    AcceptedInputs(t.spent, tx.vin, 0);
    assert tx.vin[0..] == tx.vin;
    AddOutputsIndices(t.outs, hash, tx, |tx.vout|, |t.blocks|);
    AddOutputsSound(t.outs, hash, tx, |tx.vout|, |t.blocks|);
  }

  lemma PutInSound(t: Tables, tx: Transaction, hash: Hash, spent: set<KeyImage>, a: Adding)
    requires Sound(t) && DenseOutputs(a.outs)
    ensures Sound(PutIn(t, tx, hash, spent, a)) && |PutIn(t, tx, hash, spent, a).rows| == |t.rows| + 1
  {
    DenseAppend(t.rows, tx);
  }

  /** Addition keeps the tables without holes; only a supported transaction gets a row. */
  lemma AddTxSound(t: Tables, tx: Transaction, hash: Hash)
    requires Sound(t) && AddTx(t, tx, hash).Some?
    ensures Sound(AddTx(t, tx, hash).value)
    ensures |AddTx(t, tx, hash).value.rows| == |t.rows| + if Supported(tx) then 1 else 0
  {
    if Supported(tx) {
      AddTxAccepted(t, tx, hash);
      var a := AddOutputs(t.outs, hash, tx, |tx.vout|, |t.blocks|).value;
      PutInSound(t, tx, hash, AddInputs(t.spent, tx.vin, 0).spent, a);
    } else {
      UnsupportedLeavesNoTrace(t, tx, hash);
    }
  }

  ghost function SupportedCount(txs: seq<Transaction>): nat {
    if txs == [] then 0
    else SupportedCount(txs[..|txs| - 1]) + if Supported(txs[|txs| - 1]) then 1 else 0
  }

  lemma {:induction false} SupportedCountFull(txs: seq<Transaction>)
    ensures SupportedCount(txs) <= |txs|
    ensures SupportedCount(txs) == |txs| <==> forall i | 0 <= i < |txs| :: Supported(txs[i])
  {
    if txs != [] {
      SupportedCountFull(txs[..|txs| - 1]);
      assert forall i | 0 <= i < |txs| - 1 :: txs[i] == txs[..|txs| - 1][i];
    }
  }

  lemma {:induction false} AddTxsSound(t: Tables, hashes: seq<Hash>, txs: seq<Transaction>)
    requires Sound(t) && |hashes| == |txs| && AddTxs(t, hashes, txs).Some?
    ensures Sound(AddTxs(t, hashes, txs).value)
    ensures |AddTxs(t, hashes, txs).value.rows| == |t.rows| + SupportedCount(txs)
    decreases |txs|
  {
    if txs != [] {
      var n, t'' := |txs| - 1, AddTxs(t, hashes, txs).value;
      AddTxsSound(t, hashes[..n], txs[..n]);
      var t' := AddTxs(t, hashes[..n], txs[..n]).value;
      assert AddTx(t', txs[n], hashes[n]) == Some(t'');
      AddTxSound(t', txs[n], hashes[n]);
    }
  }

  lemma {:induction false} AddTxsKeepBlocks(t: Tables, hashes: seq<Hash>, txs: seq<Transaction>)
    requires |hashes| == |txs| && AddTxs(t, hashes, txs).Some?
    ensures var t' := AddTxs(t, hashes, txs).value;
            t'.blocks == t.blocks && t'.infos == t.infos && t'.heights == t.heights
    decreases |txs|
  {
    if txs != [] {
      AddTxsKeepBlocks(t, hashes[..|txs| - 1], txs[..|txs| - 1]);
    }
  }

  /** The tables after each part of the addition of a block. */
  lemma AddBlockParts(t: Tables, e: Entry)
    requires AddBlock(t, e).Some?
    ensures |e.block.txHashes| == |e.txs|
    ensures var t1 := AddTx(t, e.block.minerTx, e.block.minerHash);
            && t1.Some?
            && var t2 := AddTxs(t1.value, e.block.txHashes, e.txs);
               && t2.Some? && AddRow(t2.value, e) == AddBlock(t, e)
               && t2.value.blocks == t.blocks && t2.value.infos == t.infos && t2.value.heights == t.heights
  {
    AddTxsKeepBlocks(AddTx(t, e.block.minerTx, e.block.minerHash).value, e.block.txHashes, e.txs);
  }

  lemma AddBlockSound(t: Tables, e: Entry)
    requires Sound(t) && AddBlock(t, e).Some?
    ensures Sound(AddBlock(t, e).value) && AddBlock(t, e).value.blocks == t.blocks + [e.block]
  {
    AddBlockParts(t, e);
    var t1 := AddTx(t, e.block.minerTx, e.block.minerHash).value;
    AddTxSound(t, e.block.minerTx, e.block.minerHash);
    AddTxsSound(t1, e.block.txHashes, e.txs);
  }
}
