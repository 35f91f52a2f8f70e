/** Blocks on which the store does not do what one would expect of it. */
module StoreWitnesses {
  import opened Optional
  import opened StoreTables
  import opened StoreSound
  import opened StoreSlots
  import opened StoreUndo
  import opened StoreIndex
  import opened StoreRct

  /** A miner transaction with one output. */
  function Mint(version: nat, amount: Amount): Transaction {
    Transaction(version, 0, [Gen], [TxOut(amount, ToKeyTarget(1), 2)])
  }

  /** A block at this height holding just a miner transaction, of a chain whose hashes count up. */
  function MintBlock(height: nat, minerTx: Transaction): Entry {
    Entry(Block(height + 1, height, 1, minerTx, height, []), [], 0, 0, 0)
  }

  lemma AddMint(t: Tables, version: nat, amount: Amount, hash: Hash)
    requires Sound(t) && hash !in t.index && (version > 1 || amount > 0)
    ensures var tx := Mint(version, amount);
            var added := AddOutput(t.outs, hash, tx, 0, |t.blocks|);
            && added.Some?
            && AddTx(t, tx, hash) ==
               Some(PutIn(t, tx, hash, t.spent,
                          Adding(added.value, [|BucketOf(t.outs.amounts, StoredAmount(tx, 0))|])))
  {
    var tx := Mint(version, amount);
    assert tx.vin[0].Gen?;
    assert AddInputs(t.spent, tx.vin, 0) == AddInputs(t.spent, tx.vin, 1) == Accepted(t.spent);
    DenseRoom(t.outs, StoredAmount(tx, 0));
    var n, added := |BucketOf(t.outs.amounts, StoredAmount(tx, 0))|, AddOutput(t.outs, hash, tx, 0, |t.blocks|);
    assert AddOutputs(t.outs, hash, tx, 0, |t.blocks|) == Some(Adding(t.outs, []));
    assert AddOutputs(t.outs, hash, tx, 1, |t.blocks|) == Some(Adding(added.value, [] + [n]));
    assert [] + [n] == [n];
  }

  /** Such a block can be stored on top of a block with its parent's hash. */
  lemma AddMintBlock(t: Tables, version: nat, amount: Amount)
    requires Sound(t) && (version > 1 || amount > 0)
    requires var h := |t.blocks|;
             h !in t.index && h + 1 !in t.heights && (h > 0 ==> h in t.heights && t.heights[h] == h - 1)
    ensures var h := |t.blocks|;
            var tx := Mint(version, amount);
            var added, e := AddOutput(t.outs, h, tx, 0, h), MintBlock(h, tx);
            && added.Some? && AddBlock(t, e).Some?
            && var t' := AddBlock(t, e).value;
               && t'.outs == added.value && t'.blocks == t.blocks + [e.block]
               && t'.infos == t.infos + [BlockInfo(0, 0, 0, if version == 2 then 1 else 0, h + 1)]
               && t'.index == t.index[h := TxIndex(|t.rows|, 0, h)] && t'.rows == t.rows[|t.rows| := tx]
               && t'.outIndices == t.outIndices[|t.rows| := [|BucketOf(t.outs.amounts, StoredAmount(tx, 0))|]]
               && t'.heights == t.heights[h + 1 := h]
  {
    AddMint(t, version, amount, |t.blocks|);
  }

  /** A version 3 miner transaction with an amount is looked up under 0 and not found there. */
  lemma Version3Stays()
    ensures var e := MintBlock(0, Mint(3, 5));
            AddBlock(EMPTY, e).Some? && !PopsBackTo(AddBlock(EMPTY, e).value, EMPTY)
  {
    var e := MintBlock(0, Mint(3, 5));
    assert Sound(EMPTY);
    AddMintBlock(EMPTY, 3, 5);
    PopUndoesAdd(EMPTY, e);
    MinerDecides(EMPTY, e);
    MinerAgrees(Mint(3, 5));
  }

  /** The same with one more transaction. */
  function MintBlockWith(height: nat, minerTx: Transaction, hash: Hash, tx: Transaction): Entry {
    Entry(Block(height + 1, height, 1, minerTx, height, [hash]), [tx], 0, 0, 0)
  }

  lemma AddOneTx(t: Tables, t': Tables, hash: Hash, tx: Transaction)
    requires AddTx(t, tx, hash) == Some(t')
    ensures AddTxs(t, [hash], [tx]) == Some(t')
    ensures t'.blocks == t.blocks && t'.infos == t.infos && t'.heights == t.heights
  {
    assert [hash][..0] == [] && [tx][..0] == [];
    assert AddTxs(t, [], []) == Some(t);
  }

  /** Such a block is stored if its transactions are. */
  lemma AddMintBlockWith(t: Tables, t1: Tables, t2: Tables, minerTx: Transaction, hash: Hash, tx: Transaction)
    requires var h := |t.blocks|;
             && AddTx(t, minerTx, h) == Some(t1) && AddTx(t1, tx, hash) == Some(t2)
             && h + 1 !in t.heights && (h > 0 ==> h in t.heights && t.heights[h] == h - 1)
    ensures var e := MintBlockWith(|t.blocks|, minerTx, hash, tx);
            && AddBlock(t, e).Some?
            && AddRow(t2, e) == AddBlock(t, e)
            && t2.blocks == t.blocks && t2.infos == t.infos && t2.heights == t.heights
  {
    AddOneTx(t, t1, |t.blocks|, minerTx);
    AddOneTx(t1, t2, hash, tx);
  }

  lemma AddDropped(t: Tables, tx: Transaction, hash: Hash)
    requires tx.vin != [] && tx.vin[0].UnsupportedIn?
    ensures AddTx(t, tx, hash) == Some(t.(spent := t.spent - Images(tx.vin)))
  {
  }

  /** A block with a transaction that was dropped is stored, and can never be popped. */
  lemma DroppedStays()
    ensures var e := MintBlockWith(0, Mint(1, 5), 9, Transaction(1, 0, [UnsupportedIn], []));
            AddBlock(EMPTY, e).Some? && PopBlock(AddBlock(EMPTY, e).value).None?
  {
    var tx := Transaction(1, 0, [UnsupportedIn], []);
    var e := MintBlockWith(0, Mint(1, 5), 9, tx);
    assert Sound(EMPTY);
    AddMint(EMPTY, 1, 5, 0);
    var t1 := AddTx(EMPTY, Mint(1, 5), 0).value;
    AddDropped(t1, tx, 9);
    AddMintBlockWith(EMPTY, t1, AddTx(t1, tx, 9).value, Mint(1, 5), 9, tx);
    assert tx.vin[0].UnsupportedIn? && !Supported(e.txs[0]);
    if PopBlock(AddBlock(EMPTY, e).value).Some? {
      DroppedFound(EMPTY, e);
    }
  }

  // ---------- a spent image becomes unspent ----------

  /** A block that spends image 7, and one that holds an unsupported transaction with the same image. */
  const SPENDING := MintBlockWith(0, Mint(1, 5), 9, Transaction(1, 0, [ToKey(7)], []))
  const UNSPENDING := MintBlockWith(1, Mint(1, 5), 8, Transaction(1, 0, [UnsupportedIn, ToKey(7)], []))

  lemma SpendOne(spent: set<KeyImage>, image: KeyImage)
    requires image !in spent
    ensures AddInputs(spent, [ToKey(image)], 0) == Accepted(spent + {image})
  {
    assert AddInputs(spent + {image}, [ToKey(image)], 1) == Accepted(spent + {image});
  }

  lemma AddBare(t: Tables, tx: Transaction, hash: Hash, spent: set<KeyImage>)
    requires Sound(t) && hash !in t.index && tx.vout == [] && AddInputs(t.spent, tx.vin, 0) == Accepted(spent)
    ensures AddTx(t, tx, hash) == Some(PutIn(t, tx, hash, spent, Adding(t.outs, [])))
  {
    assert Below(t.rows, |t.rows|) && Below(t.outIndices, |t.rows|);
  }

  lemma AddSpending(t: Tables)
    requires Sound(t) && 9 !in t.index && 7 !in t.spent
    ensures var tx := Transaction(1, 0, [ToKey(7)], []);
            && AddTx(t, tx, 9).Some?
            && AddTx(t, tx, 9).value.spent == t.spent + {7} && AddTx(t, tx, 9).value.index.Keys == t.index.Keys + {9}
  {
    var tx := Transaction(1, 0, [ToKey(7)], []);
    SpendOne(t.spent, 7);
    AddBare(t, tx, 9, t.spent + {7});
  }

  lemma SpendingStored()
    ensures Replayable([SPENDING])
    ensures var t := Replay([SPENDING]);
            Sound(t) && t.spent == {7} && t.index.Keys == {0, 9} && |t.blocks| == 1 && t.heights == map[1 := 0]
  {
    assert Sound(EMPTY);
    AddMint(EMPTY, 1, 5, 0);
    var t1, tx := AddTx(EMPTY, Mint(1, 5), 0).value, Transaction(1, 0, [ToKey(7)], []);
    AddTxSound(EMPTY, Mint(1, 5), 0);
    AddSpending(t1);
    AddMintBlockWith(EMPTY, t1, AddTx(t1, tx, 9).value, Mint(1, 5), 9, tx);
    ReplaySnoc([], SPENDING);
    assert [] + [SPENDING] == [SPENDING];
    ReplaySound([SPENDING]);
  }

  /** A key image spent by a stored transaction can become unspent: an input after the unsupported one
      is never marked, and loses its mark all the same. */
  lemma UnsupportedCanUnspend()
    ensures Replayable([SPENDING, UNSPENDING])
    ensures Replay([SPENDING]).spent == {7} && 9 in Replay([SPENDING]).index
    ensures Replay([SPENDING, UNSPENDING]).spent == {} && 9 in Replay([SPENDING, UNSPENDING]).index
  {
    SpendingStored();
    var t, tx := Replay([SPENDING]), Transaction(1, 0, [UnsupportedIn, ToKey(7)], []);
    AddMint(t, 1, 5, 1);
    var t1 := AddTx(t, Mint(1, 5), 1).value;
    AddDropped(t1, tx, 8);
    var t2 := AddTx(t1, tx, 8).value;
    assert t2.spent == {} by {
      assert tx.vin[1].image in Images(tx.vin);
    }
    AddMintBlockWith(t, t1, t2, Mint(1, 5), 8, tx);
    ReplaySnoc([SPENDING], UNSPENDING);
    assert [SPENDING] + [UNSPENDING] == [SPENDING, UNSPENDING];
  }

  // ---------- the recorded and the running count ----------

  /** The zero-amount output of a version 3 miner transaction is stored under 0 and not counted. */
  lemma Version3NotCounted()
    ensures var e := MintBlock(0, Mint(3, 0));
            && AddBlock(EMPTY, e).Some? && NumRctOuts(e) == 0
            && RctSize(AddBlock(EMPTY, e).value.outs) == 1
  {
    assert Sound(EMPTY);
    AddMintBlock(EMPTY, 3, 0);
  }

  /** The store after one block with a version 2 miner transaction. */
  ghost predicate OneMint(t: Tables) {
    && Sound(t) && |t.blocks| == 1 && t.infos == [BlockInfo(0, 0, 0, 1, 1)] && t.heights == map[1 := 0]
    && t.index == map[0 := TxIndex(0, 0, 0)] && t.rows == map[0 := Mint(2, 5)] && t.outIndices == map[0 := [0]]
    && t.outs.txs == map[0 := OutTx(0, 0)]
    && t.outs.amounts == map[0 := map[0 := OutKey(0, 1, 0, 0, ZeroCommit(5))]]
  }

  lemma FirstMint()
    ensures var first := MintBlock(0, Mint(2, 5));
            Replayable([first]) && OneMint(Replay([first]))
  {
    var first := MintBlock(0, Mint(2, 5));
    assert Sound(EMPTY);
    AddMintBlock(EMPTY, 2, 5);
    ReplaySnoc([], first);
    assert [] + [first] == [first];
    ReplaySound([first]);
  }

  /** On top of it, a second miner block can be stored. */
  lemma SecondMint(version: nat, amount: Amount)
    requires version > 1 || amount > 0
    ensures var first, second := MintBlock(0, Mint(2, 5)), MintBlock(1, Mint(version, amount));
            && Replayable([first, second])
            && AddBlock(Replay([first]), second) == Some(Replay([first, second]))
  {
    var first, second := MintBlock(0, Mint(2, 5)), MintBlock(1, Mint(version, amount));
    FirstMint();
    var t := Replay([first]);
    AddMintBlock(t, version, amount);
    ReplaySnoc([first], second);
    assert [first] + [second] == [first, second];
  }

  lemma SecondCounts(t: Tables, t': Tables)
    requires OneMint(t) && AddBlock(t, MintBlock(1, Mint(2, 5))) == Some(t')
    ensures RctTracked(t) && !RctTracked(t')
  {
    AddMintBlock(t, 2, 5);
  }

  /** A block below version 4 starts its running count afresh. */
  lemma CountRestarts()
    ensures var first, second := MintBlock(0, Mint(2, 5)), MintBlock(1, Mint(2, 5));
            && Replayable([first, second])
            && RctTracked(Replay([first])) && !RctTracked(Replay([first, second]))
  {
    var first, second := MintBlock(0, Mint(2, 5)), MintBlock(1, Mint(2, 5));
    FirstMint();
    SecondMint(2, 5);
    SecondCounts(Replay([first]), Replay([first, second]));
  }

  /** The version 3 output was put under 5 and is looked up under 0, where the first output is. */
  lemma WrongPlace(t: Tables)
    requires OneMint(t)
    ensures var tx := Mint(3, 5);
            Places(t.outs.amounts, LookedAmounts(tx), StoredAmounts(tx)) == [(0, 0)]
  {
    var tx := Mint(3, 5);
    assert tx.vin[0].Gen?;
    assert StoredAmounts(tx) == [5] && LookedAmounts(tx) == [0];
    assert [5][..0] == [];
  }

  lemma WrongSlot(outs: Outputs)
    requires 0 in outs.amounts && outs.amounts[0].Keys == {0} && outs.amounts[0][0].outputId in outs.txs
    ensures RemoveSlots(outs, [(0, 0)]).Some? && RctSize(RemoveSlots(outs, [(0, 0)]).value) == 0
  {
    assert [(0, 0)][..0] == [];
    assert outs.amounts[0] - {0} == map[];
  }

  lemma WrongPlacePopped(t: Tables, t': Tables)
    requires OneMint(t) && AddBlock(t, MintBlock(1, Mint(3, 5))) == Some(t')
    ensures PopBlock(t') == PoppedWith(t, RemoveSlots(t'.outs, [(0, 0)]), [])
  {
    var e := MintBlock(1, Mint(3, 5));
    assert LookedOf(e) == LookedAmounts(Mint(3, 5)) && StoredOf(e) == StoredAmounts(Mint(3, 5));
    PopAfterAdd(t, e);
    WrongPlace(t);
  }

  lemma FirstOutputThere(t: Tables, t': Tables)
    requires OneMint(t) && AddBlock(t, MintBlock(1, Mint(3, 5))) == Some(t')
    ensures var outs := t'.outs;
            0 in outs.amounts && outs.amounts[0].Keys == {0} && outs.amounts[0][0].outputId in outs.txs
  {
    AddMintBlock(t, 3, 5);
  }

  lemma WrongOutputTaken(t: Tables, t': Tables)
    requires OneMint(t) && AddBlock(t, MintBlock(1, Mint(3, 5))) == Some(t')
    ensures PopBlock(t').Some?
    ensures var p := PopBlock(t').value.t;
            && p.index == t.index && p.rows == t.rows && p.outIndices == t.outIndices
            && RctSize(p.outs) == 0
  {
    WrongPlacePopped(t, t');
    FirstOutputThere(t, t');
    WrongSlot(t'.outs);
  }

  lemma NotIndexed(t: Tables)
    requires t.index == map[0 := TxIndex(0, 0, 0)] && t.rows == map[0 := Mint(2, 5)]
    requires t.outIndices == map[0 := [0]] && RctSize(t.outs) == 0
    ensures !Indexed(t)
  {
    assert StoredAmount(Mint(2, 5), 0) == 0 by {
      assert Mint(2, 5).vin[0].Gen?;
    }
    assert 0 in t.index && !Located(t.outs, 0, 0, 0, Mint(2, 5), 0, 0);
  }

  /** Popping a version 3 miner block can succeed and take the output of another transaction. */
  lemma PopTakesAnother()
    ensures var first, second := MintBlock(0, Mint(2, 5)), MintBlock(1, Mint(3, 5));
            && Replayable([first, second]) && Indexed(Replay([first, second]))
            && PopBlock(Replay([first, second])).Some?
            && var t := PopBlock(Replay([first, second])).value.t;
               t.index == Replay([first]).index && RctSize(t.outs) == 0 && !Indexed(t)
  {
    var first, second := MintBlock(0, Mint(2, 5)), MintBlock(1, Mint(3, 5));
    FirstMint();
    SecondMint(3, 5);
    ReplayIndexed([first, second]);
    WrongOutputTaken(Replay([first]), Replay([first, second]));
    NotIndexed(PopBlock(Replay([first, second])).value.t);
  }

  // ---------- a dropped transaction under an old hash ----------

  /** A block with a transaction that is dropped, listed under the hash of the first miner transaction. */
  const RELISTING := MintBlockWith(1, Mint(2, 5), 0, Transaction(1, 0, [UnsupportedIn], []))

  const FIRST_ROW := OutKey(0, 1, 0, 0, ZeroCommit(5))
  const SECOND_ROW := OutKey(1, 1, 0, 1, ZeroCommit(5))
  const BOTH := Outputs(map[0 := OutTx(0, 0), 1 := OutTx(1, 0)], map[0 := map[0 := FIRST_ROW, 1 := SECOND_ROW]])
  const SECOND_ONLY := Outputs(map[1 := OutTx(1, 0)], map[0 := map[1 := SECOND_ROW]])

  /** Two version 2 miner transactions are stored, and nothing else. */
  ghost predicate TwoMints(t: Tables) {
    && t.index == map[0 := TxIndex(0, 0, 0), 1 := TxIndex(1, 0, 1)]
    && t.rows == map[0 := Mint(2, 5), 1 := Mint(2, 5)] && t.outIndices == map[0 := [0], 1 := [1]]
    && t.outs == BOTH
  }

  lemma RelistingStored(t: Tables)
    requires OneMint(t)
    ensures AddBlock(t, RELISTING).Some?
    ensures var t' := AddBlock(t, RELISTING).value;
            && TwoMints(t') && t'.blocks == t.blocks + [RELISTING.block] && |t'.infos| == 2
            && t'.infos[1].hash in t'.heights
  {
    var tx := Transaction(1, 0, [UnsupportedIn], []);
    AddMint(t, 2, 5, 1);
    var t1 := AddTx(t, Mint(2, 5), 1).value;
    assert TwoMints(t1);
    AddDropped(t1, tx, 0);
    AddMintBlockWith(t, t1, AddTx(t1, tx, 0).value, Mint(2, 5), 0, tx);
  }

  lemma RemoveMint(t: Tables, hash: Hash, n: nat)
    requires hash in t.index && t.index[hash].txId in t.rows && t.rows[t.index[hash].txId] == Mint(2, 5)
    requires t.index[hash].txId in t.outIndices && t.outIndices[t.index[hash].txId] == [n]
    requires RemoveOutput(t.outs, 0, n).Some?
    ensures RemoveTx(t, hash) == Some(TakenOut(t, hash, Mint(2, 5), RemoveOutput(t.outs, 0, n).value))
  {
    var outs := RemoveOutput(t.outs, 0, n).value;
    assert Mint(2, 5).vin[0].Gen?;
    assert RemoveOutputs(outs, Mint(2, 5), [n], 0) == Some(outs);
    assert RemoveOutputs(t.outs, Mint(2, 5), [n], 1) == Some(outs);
  }

  lemma OutputsTaken()
    ensures RemoveOutput(BOTH, 0, 0) == Some(SECOND_ONLY)
    ensures RemoveOutput(SECOND_ONLY, 0, 1) == Some(Outputs(map[], map[]))
  {
    var bucket: Bucket, left: Bucket := map[0 := FIRST_ROW, 1 := SECOND_ROW], map[1 := SECOND_ROW];
    assert bucket - {0} == left && left - {1} == map[];
    assert 1 in left && left != map[];
    assert Delete(BOTH.amounts, 0, 0) == SECOND_ONLY.amounts && Delete(SECOND_ONLY.amounts, 0, 1) == map[];
    assert BOTH.txs - {0} == SECOND_ONLY.txs && SECOND_ONLY.txs - {1} == map[];
  }

  /** The first of them is gone. */
  ghost predicate SecondLeft(t: Tables) {
    && t.index == map[1 := TxIndex(1, 0, 1)] && t.rows == map[1 := Mint(2, 5)] && t.outIndices == map[1 := [1]]
    && t.outs == SECOND_ONLY
  }

  lemma FirstRemoved(t: Tables)
    requires TwoMints(t)
    ensures RemoveTx(t, 0).Some?
    ensures var t' := RemoveTx(t, 0).value; SecondLeft(t') && t'.blocks == t.blocks && t'.infos == t.infos
  {
    OutputsTaken();
    RemoveMint(t, 0, 0);
    assert t.index - {0} == map[1 := TxIndex(1, 0, 1)];
    assert t.rows - {0} == map[1 := Mint(2, 5)];
    assert t.outIndices - {0} == map[1 := [1]];
  }

  lemma SecondRemoved(t: Tables)
    requires SecondLeft(t)
    ensures RemoveTx(t, 1).Some?
    ensures var p := RemoveTx(t, 1).value;
            && p.index == map[] && p.rows == map[] && p.outIndices == map[] && p.outs == Outputs(map[], map[])
            && p.blocks == t.blocks && p.infos == t.infos
  {
    OutputsTaken();
    RemoveMint(t, 1, 1);
  }

  lemma NothingStored(t: Tables)
    requires t.index == map[] && t.rows == map[] && t.outIndices == map[] && t.outs == Outputs(map[], map[])
    requires |t.infos| == |t.blocks|
    ensures Indexed(t)
  {
  }

  lemma PopTwo(t: Tables, row: Tables, left: Tables, p: Tables, hash: Hash)
    requires t.blocks != [] && t.blocks[|t.blocks| - 1].txHashes == [hash] && RemoveRow(t) == Some(row)
    requires RemoveTx(row, hash) == Some(left) && RemoveTx(left, t.blocks[|t.blocks| - 1].minerHash) == Some(p)
    ensures PopBlock(t).Some? && PopBlock(t).value.t == p
  {
    assert [hash][..0] == [] && RemoveTxs(left, []) == Some(Popped(left, []));
    assert RemoveTxs(row, [hash]).Some? && RemoveTxs(row, [hash]).value.t == left;
  }

  lemma OldHashTaken(t: Tables)
    requires TwoMints(t) && |t.blocks| == 2 && t.blocks[1] == RELISTING.block
    requires |t.infos| == 2 && t.infos[1].hash in t.heights
    ensures PopBlock(t).Some? && Indexed(PopBlock(t).value.t)
  {
    var row := RemoveRow(t).value;
    FirstRemoved(row);
    var left := RemoveTx(row, 0).value;
    SecondRemoved(left);
    PopTwo(t, row, left, RemoveTx(left, 1).value, 0);
    NothingStored(RemoveTx(left, 1).value);
  }

  /** Popping such a block removes the older transaction along with its own, and what is left can still
      match one to one: a block that is not restorable is popped and the store stays indexed. */
  lemma OldHashPopped()
    ensures var first := MintBlock(0, Mint(2, 5));
            && Replayable([first, RELISTING]) && !TopRestorable([first, RELISTING])
            && PopBlock(Replay([first, RELISTING])).Some? && Indexed(PopBlock(Replay([first, RELISTING])).value.t)
  {
    var first := MintBlock(0, Mint(2, 5));
    FirstMint();
    var t := Replay([first]);
    RelistingStored(t);
    ReplaySnoc([first], RELISTING);
    assert [first] + [RELISTING] == [first, RELISTING];
    assert [first, RELISTING][..1] == [first];
    assert RELISTING.txs[0].vin[0].UnsupportedIn? && !Supported(RELISTING.txs[0]);
    OldHashTaken(AddBlock(t, RELISTING).value);
  }
}
