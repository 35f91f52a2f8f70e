/** The number of amount-0 outputs a block is recorded with, against the number it really adds. */
module StoreRct {
  import opened Optional
  import opened StoreTables
  import opened StoreSound
  import opened StoreSlots
  import opened StoreUndo
  import opened StoreLinks

  // ---------- how many outputs really go under amount 0 ----------

  function RctSize(outs: Outputs): nat {
    |BucketOf(outs.amounts, 0)|
  }

  /** How much a transaction lengthens the amount-0 list. */
  ghost function Growth(tx: Transaction): nat {
    if Supported(tx) then Count(StoredAmounts(tx), 0) else 0
  }

  ghost function GrowthOfAll(txs: seq<Transaction>): nat {
    if txs == [] then 0 else GrowthOfAll(txs[..|txs| - 1]) + Growth(txs[|txs| - 1])
  }

  ghost function BlockGrowth(e: Entry): nat {
    Growth(e.block.minerTx) + GrowthOfAll(e.txs)
  }

  lemma AddTxGrowth(t: Tables, tx: Transaction, hash: Hash)
    requires AddTx(t, tx, hash).Some?
    ensures RctSize(AddTx(t, tx, hash).value.outs) == RctSize(t.outs) + Growth(tx)
  {
    if Supported(tx) {
      AddTxOutputs(t, tx, hash);
      AddOutputsLonger(t.outs, hash, tx, |tx.vout|, |t.blocks|);
    } else {
      UnsupportedLeavesNoTrace(t, tx, hash);
    }
  }

  lemma {:induction false} AddTxsGrowth(t: Tables, hashes: seq<Hash>, txs: seq<Transaction>)
    requires |hashes| == |txs| && AddTxs(t, hashes, txs).Some?
    ensures RctSize(AddTxs(t, hashes, txs).value.outs) == RctSize(t.outs) + GrowthOfAll(txs)
    decreases |txs|
  {
    if txs != [] {
      var n := |txs| - 1;
      AddTxsGrowth(t, hashes[..n], txs[..n]);
      AddTxGrowth(AddTxs(t, hashes[..n], txs[..n]).value, txs[n], hashes[n]);
    }
  }

  /** In whatever state the tables are, a block makes the amount-0 list longer by this much. */
  lemma AddBlockGrowth(t: Tables, e: Entry)
    requires AddBlock(t, e).Some?
    ensures RctSize(AddBlock(t, e).value.outs) == RctSize(t.outs) + BlockGrowth(e)
  {
    AddBlockParts(t, e);
    var t1 := AddTx(t, e.block.minerTx, e.block.minerHash).value;
    AddTxGrowth(t, e.block.minerTx, e.block.minerHash);
    AddTxsGrowth(t1, e.block.txHashes, e.txs);
  }

  lemma CountSnoc(amounts: seq<Amount>, a: Amount, b: Amount)
    ensures Count(amounts + [a], b) == Count(amounts, b) + if a == b then 1 else 0
  {
    assert (amounts + [a])[..|amounts|] == amounts;
  }

  lemma ZerosSnoc(vout: seq<TxOut>, k: nat)
    requires k < |vout|
    ensures Zeros(vout[..k + 1]) == Zeros(vout[..k]) + if vout[k].amount == 0 then 1 else 0
  {
    assert vout[..k + 1][..k] == vout[..k];
  }

  lemma StoredSnoc(tx: Transaction, k: nat)
    requires k < |tx.vout|
    ensures Count(StoredUpTo(tx, k + 1), 0) == Count(StoredUpTo(tx, k), 0) + if StoredAmount(tx, k) == 0 then 1 else 0
  {
    CountSnoc(StoredUpTo(tx, k), StoredAmount(tx, k), 0);
  }

  /** How many of the first `k` outputs go under amount 0. */
  ghost predicate UnderZero(tx: Transaction, k: nat)
    requires k <= |tx.vout|
  {
    var zeros := Zeros(tx.vout[..k]);
    zeros <= k && Count(StoredUpTo(tx, k), 0) == if StoredAsRct(tx) then k else zeros
  }

  lemma UnderZeroStep(tx: Transaction, k: nat)
    requires k < |tx.vout| && UnderZero(tx, k)
    ensures UnderZero(tx, k + 1)
  {
    ZerosSnoc(tx.vout, k);
    StoredSnoc(tx, k);
  }

  lemma {:induction false} StoredUnderZero(tx: Transaction, k: nat)
    requires k <= |tx.vout|
    ensures UnderZero(tx, k)
  {
    if k == 0 {
      assert tx.vout[..0] == [];
    } else {
      StoredUnderZero(tx, k - 1);
      UnderZeroStep(tx, k - 1);
    }
  }

  lemma GrowthOf(tx: Transaction)
    ensures Zeros(tx.vout) <= |tx.vout|
    ensures Growth(tx) == if !Supported(tx) then 0 else if StoredAsRct(tx) then |tx.vout| else Zeros(tx.vout)
  {
    StoredUnderZero(tx, |tx.vout|);
    assert tx.vout[..|tx.vout|] == tx.vout;
  }

  // ---------- what the recorded count misses and what it counts in vain ----------

  /** Outputs of a transaction other than the miner's that go under 0 without having amount 0. */
  ghost function Missed(tx: Transaction): int {
    if Supported(tx) && StoredAsRct(tx) then |tx.vout| - Zeros(tx.vout) else 0
  }

  /** Its zero-amount outputs, if it is dropped. */
  ghost function InVain(tx: Transaction): int {
    if Supported(tx) then 0 else Zeros(tx.vout)
  }

  ghost function MinerMissed(tx: Transaction): int {
    if Supported(tx) && tx.version != 2 then Zeros(tx.vout) else 0
  }

  ghost function MinerInVain(tx: Transaction): int {
    if tx.version != 2 then 0
    else if !Supported(tx) then |tx.vout|
    else if HasGen(tx) then 0 else |tx.vout| - Zeros(tx.vout)
  }

  ghost function MissedOfAll(txs: seq<Transaction>): int {
    if txs == [] then 0 else MissedOfAll(txs[..|txs| - 1]) + Missed(txs[|txs| - 1])
  }

  ghost function InVainOfAll(txs: seq<Transaction>): int {
    if txs == [] then 0 else InVainOfAll(txs[..|txs| - 1]) + InVain(txs[|txs| - 1])
  }

  ghost function MissedBy(e: Entry): int {
    MinerMissed(e.block.minerTx) + MissedOfAll(e.txs)
  }

  ghost function InVainBy(e: Entry): int {
    MinerInVain(e.block.minerTx) + InVainOfAll(e.txs)
  }

  lemma {:induction false} TxsBalance(txs: seq<Transaction>)
    ensures GrowthOfAll(txs) + InVainOfAll(txs) == ZerosOfAll(txs) + MissedOfAll(txs)
    ensures MissedOfAll(txs) >= 0 && InVainOfAll(txs) >= 0
  {
    if txs != [] {
      TxsBalance(txs[..|txs| - 1]);
      GrowthOf(txs[|txs| - 1]);
    }
  }

  /** For every block, what goes under 0 is what was counted, and what the count missed, less what it
      counted in vain. */
  lemma RctBalance(t: Tables, e: Entry)
    requires AddBlock(t, e).Some?
    ensures RctSize(AddBlock(t, e).value.outs) + InVainBy(e) == RctSize(t.outs) + NumRctOuts(e) + MissedBy(e)
    ensures MissedBy(e) >= 0 && InVainBy(e) >= 0
  {
    AddBlockGrowth(t, e);
    GrowthOf(e.block.minerTx);
    TxsBalance(e.txs);
  }

  /** The recorded count is the real one exactly if it misses as many outputs as it counts in vain. */
  lemma RctCountExact(t: Tables, e: Entry)
    requires AddBlock(t, e).Some?
    ensures RctSize(AddBlock(t, e).value.outs) == RctSize(t.outs) + NumRctOuts(e) <==> MissedBy(e) == InVainBy(e)
  {
    RctBalance(t, e);
  }

  /** What validation lets through: no unsupported input, and generation inputs only in the miner
      transaction, which has one. */
  ghost predicate Validated(e: Entry) {
    && EntrySupported(e) && HasGen(e.block.minerTx)
    && forall i | 0 <= i < |e.txs| :: !HasGen(e.txs[i])
  }

  lemma {:induction false} NothingInVain(txs: seq<Transaction>)
    requires forall i | 0 <= i < |txs| :: Supported(txs[i]) && !HasGen(txs[i])
    ensures MissedOfAll(txs) == InVainOfAll(txs) == 0
  {
    if txs != [] {
      NothingInVain(txs[..|txs| - 1]);
    }
  }

  /** Of a validated block nothing is counted in vain, and just the zero-amount outputs of a miner
      transaction of another version than 2 are missed. */
  lemma ValidatedBalance(e: Entry)
    requires Validated(e)
    ensures InVainBy(e) == 0
    ensures MissedBy(e) == if e.block.minerTx.version == 2 then 0 else Zeros(e.block.minerTx.vout)
  {
    NothingInVain(e.txs);
  }

  // ---------- the running count ----------

  /** The newest running count. */
  function RunningCount(infos: seq<BlockInfo>): nat {
    if infos == [] then 0 else infos[|infos| - 1].cumulativeRct
  }

  /** The running count in the newest block is the length of the amount-0 list. */
  ghost predicate RctTracked(t: Tables) {
    |t.infos| == |t.blocks| && RctSize(t.outs) == RunningCount(t.infos)
  }

  lemma AddBlockInfo(t: Tables, e: Entry)
    requires |t.infos| == |t.blocks| && AddBlock(t, e).Some?
    ensures var t' := AddBlock(t, e).value;
            && |t'.infos| == |t.infos| + 1 == |t'.blocks|
            && (e.block.majorVersion >= 4 ==> t.infos != [])
            && t'.infos[|t.infos|].cumulativeRct ==
               NumRctOuts(e) + if e.block.majorVersion >= 4 then t.infos[|t.infos| - 1].cumulativeRct else 0
  {
    AddBlockParts(t, e);
  }

  /** On top of an amount-0 list of this length, the block's running count comes out right. A block
      below version 4 carries nothing over, so there the list is missed as well. */
  ghost predicate CountsRight(size: nat, e: Entry) {
    (if e.block.majorVersion >= 4 then 0 else size) + MissedBy(e) == InVainBy(e)
  }

  lemma RctTrackedStep(t: Tables, e: Entry)
    requires RctTracked(t) && AddBlock(t, e).Some?
    ensures RctTracked(AddBlock(t, e).value) <==> CountsRight(RctSize(t.outs), e)
  {
    AddBlockInfo(t, e);
    RctBalance(t, e);
  }

  /** How long the amount-0 list of these blocks is. */
  ghost function ListLength(es: seq<Entry>): nat {
    if es == [] then 0 else ListLength(es[..|es| - 1]) + BlockGrowth(es[|es| - 1])
  }

  lemma {:induction false} ReplayLength(es: seq<Entry>)
    requires Replayable(es)
    ensures RctSize(Replay(es).outs) == ListLength(es)
  {
    if es != [] {
      var init, e, t' := es[..|es| - 1], es[|es| - 1], Replay(es);
      ReplayLength(init);
      ReplaySound(init);
      assert AddBlock(Replay(init), e) == Some(t');
      AddBlockGrowth(Replay(init), e);
    }
  }

  ghost predicate AllCountRight(es: seq<Entry>) {
    es == [] || (AllCountRight(es[..|es| - 1]) && CountsRight(ListLength(es[..|es| - 1]), es[|es| - 1]))
  }

  /** The count was right after every one of these blocks. */
  ghost predicate AlwaysTracked(es: seq<Entry>) {
    RctTracked(Replay(es)) && (es != [] ==> AlwaysTracked(es[..|es| - 1]))
  }

  lemma {:induction false} ReplayTracked(es: seq<Entry>)
    requires Replayable(es)
    ensures AlwaysTracked(es) <==> AllCountRight(es)
  {
    if es != [] {
      var init, e, t' := es[..|es| - 1], es[|es| - 1], Replay(es);
      ReplayTracked(init);
      ReplaySound(init);
      ReplayLength(init);
      assert AddBlock(Replay(init), e) == Some(t');
      if RctTracked(Replay(init)) {
        RctTrackedStep(Replay(init), e);
      }
    }
  }

  /** In every history that pops only restorable blocks, the running count was right at every surviving
      block exactly if every survivor counts right, which can be told from the survivors alone. */
  lemma SurvivorsTracked(ops: seq<Op>)
    requires PopsRestorable(ops)
    ensures AlwaysTracked(Survivors(ops)) <==> AllCountRight(Survivors(ops))
    ensures AllCountRight(Survivors(ops)) ==> RctTracked(RunOps(ops))
  {
    HistoryIndependence(ops);
    SurvivorsReplayable(ops);
    ReplayTracked(Survivors(ops));
  }

  // ---------- popping ----------

  /** How many outputs of the transaction stored under this hash are looked up under amount 0. */
  ghost function LookedUnderZero(t: Tables, hash: Hash): nat {
    match GetTx(t, hash)
    case None => 0
    case Some(tx) => Count(LookedAmounts(tx), 0)
  }

  ghost function LookedUnderZeroOfAll(t: Tables, hashes: seq<Hash>): nat {
    if hashes == [] then 0
    else LookedUnderZeroOfAll(t, hashes[..|hashes| - 1]) + LookedUnderZero(t, hashes[|hashes| - 1])
  }

  lemma RemoveTxShorter(t: Tables, hash: Hash)
    requires RemoveTx(t, hash).Some?
    ensures RctSize(t.outs) == RctSize(RemoveTx(t, hash).value.outs) + LookedUnderZero(t, hash)
  {
    var tx, id := GetTx(t, hash).value, t.index[hash].txId;
    var n, indices := |tx.vout|, if id in t.outIndices then t.outIndices[id] else [];
    RemoveOutputsSlots(t.outs, tx, indices, n);
    RemoveSlotsShorter(t.outs, LookedAmounts(tx), indices[..n], 0);
  }

  /** What is still stored after a removal was stored before it. */
  lemma StoredBefore(t: Tables, hash: Hash, h: Hash)
    requires RemoveTx(t, hash).Some? && GetTx(RemoveTx(t, hash).value, h).Some?
    ensures GetTx(t, h) == GetTx(RemoveTx(t, hash).value, h)
  {
  }

  lemma {:induction false} AllStoredBefore(t: Tables, hash: Hash, hashes: seq<Hash>)
    requires RemoveTx(t, hash).Some?
    requires forall h | h in hashes :: GetTx(RemoveTx(t, hash).value, h).Some?
    ensures LookedUnderZeroOfAll(RemoveTx(t, hash).value, hashes) == LookedUnderZeroOfAll(t, hashes)
  {
    if hashes != [] {
      AllStoredBefore(t, hash, hashes[..|hashes| - 1]);
      StoredBefore(t, hash, hashes[|hashes| - 1]);
    }
  }

  lemma {:induction false} RemovedStored(t: Tables, hashes: seq<Hash>)
    requires RemoveTxs(t, hashes).Some?
    ensures forall h | h in hashes :: GetTx(t, h).Some?
    decreases |hashes|
  {
    if hashes != [] {
      var n := |hashes| - 1;
      RemovedStored(RemoveTx(t, hashes[n]).value, hashes[..n]);
      forall h | h in hashes[..n] ensures GetTx(t, h).Some? {
        StoredBefore(t, hashes[n], h);
      }
      assert forall h :: h in hashes <==> h in hashes[..n] || h == hashes[n];
    }
  }

  lemma {:induction false} RemoveTxsShorter(t: Tables, hashes: seq<Hash>)
    requires RemoveTxs(t, hashes).Some?
    ensures RctSize(t.outs) == RctSize(RemoveTxs(t, hashes).value.t.outs) + LookedUnderZeroOfAll(t, hashes)
    decreases |hashes|
  {
    if hashes != [] {
      var n := |hashes| - 1;
      var t' := RemoveTx(t, hashes[n]).value;
      RemoveTxShorter(t, hashes[n]);
      RemoveTxsShorter(t', hashes[..n]);
      RemovedStored(t', hashes[..n]);
      AllStoredBefore(t, hashes[n], hashes[..n]);
    }
  }

  lemma {:induction false} StoredBeforeAll(t: Tables, hashes: seq<Hash>, h: Hash)
    requires RemoveTxs(t, hashes).Some? && GetTx(RemoveTxs(t, hashes).value.t, h).Some?
    ensures GetTx(t, h) == GetTx(RemoveTxs(t, hashes).value.t, h)
    decreases |hashes|
  {
    if hashes != [] {
      var n := |hashes| - 1;
      StoredBeforeAll(RemoveTx(t, hashes[n]).value, hashes[..n], h);
      StoredBefore(t, hashes[n], h);
    }
  }

  lemma {:induction false} SameLookups(t: Tables, t': Tables, hashes: seq<Hash>)
    requires t'.index == t.index && t'.rows == t.rows
    ensures LookedUnderZeroOfAll(t', hashes) == LookedUnderZeroOfAll(t, hashes)
  {
    if hashes != [] {
      SameLookups(t, t', hashes[..|hashes| - 1]);
    }
  }

  /** How many outputs popping the newest block looks up under amount 0. */
  ghost function PoppedUnderZero(t: Tables): nat
    requires t.blocks != []
  {
    var b := t.blocks[|t.blocks| - 1];
    LookedUnderZeroOfAll(t, b.txHashes) + LookedUnderZero(t, b.minerHash)
  }

  /** In whatever state the tables are, popping a block makes the amount-0 list shorter by this much and
      goes back to the running count of the block below. */
  lemma PopShorter(t: Tables)
    requires PopBlock(t).Some?
    ensures t.blocks != [] && t.infos != []
    ensures RctSize(t.outs) == RctSize(PopBlock(t).value.t.outs) + PoppedUnderZero(t)
    ensures PopBlock(t).value.t.infos == t.infos[..|t.infos| - 1]
    ensures |PopBlock(t).value.t.blocks| == |t.blocks| - 1
  {
    var b, row := t.blocks[|t.blocks| - 1], RemoveRow(t).value;
    var t' := RemoveTxs(row, b.txHashes).value.t;
    RemoveTxsShorter(row, b.txHashes);
    RemoveTxShorter(t', b.minerHash);
    StoredBeforeAll(row, b.txHashes, b.minerHash);
    RemoveTxsKeepBlocks(row, b.txHashes);
    SameLookups(t, row, b.txHashes);
  }

  /** As many outputs are looked up under 0 as the newest running count is above the one before. */
  ghost predicate PopCountsRight(t: Tables)
    requires t.blocks != [] && t.infos != []
  {
    RunningCount(t.infos) == RunningCount(t.infos[..|t.infos| - 1]) + PoppedUnderZero(t)
  }

  lemma RctTrackedPop(t: Tables)
    requires RctTracked(t) && PopBlock(t).Some?
    ensures t.blocks != [] && t.infos != []
    ensures RctTracked(PopBlock(t).value.t) <==> PopCountsRight(t)
  {
    PopShorter(t);
  }

  lemma AddPopSize(t: Tables, e: Entry)
    requires Sound(t) && EntrySupported(e) && AddBlock(t, e).Some? && PopBlock(AddBlock(t, e).value).Some?
    ensures var p := PopBlock(AddBlock(t, e).value).value.t;
            && p == t.(outs := p.outs)
            && RctSize(p.outs) + Count(LookedOf(e), 0) == RctSize(t.outs) + Count(StoredOf(e), 0)
  {
    var t3, amounts := AddBlock(t, e).value, t.outs.amounts;
    PopAfterAdd(t, e);
    RemoveSlotsShorter(t3.outs, LookedOf(e), Indices(amounts, StoredOf(e)), 0);
  }

  /** Popping a block right after adding it keeps the running count right exactly if as many of its
      outputs are looked up under 0 as were stored there. */
  lemma RctTrackedAddPop(t: Tables, e: Entry)
    requires Sound(t) && RctTracked(t) && EntrySupported(e)
    requires AddBlock(t, e).Some? && PopBlock(AddBlock(t, e).value).Some?
    ensures RctTracked(PopBlock(AddBlock(t, e).value).value.t) <==> Count(LookedOf(e), 0) == Count(StoredOf(e), 0)
  {
    AddPopSize(t, e);
  }

  // ---------- histories ----------

  /** The running count was right at every point of the history. */
  ghost predicate TrackedThroughout(ops: seq<Op>) {
    && RctTracked(RunOps(ops))
    && (ops != [] ==> TrackedThroughout(ops[..|ops| - 1]))
  }

  /** What is added or popped, in this state, keeps the running count right. */
  ghost predicate OpCountsRight(t: Tables, op: Op) {
    match op
    case Add(e) => AddBlock(t, e).Some? ==> CountsRight(RctSize(t.outs), e)
    case Pop => PopBlock(t).Some? && t.blocks != [] && t.infos != [] ==> PopCountsRight(t)
  }

  ghost predicate AllOpsCountRight(ops: seq<Op>) {
    ops == [] ||
    (AllOpsCountRight(ops[..|ops| - 1]) && OpCountsRight(RunOps(ops[..|ops| - 1]), ops[|ops| - 1]))
  }

  /** For every history, whatever was added and popped and whatever failed: at every point of it the
      running count in the newest block is the length of the amount-0 list, exactly if every operation
      counts right in the state it meets. */
  lemma {:induction false} ReachableTracked(ops: seq<Op>)
    ensures TrackedThroughout(ops) <==> AllOpsCountRight(ops)
  {
    if ops != [] {
      var t := RunOps(ops[..|ops| - 1]);
      ReachableTracked(ops[..|ops| - 1]);
      if RctTracked(t) {
        match ops[|ops| - 1]
        case Add(e) =>
          if AddBlock(t, e).Some? {
            RctTrackedStep(t, e);
          }
        case Pop =>
          if PopBlock(t).Some? {
            RctTrackedPop(t);
          }
      }
    }
  }

  /** A block from before amounts were hidden, and one from after. */
  ghost predicate PlainBlock(e: Entry) {
    && Validated(e) && e.block.majorVersion < 4
    && e.block.minerTx.version != 2 && Zeros(e.block.minerTx.vout) == 0 && ZerosOfAll(e.txs) == 0
  }

  ghost predicate HiddenBlock(e: Entry) {
    && Validated(e) && e.block.majorVersion >= 4
    && (e.block.minerTx.version == 2 || Zeros(e.block.minerTx.vout) == 0)
  }

  /** A chain that changes over once, at height `fork`, counts right throughout. */
  lemma {:induction false} ForkedChainCountsRight(es: seq<Entry>, fork: nat)
    requires forall i | 0 <= i < |es| :: if i < fork then PlainBlock(es[i]) else HiddenBlock(es[i])
    ensures AllCountRight(es)
    ensures |es| <= fork ==> ListLength(es) == 0
  {
    if es != [] {
      var init, e := es[..|es| - 1], es[|es| - 1];
      ForkedChainCountsRight(init, fork);
      ValidatedBalance(e);
      if |es| <= fork {
        assert PlainBlock(e);
        GrowthOf(e.block.minerTx);
        TxsBalance(e.txs);
        NothingInVain(e.txs);
      } else {
        assert HiddenBlock(e);
      }
    }
  }
}
