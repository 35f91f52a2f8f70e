/** The forward pass: walks the chain block by block, keeps the ancestor set of every transaction it
    has seen, consults three optional caches, and can stop after any block and resume later. */
module ForwardPass {
  import opened Optional
  import opened Chain
  import opened AncestrySpec

  datatype Options = Options(cacheOutputs: bool, cacheTxes: bool, cacheBlocks: bool, includeCoinbase: bool)

  type AncestryMap = map<Hash, set<Ancestor>>

  /** What a slot of the block cache holds before a block is put there. */
  const EMPTY_BLOCK := Block(Tx([], []), 0, [])

  function GetAncestry(ancestry: AncestryMap, t: Hash): set<Ancestor> {
    if t in ancestry then ancestry[t] else {}
  }

  function AddAncestry(ancestry: AncestryMap, t: Hash, ancestors: set<Ancestor>): AncestryMap {
    ancestry[t := GetAncestry(ancestry, t) + ancestors]
  }

  lemma AddAncestryTwice(ancestry: AncestryMap, t: Hash, xs: set<Ancestor>, ys: set<Ancestor>)
    ensures AddAncestry(AddAncestry(ancestry, t, xs), t, ys) == AddAncestry(ancestry, t, xs + ys)
  {
    assert (GetAncestry(ancestry, t) + xs) + ys == GetAncestry(ancestry, t) + (xs + ys);
  }

  function Resize(cache: seq<Block>, n: nat): (r: seq<Block>)
    ensures |r| == n && forall i | 0 <= i < n :: r[i] == if i < |cache| then cache[i] else EMPTY_BLOCK
  {
    if n <= |cache| then cache[..n] else cache + seq(n - |cache|, _ => EMPTY_BLOCK)
  }

  function BlockTxids(b: Block, includeCoinbase: bool): seq<Hash> {
    (if includeCoinbase then [b.minerHash] else []) + b.txHashes
  }

  /** What is walked in a block: its listed transactions, and its miner transaction if asked for. */
  lemma WalkedInBlock(b: Block, includeCoinbase: bool, t: Hash)
    ensures t in BlockTxids(b, includeCoinbase) <==> t in b.txHashes || (includeCoinbase && t == b.minerHash)
  {
  }

  // ---------- agreement of the caches with the database ----------

  ghost predicate TxCacheAgrees(db: Db, cache: map<Hash, TxData>) {
    forall t | t in cache :: LookupTx(db, t) == Some(cache[t])
  }

  ghost predicate OutputCacheAgrees(db: Db, cache: map<Ancestor, Hash>) {
    forall a | a in cache :: Origin(db, a, true) == Some(cache[a])
  }

  /** A slot is in use when its block has miner inputs; every slot in use holds the chain's block. */
  ghost predicate BlockCacheAgrees(db: Db, cache: seq<Block>) {
    forall i | 0 <= i < |cache| && cache[i].minerTx.vin != [] :: i < |db.blocks| && cache[i] == db.blocks[i]
  }

  // ---------- correctness of the recorded ancestry ----------

  ghost predicate Answered(db: Db, ancestry: AncestryMap, t: Hash)
    requires Ordered(db)
  {
    Resolvable(db, t) && GetAncestry(ancestry, t) == Ancestors(db, t)
  }

  /** Every recorded set is exact, and every transaction of the first `n` blocks is answered. */
  ghost predicate Exact(db: Db, ancestry: AncestryMap, n: nat)
    requires Ordered(db)
  {
    && n <= |db.blocks|
    && (forall t | t in ancestry :: Answered(db, ancestry, t) && SpendsBelow(db, Spends(db, t), n))
    && (forall k, t | 0 <= k < n && t in db.blocks[k].txHashes :: Answered(db, ancestry, t))
  }

  /** When `t` is processed, the origin of each of its ring members already has its exact set. */
  lemma OriginAnswered(db: Db, ancestry: AncestryMap, n: nat, t: Hash, a: Ancestor)
    requires Ordered(db) && Exact(db, ancestry, n)
    requires a in Spends(db, t) && SpendsBelow(db, Spends(db, t), n)
    requires Origin(db, a, true).Some?
    ensures Origin(db, a, true).value != t
    ensures GetAncestry(ancestry, Origin(db, a, true).value) == OriginAncestors(db, a)
  {
    var o, b := Origin(db, a, true).value, db.blocks[db.outputs[a].height];
    OriginStrictIsLazy(db, a);
    OriginListed(db, a, true);
    NextIsLower(db, a);
    if o !in b.txHashes {
      assert Spends(db, o) == [];
    } else {
      assert Answered(db, ancestry, o);
    }
  }

  /** The map after `t` has been processed. */
  ghost function Recorded(db: Db, ancestry: AncestryMap, t: Hash): AncestryMap
    requires Ordered(db)
  {
    if t in db.txs && (IsCoinbase(db.txs[t]) || Spends(db, t) != []) then AddAncestry(ancestry, t, Ancestors(db, t))
    else ancestry
  }

  lemma RecordedIsExact(db: Db, ancestry: AncestryMap, t: Hash, n: nat)
    requires Ordered(db) && Exact(db, ancestry, n)
    requires Resolvable(db, t) && SpendsBelow(db, Spends(db, t), n)
    ensures Exact(db, Recorded(db, ancestry, t), n)
    ensures Answered(db, Recorded(db, ancestry, t), t)
    ensures forall u | Answered(db, ancestry, u) :: Answered(db, Recorded(db, ancestry, t), u)
  {
    var after := Recorded(db, ancestry, t);
    assert GetAncestry(ancestry, t) <= Ancestors(db, t);
    assert forall u | u != t :: GetAncestry(after, u) == GetAncestry(ancestry, u);
    assert GetAncestry(after, t) == Ancestors(db, t);
    forall k, u | 0 <= k < n && u in db.blocks[k].txHashes ensures Answered(db, after, u) {
      assert Answered(db, ancestry, u);
    }
  }

  /** Results and caches stay right when the chain grows between two sessions. */
  lemma ExactExtends(db: Db, later: Db, ancestry: AncestryMap, n: nat)
    requires Ordered(db) && Ordered(later) && Extends(db, later)
    requires Exact(db, ancestry, n)
    ensures Exact(later, ancestry, n)
  {
    forall k, t | 0 <= k < n && t in db.blocks[k].txHashes ensures Resolvable(db, t) {
      assert Answered(db, ancestry, t);
    }
    assert Settled(db, n);
    forall t | Answered(db, ancestry, t) && SpendsBelow(db, Spends(db, t), n)
      ensures Answered(later, ancestry, t) && SpendsBelow(later, Spends(later, t), n)
    {
      assert Spends(later, t) == Spends(db, t);
      UnfoldExtends(db, later, Spends(db, t), n);
      forall i | 0 <= i < |Spends(db, t)| ensures Origin(later, Spends(db, t)[i], true).Some? {
        OriginExtends(db, later, Spends(db, t)[i], true);
      }
    }
    forall k, t | 0 <= k < n && t in db.blocks[k].txHashes ensures SpendsBelow(db, Spends(db, t), n) {
      var i :| 0 <= i < |db.blocks[k].txHashes| && db.blocks[k].txHashes[i] == t;
      assert SpendsBelow(db, Spends(db, db.blocks[k].txHashes[i]), k);
    }
  }

  lemma CachesExtend(db: Db, later: Db, txs: map<Hash, TxData>, outputs: map<Ancestor, Hash>, blocks: seq<Block>)
    requires Extends(db, later)
    requires TxCacheAgrees(db, txs) && OutputCacheAgrees(db, outputs) && BlockCacheAgrees(db, blocks)
    ensures TxCacheAgrees(later, txs) && OutputCacheAgrees(later, outputs) && BlockCacheAgrees(later, blocks)
  {
    forall a | a in outputs ensures Origin(later, a, true) == Some(outputs[a]) {
      OriginExtends(db, later, a, true);
    }
  }

  // ---------- reading a transaction ----------

  method MakeTxData(tx: Tx) returns (r: Option<TxData>)
    ensures r == TxDataOf(tx)
  {
    var coinbase := |tx.vin| == 1 && tx.vin[0].Gen?;
    var vin := [];
    if !coinbase {
      for ring := 0 to |tx.vin|
        invariant AllToKey(tx.vin[..ring])
        invariant vin == Rings(tx.vin[..ring])
      {
        match tx.vin[ring]
        case ToKey(amount, offsets) => vin := vin + [Ring(amount, offsets)];
        case _ => return None;
      }
      assert tx.vin[..|tx.vin|] == tx.vin;
    }
    var vout := [];
    for out := 0 to |tx.vout|
      invariant AllOutToKey(tx.vout[..out])
      invariant vout == Keys(tx.vout[..out])
    {
      match tx.vout[out]
      case OutToKey(key) => vout := vout + [key];
      case OtherOut => return None;
    }
    assert tx.vout[..|tx.vout|] == tx.vout;
    return Some(TxData(coinbase, vin, vout));
  }

  lemma {:induction false} ScanOfKeys(vout: seq<TxOut>, key: Key)
    requires AllOutToKey(vout)
    ensures ScanOuts(vout, key) == if key in Keys(vout) then Hit else Miss
  {
    if vout != [] {
      ScanOfKeys(vout[1..], key);
      assert Keys(vout) == [vout[0].key] + Keys(vout[1..]);
    }
  }

  method HoldsKey(vout: seq<Key>, key: Key) returns (found: bool)
    ensures found <==> key in vout
  {
    for out := 0 to |vout|
      invariant key !in vout[..out]
    {
      if vout[out] == key {
        return true;
      }
    }
    return false;
  }

  // ---------- what has been reached so far ----------

  /** The map after the ring members `rs` of `t` have been dealt with. */
  ghost function Reached(db: Db, ancestry: AncestryMap, t: Hash, rs: seq<Ancestor>): AncestryMap
    requires Ordered(db)
  {
    if rs == [] then ancestry else AddAncestry(ancestry, t, Support(Unfold(db, rs)))
  }

  lemma ReachedSnoc(db: Db, ancestry: AncestryMap, t: Hash, rs: seq<Ancestor>, a: Ancestor)
    requires Ordered(db)
    ensures Reached(db, ancestry, t, rs + [a]) ==
            AddAncestry(Reached(db, ancestry, t, rs), t, {a} + OriginAncestors(db, a))
  {
    var reached, more := Support(Unfold(db, rs)), {a} + OriginAncestors(db, a);
    assert Support(Unfold(db, rs + [a])) == reached + more by {
      SupportSnoc(db, rs, a);
    }
    if rs == [] {
      assert reached + more == more;
    } else {
      AddAncestryTwice(ancestry, t, reached, more);
    }
  }

  lemma MembersStep(db: Db, seen: seq<Ancestor>, ring: Ring, j: nat)
    requires j < |ring.offsets| && AllFound(db, seen + Members(ring)[..j])
    ensures var a, rs := Ancestor(ring.amount, ring.offsets[j]), seen + Members(ring)[..j];
            && a in Members(ring)
            && rs + [a] == seen + Members(ring)[..j + 1]
            && (Origin(db, a, true).Some? ==> AllFound(db, rs + [a]))
            && (Origin(db, a, true).None? ==> !AllFound(db, seen + Members(ring)))
  {
    MembersSnoc(seen, ring, j);
  }

  ghost predicate OriginKnown(db: Db, ancestry: AncestryMap, t: Hash, a: Ancestor)
    requires Ordered(db) && Origin(db, a, true).Some?
  {
    && Origin(db, a, true).value != t
    && GetAncestry(ancestry, Origin(db, a, true).value) == OriginAncestors(db, a)
  }

  lemma ReachedKeepsKnown(db: Db, ancestry: AncestryMap, t: Hash, rs: seq<Ancestor>, a: Ancestor)
    requires Ordered(db) && (Origin(db, a, true).Some? ==> OriginKnown(db, ancestry, t, a))
    ensures Origin(db, a, true).Some? ==> OriginKnown(db, Reached(db, ancestry, t, rs), t, a)
  {
  }

  lemma OriginsKnown(db: Db, ancestry: AncestryMap, n: nat, t: Hash)
    requires Ordered(db) && Exact(db, ancestry, n) && SpendsBelow(db, Spends(db, t), n)
    ensures forall a | a in Spends(db, t) && Origin(db, a, true).Some? :: OriginKnown(db, ancestry, t, a)
  {
    forall a | a in Spends(db, t) && Origin(db, a, true).Some? ensures OriginKnown(db, ancestry, t, a) {
      OriginAnswered(db, ancestry, n, t, a);
    }
  }

  lemma RingKnown(db: Db, ancestry: AncestryMap, t: Hash, rings: seq<Ring>, k: nat)
    requires Ordered(db) && k < |rings| && Flatten(rings) == Spends(db, t)
    requires forall a | a in Spends(db, t) && Origin(db, a, true).Some? :: OriginKnown(db, ancestry, t, a)
    ensures forall a | a in Members(rings[k]) && Origin(db, a, true).Some? :: OriginKnown(db, ancestry, t, a)
    ensures Flatten(rings[..k + 1]) == Flatten(rings[..k]) + Members(rings[k]) <= Flatten(rings)
  {
    FlattenSnoc(rings, k);
    FlattenPrefix(rings, k + 1);
    forall a | a in Members(rings[k]) ensures a in Spends(db, t) {
      assert a in Flatten(rings[..k + 1]);
    }
  }

  // ---------- whole blocks ----------

  ghost predicate AllResolvable(db: Db, txids: seq<Hash>) {
    forall i | 0 <= i < |txids| :: Resolvable(db, txids[i])
  }

  ghost predicate AllAnswered(db: Db, ancestry: AncestryMap, txids: seq<Hash>, n: nat)
    requires Ordered(db) && n <= |txids|
  {
    forall i | 0 <= i < n :: Answered(db, ancestry, txids[i])
  }

  lemma AnsweredSnoc(db: Db, ancestry: AncestryMap, txids: seq<Hash>, i: nat, n: nat)
    requires Ordered(db) && i < |txids| && Exact(db, ancestry, n) && AllAnswered(db, ancestry, txids, i)
    requires Resolvable(db, txids[i]) && SpendsBelow(db, Spends(db, txids[i]), n)
    ensures Exact(db, Recorded(db, ancestry, txids[i]), n)
    ensures AllAnswered(db, Recorded(db, ancestry, txids[i]), txids, i + 1)
  {
    RecordedIsExact(db, ancestry, txids[i], n);
  }

  lemma AnsweredResolvable(db: Db, ancestry: AncestryMap, txids: seq<Hash>)
    requires Ordered(db) && AllAnswered(db, ancestry, txids, |txids|)
    ensures AllResolvable(db, txids)
  {
    forall i | 0 <= i < |txids| ensures Resolvable(db, txids[i]) {
      assert Answered(db, ancestry, txids[i]);
    }
  }

  lemma ListedSpendBelow(db: Db, h: nat, includeCoinbase: bool)
    requires Ordered(db) && h < |db.blocks|
    ensures var txids := BlockTxids(db.blocks[h], includeCoinbase);
            forall i | 0 <= i < |txids| :: SpendsBelow(db, Spends(db, txids[i]), h)
  {
    var b, txids := db.blocks[h], BlockTxids(db.blocks[h], includeCoinbase);
    forall i | 0 <= i < |txids| ensures SpendsBelow(db, Spends(db, txids[i]), h) {
      var k := if includeCoinbase then i - 1 else i;
      if k >= 0 {
        assert txids[i] == b.txHashes[k];
      }
    }
  }

  lemma ExactSucc(db: Db, ancestry: AncestryMap, n: nat, includeCoinbase: bool)
    requires Ordered(db) && n < |db.blocks| && Exact(db, ancestry, n)
    requires var txids := BlockTxids(db.blocks[n], includeCoinbase);
             AllAnswered(db, ancestry, txids, |txids|)
    ensures Exact(db, ancestry, n + 1)
  {
    var txids := BlockTxids(db.blocks[n], includeCoinbase);
    forall t | t in db.blocks[n].txHashes ensures Answered(db, ancestry, t) {
      assert t in txids;
    }
  }

  // ---------- sessions ----------

  datatype Session = Session(db: Db, opts: Options, stop: nat -> bool)

  /** How far the walk has come: the height in the state file, and the number of blocks walked. */
  datatype Progress = Progress(height: nat, done: nat)

  function Max(a: nat, b: nat): nat {
    if a < b then b else a
  }

  /** The number of blocks walked when a session that starts at block `h` of `n` ends. */
  function EndOfRun(h: nat, n: nat, stop: nat -> bool): (e: nat)
    ensures h < n ==> h < e <= n
    ensures n <= h ==> e == h
    decreases n - h
  {
    if n <= h then h else if stop(h) then h + 1 else EndOfRun(h + 1, n, stop)
  }

  /** A session ends after the first block at which it is asked to stop, or at the tip. */
  lemma {:induction false} StopsWhenAsked(h: nat, n: nat, stop: nat -> bool)
    requires h < n
    ensures var e := EndOfRun(h, n, stop);
            && (forall k | h <= k < e - 1 :: !stop(k))
            && (e == n || stop(e - 1))
    decreases n - h
  {
    if !stop(h) && h + 1 < n {
      StopsWhenAsked(h + 1, n, stop);
    }
  }

  /** Everything a session walks in the blocks `from` to `to` is resolvable. */
  ghost predicate Walkable(s: Session, from: nat, to: nat) {
    && to <= |s.db.blocks|
    && forall h | from <= h < to :: AllResolvable(s.db, BlockTxids(s.db.blocks[h], s.opts.includeCoinbase))
  }

  /** The walk has come to block `h`, where it ends if `stopped`. */
  ghost predicate WalkedTo(s: Session, from: nat, h: nat, stopped: bool) {
    && Walkable(s, from, h)
    && EndOfRun(from, |s.db.blocks|, s.stop) == if stopped then h else EndOfRun(h, |s.db.blocks|, s.stop)
  }

  lemma OneBlockMore(s: Session, from: nat, h: nat)
    requires from <= h < |s.db.blocks| && WalkedTo(s, from, h, false)
    requires AllResolvable(s.db, BlockTxids(s.db.blocks[h], s.opts.includeCoinbase))
    ensures WalkedTo(s, from, h + 1, s.stop(h))
  {
  }

  /** A session starting at `height` can be completed. */
  ghost predicate Completes(s: Session, height: nat) {
    height < |s.db.blocks| ==> Walkable(s, height, EndOfRun(height, |s.db.blocks|, s.stop))
  }

  ghost function Advance(p: Progress, s: Session): Progress {
    if Completes(s, p.height) then
      var end := EndOfRun(p.height, |s.db.blocks|, s.stop);
      Progress(if p.height < |s.db.blocks| then end - 1 else p.height, Max(p.done, end))
    else p
  }

  // ---------- the state and the loops over it ----------

  /** The state file a session starts from and leaves behind. */
  datatype Saved = Saved(height: nat, ancestry: AncestryMap, outputCache: map<Ancestor, Hash>,
                         txCache: map<Hash, TxData>, blockCache: seq<Block>)

  const INITIAL := Saved(0, map[], map[], map[], [])

  /** `done` blocks have been walked: `height` is the last of them, which the next session redoes. */
  ghost predicate Consistent(db: Db, s: Saved, done: nat)
    requires Ordered(db)
  {
    && s.height <= done <= s.height + 1
    && Exact(db, s.ancestry, done)
    && TxCacheAgrees(db, s.txCache) && OutputCacheAgrees(db, s.outputCache) && BlockCacheAgrees(db, s.blockCache)
  }

  lemma ConsistentExtends(db: Db, later: Db, s: Saved, done: nat)
    requires Ordered(db) && Ordered(later) && Extends(db, later)
    requires Consistent(db, s, done)
    ensures Consistent(later, s, done)
  {
    ExactExtends(db, later, s.ancestry, done);
    CachesExtend(db, later, s.txCache, s.outputCache, s.blockCache);
  }

  class AncestryState {
    var height: nat
    var ancestry: AncestryMap
    var outputCache: map<Ancestor, Hash>
    var txCache: map<Hash, TxData>
    var blockCache: seq<Block>

    constructor (s: Saved)
      ensures Contents() == s
    {
      height, ancestry, outputCache, txCache, blockCache :=
        s.height, s.ancestry, s.outputCache, s.txCache, s.blockCache;
    }

    function Contents(): Saved
      reads this
    {
      Saved(height, ancestry, outputCache, txCache, blockCache)
    }

    ghost predicate CachesAgree(db: Db)
      reads this
    {
      TxCacheAgrees(db, txCache) && OutputCacheAgrees(db, outputCache) && BlockCacheAgrees(db, blockCache)
    }

    method LoadTx(db: Db, t: Hash, cache: bool) returns (r: Option<TxData>)
      requires CachesAgree(db)
      modifies this`txCache
      ensures CachesAgree(db)
      ensures r == LookupTx(db, t)
      ensures txCache == if cache && r.Some? then old(txCache)[t := r.value] else old(txCache)
    {
      if t in txCache {
        return Some(txCache[t]);
      }
      if t !in db.txs {
        return None;
      }
      r := MakeTxData(db.txs[t]);
      if r.Some? && cache {
        txCache := txCache[t := r.value];
      }
    }

    method LoadBlock(db: Db, h: nat, cache: bool) returns (r: Option<Block>)
      requires CachesAgree(db)
      modifies this`blockCache
      ensures CachesAgree(db)
      ensures r == if h < |db.blocks| then Some(db.blocks[h]) else None
      ensures var hit := |old(blockCache)| > h && old(blockCache)[h].minerTx.vin != [];
              blockCache == if cache && !hit && r.Some? then Resize(old(blockCache), h + 1)[h := r.value]
                            else old(blockCache)
    {
      if |blockCache| > h && blockCache[h].minerTx.vin != [] {
        return Some(blockCache[h]);
      }
      if h >= |db.blocks| {
        return None;
      }
      if cache {
        blockCache := Resize(blockCache, h + 1);
        blockCache := blockCache[h := db.blocks[h]];
      }
      return Some(db.blocks[h]);
    }

    /** Looks the key up in the transactions of a block, through the transaction cache. */
    method SearchTxs(db: Db, hashes: seq<Hash>, key: Key, cache: bool) returns (origin: Option<Hash>)
      requires CachesAgree(db)
      modifies this`txCache
      ensures CachesAgree(db)
      ensures origin == FindTx(db, hashes, key, true)
      ensures if cache then origin.Some? ==> origin.value in txCache else txCache == old(txCache)
    {
      for i := 0 to |hashes|
        invariant CachesAgree(db)
        invariant FindTx(db, hashes, key, true) == FindTx(db, hashes[i..], key, true)
        invariant !cache ==> txCache == old(txCache)
      {
        var data := LoadTx(db, hashes[i], cache);
        if data.None? {
          return None;
        }
        ScanOfKeys(db.txs[hashes[i]].vout, key);
        var found := HoldsKey(data.value.vout, key);
        if found {
          return Some(hashes[i]);
        }
      }
      return None;
    }

    /** Finds the transaction that created `a`, through all three caches. */
    method FindOrigin(db: Db, a: Ancestor, opts: Options) returns (origin: Option<Hash>)
      requires CachesAgree(db)
      modifies this`outputCache, this`txCache, this`blockCache
      ensures CachesAgree(db)
      ensures origin == Origin(db, a, true)
      ensures outputCache == if opts.cacheOutputs && origin.Some? then old(outputCache)[a := origin.value]
                             else old(outputCache)
      ensures !opts.cacheTxes ==> txCache == old(txCache)
      ensures !opts.cacheBlocks ==> blockCache == old(blockCache)
    {
      if a !in db.outputs {
        return None;
      }
      var od := db.outputs[a];
      var b := LoadBlock(db, od.height, opts.cacheBlocks);
      if b.None? {
        return None;
      }
      if a in outputCache {
        assert outputCache == outputCache[a := outputCache[a]];
        return Some(outputCache[a]);
      }
      var s := ScanOutputs(b.value.minerTx.vout, od.pubkey);
      match s {
        case Bad => return None;
        case Hit => origin := Some(b.value.minerHash);
        case Miss => origin := SearchTxs(db, b.value.txHashes, od.pubkey, opts.cacheTxes);
      }
      if origin.Some? && opts.cacheOutputs {
        outputCache := outputCache[a := origin.value];
      }
    }

    method AddMember(db: Db, t: Hash, a: Ancestor, opts: Options) returns (ok: bool)
      requires Ordered(db) && CachesAgree(db)
      requires Origin(db, a, true).Some? ==> OriginKnown(db, ancestry, t, a)
      modifies this`ancestry, this`outputCache, this`txCache, this`blockCache
      ensures CachesAgree(db)
      ensures ok <==> Origin(db, a, true).Some?
      ensures ok ==> ancestry == AddAncestry(old(ancestry), t, {a} + OriginAncestors(db, a))
    {
      if a !in db.outputs {
        return false;
      }
      ancestry := AddAncestry(ancestry, t, {a});
      var origin := FindOrigin(db, a, opts);
      if origin.None? {
        return false;
      }
      ancestry := AddAncestry(ancestry, t, GetAncestry(ancestry, origin.value));
      AddAncestryTwice(old(ancestry), t, {a}, OriginAncestors(db, a));
      return true;
    }

    /** Deals with the members of one ring of `t`, after those in `seen`. */
    method AddRing(db: Db, t: Hash, ring: Ring, opts: Options, ghost was: AncestryMap, ghost seen: seq<Ancestor>)
      returns (ok: bool)
      requires Ordered(db) && CachesAgree(db)
      requires forall a | a in Members(ring) && Origin(db, a, true).Some? :: OriginKnown(db, was, t, a)
      requires AllFound(db, seen) && ancestry == Reached(db, was, t, seen)
      modifies this`ancestry, this`outputCache, this`txCache, this`blockCache
      ensures CachesAgree(db)
      ensures ok <==> AllFound(db, seen + Members(ring))
      ensures ok ==> ancestry == Reached(db, was, t, seen + Members(ring))
    {
      ghost var rs := seen;
      AllMembers(seen, ring);
      for j := 0 to |ring.offsets|
        invariant CachesAgree(db)
        invariant rs == seen + Members(ring)[..j]
        invariant AllFound(db, rs)
        invariant ancestry == Reached(db, was, t, rs)
      {
        var a := Ancestor(ring.amount, ring.offsets[j]);
        MembersStep(db, seen, ring, j);
        ReachedKeepsKnown(db, was, t, rs, a);
        ok := AddMember(db, t, a, opts);
        if !ok {
          return false;
        }
        ReachedSnoc(db, was, t, rs, a);
        rs := rs + [a];
      }
      AllMembers(seen, ring);
      return true;
    }

    /** Deals with all rings of `t`, whose origins have their exact sets. */
    method AddRings(db: Db, t: Hash, rings: seq<Ring>, opts: Options) returns (ok: bool)
      requires Ordered(db) && CachesAgree(db) && Flatten(rings) == Spends(db, t)
      requires forall a | a in Spends(db, t) && Origin(db, a, true).Some? :: OriginKnown(db, ancestry, t, a)
      modifies this`ancestry, this`outputCache, this`txCache, this`blockCache
      ensures CachesAgree(db)
      ensures ok <==> AllFound(db, Flatten(rings))
      ensures ok ==> ancestry == Reached(db, old(ancestry), t, Flatten(rings))
    {
      ghost var seen := [];
      FlattenAll(rings);
      for k := 0 to |rings|
        invariant CachesAgree(db)
        invariant seen == Flatten(rings[..k]) && AllFound(db, seen)
        invariant ancestry == Reached(db, old(ancestry), t, seen)
      {
        RingKnown(db, old(ancestry), t, rings, k);
        ok := AddRing(db, t, rings[k], opts, old(ancestry), seen);
        if !ok {
          return false;
        }
        seen := seen + Members(rings[k]);
      }
      return true;
    }

    /** Records the ancestors of one transaction. */
    method ProcessTx(db: Db, t: Hash, opts: Options, ghost n: nat) returns (ok: bool)
      requires Ordered(db) && CachesAgree(db)
      requires Exact(db, ancestry, n) && SpendsBelow(db, Spends(db, t), n)
      modifies this`ancestry, this`outputCache, this`txCache, this`blockCache
      ensures CachesAgree(db)
      ensures ok <==> Resolvable(db, t)
      ensures ok ==> ancestry == Recorded(db, old(ancestry), t)
    {
      var data := LoadTx(db, t, opts.cacheTxes);
      if data.None? {
        return false;
      }
      if data.value.coinbase {
        ancestry := AddAncestry(ancestry, t, {});
        assert Ancestors(db, t) == {};
        return true;
      }
      OriginsKnown(db, ancestry, n, t);
      ok := AddRings(db, t, data.value.vin, opts);
    }

    method ProcessTxs(db: Db, txids: seq<Hash>, opts: Options, ghost n: nat) returns (ok: bool)
      requires Ordered(db) && CachesAgree(db) && Exact(db, ancestry, n)
      requires forall i | 0 <= i < |txids| :: SpendsBelow(db, Spends(db, txids[i]), n)
      modifies this`ancestry, this`outputCache, this`txCache, this`blockCache
      ensures CachesAgree(db)
      ensures ok <==> AllResolvable(db, txids)
      ensures ok ==> Exact(db, ancestry, n) && AllAnswered(db, ancestry, txids, |txids|)
    {
      for i := 0 to |txids|
        invariant CachesAgree(db)
        invariant Exact(db, ancestry, n)
        invariant AllAnswered(db, ancestry, txids, i)
      {
        ghost var was := ancestry;
        ok := ProcessTx(db, txids[i], opts, n);
        if !ok {
          return false;
        }
        AnsweredSnoc(db, was, txids, i, n);
      }
      AnsweredResolvable(db, ancestry, txids);
      return true;
    }

    /** Walks the block at height `h`, when the first `n >= h` blocks have been walked before. */
    method ProcessBlock(db: Db, h: nat, opts: Options, ghost n: nat) returns (ok: bool)
      requires Ordered(db) && CachesAgree(db) && h < |db.blocks|
      requires h <= n && Exact(db, ancestry, n)
      modifies this`ancestry, this`outputCache, this`txCache, this`blockCache
      ensures CachesAgree(db)
      ensures ok <==> AllResolvable(db, BlockTxids(db.blocks[h], opts.includeCoinbase))
      ensures ok ==> Exact(db, ancestry, if h < n then n else n + 1)
    {
      var b := db.blocks[h];
      if opts.cacheBlocks {
        blockCache := Resize(blockCache, h + 1);
        blockCache := blockCache[h := b];
      }
      ListedSpendBelow(db, h, opts.includeCoinbase);
      ok := ProcessTxs(db, BlockTxids(b, opts.includeCoinbase), opts, n);
      if ok && h == n {
        ExactSucc(db, ancestry, n, opts.includeCoinbase);
      }
    }

    /** The loop of a session: block after block, until the tip or a stop. */
    method Walk(s: Session, ghost done: nat) returns (ok: bool, ghost end: nat)
      requires Ordered(s.db) && CachesAgree(s.db)
      requires height <= done && Exact(s.db, ancestry, done)
      modifies this
      ensures ok ==> end == EndOfRun(old(height), |s.db.blocks|, s.stop) && Walkable(s, old(height), end)
      ensures ok ==> CachesAgree(s.db) && Exact(s.db, ancestry, Max(done, end))
      ensures ok ==> height == if old(height) < end then end - 1 else old(height)
      ensures !ok ==> !Completes(s, old(height))
    {
      var n, h, stopped := |s.db.blocks|, height, false;
      while h < n && !stopped
        invariant old(height) <= h <= n && WalkedTo(s, old(height), h, stopped)
        invariant CachesAgree(s.db)
        invariant Exact(s.db, ancestry, Max(done, h))
        invariant height == if old(height) < h then h - 1 else old(height)
        decreases n - h
      {
        ok := ProcessBlock(s.db, h, s.opts, Max(done, h));
        if !ok {
          return false, h;
        }
        OneBlockMore(s, old(height), h);
        height := h;
        stopped := s.stop(h);
        h := h + 1;
      }
      return true, h;
    }

    /** One session, which fails exactly if some transaction it walks is not resolvable. */
    method Run(s: Session, ghost done: nat) returns (ok: bool)
      requires Ordered(s.db) && Consistent(s.db, Contents(), done)
      modifies this
      ensures ok <==> Completes(s, old(height))
      ensures var p := Advance(Progress(old(height), done), s);
              ok ==> height == p.height && Consistent(s.db, Contents(), p.done)
    {
      ghost var end;
      ok, end := Walk(s, done);
    }
  }

  // ---------- any number of sessions ----------

  ghost function ProgressOf(sessions: seq<Session>): Progress {
    if sessions == [] then Progress(0, 0)
    else Advance(ProgressOf(sessions[..|sessions| - 1]), sessions[|sessions| - 1])
  }

  /** Runs the tool once, from one state file to the next. A failed run leaves the file alone. */
  method RunSession(file: Saved, s: Session, ghost done: nat) returns (after: Saved, ok: bool)
    requires Ordered(s.db) && Consistent(s.db, file, done)
    ensures ok <==> Completes(s, file.height)
    ensures var p := Advance(Progress(file.height, done), s);
            after.height == p.height && Consistent(s.db, after, p.done)
    ensures !ok ==> after == file
  {
    var state := new AncestryState(file);
    ok := state.Run(s, done);
    after := if ok then state.Contents() else file;
  }

  ghost predicate Growing(sessions: seq<Session>) {
    && (forall i | 0 <= i < |sessions| :: Ordered(sessions[i].db))
    && (forall i | 0 < i < |sessions| :: Extends(sessions[i - 1].db, sessions[i].db))
  }

  /** The walk answers every transaction of the first `n` blocks as `db` defines it, their miner
      transactions included. */
  ghost predicate Serves(db: Db, ancestry: AncestryMap, n: nat)
    requires Ordered(db)
  {
    && n <= |db.blocks|
    && forall k, t | 0 <= k < n && (t in db.blocks[k].txHashes || t == db.blocks[k].minerHash) ::
         GetAncestry(ancestry, t) == Ancestors(db, t)
  }

  lemma ConsistentServes(db: Db, file: Saved, done: nat)
    requires Ordered(db) && Consistent(db, file, done)
    ensures Serves(db, file.ancestry, done)
  {
    forall k, t | 0 <= k < done && (t in db.blocks[k].txHashes || t == db.blocks[k].minerHash)
      ensures GetAncestry(file.ancestry, t) == Ancestors(db, t)
    {
      if t in db.blocks[k].txHashes || t in file.ancestry {
        assert Answered(db, file.ancestry, t);
      } else {
        assert t == db.blocks[k].minerHash && Spends(db, t) == [];
      }
    }
  }

  /** Any number of sessions over a growing chain, each with its own flags and its own stopping point:
      every transaction of the blocks walked is answered exactly, as the last chain defines it. */
  method RunSessions(sessions: seq<Session>) returns (file: Saved)
    requires sessions != [] && Growing(sessions)
    ensures file.height == ProgressOf(sessions).height
    ensures Consistent(sessions[|sessions| - 1].db, file, ProgressOf(sessions).done)
    ensures Serves(sessions[|sessions| - 1].db, file.ancestry, ProgressOf(sessions).done)
  {
    file := INITIAL;
    ghost var done := 0;
    for i := 0 to |sessions|
      invariant Consistent(sessions[if i == 0 then 0 else i - 1].db, file, done)
      invariant Progress(file.height, done) == ProgressOf(sessions[..i])
    {
      if i > 0 {
        ConsistentExtends(sessions[i - 1].db, sessions[i].db, file, done);
      }
      assert sessions[..i + 1][..i] == sessions[..i];
      ghost var p := Advance(Progress(file.height, done), sessions[i]);
      var ok;
      file, ok := RunSession(file, sessions[i], done);
      done := p.done;
    }
    assert sessions[..|sessions|] == sessions;
    ConsistentServes(sessions[|sessions| - 1].db, file, done);
  }

  /** Flags, caches and interruptions leave no trace: two histories of sessions that end with the same
      chain give the same answer for every transaction, miner transactions included, of the blocks
      both have walked. */
  method AnswersIndependentOfHistory(sessions: seq<Session>, sessions': seq<Session>)
    returns (file: Saved, file': Saved)
    requires sessions != [] && Growing(sessions) && sessions' != [] && Growing(sessions')
    requires sessions[|sessions| - 1].db == sessions'[|sessions'| - 1].db
    ensures var db := sessions[|sessions| - 1].db;
            var done, done' := ProgressOf(sessions).done, ProgressOf(sessions').done;
            && done <= |db.blocks| && done' <= |db.blocks|
            && forall k, t | 0 <= k < done && k < done' &&
                             (t in db.blocks[k].txHashes || t == db.blocks[k].minerHash) ::
                 GetAncestry(file.ancestry, t) == GetAncestry(file'.ancestry, t)
  {
    file := RunSessions(sessions);
    file' := RunSessions(sessions');
  }

  lemma {:induction false} NeverStopped(h: nat, n: nat, stop: nat -> bool)
    requires h <= n && forall k :: !stop(k)
    ensures EndOfRun(h, n, stop) == n
    decreases n - h
  {
    if h < n {
      NeverStopped(h + 1, n, stop);
    }
  }

  /** The height saved is that of the last block walked. */
  lemma {:induction false} ProgressBounded(sessions: seq<Session>, later: Db)
    requires Growing(sessions)
    requires sessions != [] ==> |sessions[|sessions| - 1].db.blocks| <= |later.blocks|
    ensures var p := ProgressOf(sessions);
            && (p.done == p.height + 1 || (p.done == 0 && p.height == 0))
            && p.done <= |later.blocks|
  {
    if sessions != [] {
      var n := |sessions| - 1;
      ProgressBounded(sessions[..n], sessions[n].db);
    }
  }

  lemma GrowingInit(earlier: seq<Session>, s: Session)
    requires Growing(earlier + [s])
    ensures Growing(earlier)
    ensures earlier != [] ==> |earlier[|earlier| - 1].db.blocks| <= |s.db.blocks|
  {
    var all, n := earlier + [s], |earlier|;
    assert forall i | 0 <= i < n :: all[i] == earlier[i];
    if n > 0 {
      assert Extends(all[n - 1].db, all[n].db);
    }
  }

  /** However often earlier sessions were interrupted or failed, one that is not reaches the tip. */
  lemma LastSessionFinishes(earlier: seq<Session>, s: Session)
    requires Growing(earlier + [s])
    requires Completes(s, ProgressOf(earlier).height) && forall k :: !s.stop(k)
    ensures ProgressOf(earlier + [s]).done == |s.db.blocks|
  {
    assert (earlier + [s])[..|earlier|] == earlier;
    GrowingInit(earlier, s);
    ProgressBounded(earlier, s.db);
    NeverStopped(ProgressOf(earlier).height, |s.db.blocks|, s.stop);
  }
}
