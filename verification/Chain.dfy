/** The read-only chain database that the ancestry tool walks: blocks, transactions and the
    (amount, offset) index of outputs, together with the two lookups everything else is built on,
    the ring members of a transaction and the transaction that created an output.  */
module Chain {
  import opened Optional

  type Hash = nat
  type Key = nat

  /** An output, named the way rings name it: the n-th output of its amount. */
  datatype Ancestor = Ancestor(amount: nat, offset: nat)

  datatype TxIn = Gen | ToKey(amount: nat, offsets: seq<nat>) | OtherIn
  datatype TxOut = OutToKey(key: Key) | OtherOut
  datatype Tx = Tx(vin: seq<TxIn>, vout: seq<TxOut>)

  /** `minerHash` is the hash of `minerTx`; hashing itself is not modelled. */
  datatype Block = Block(minerTx: Tx, minerHash: Hash, txHashes: seq<Hash>)

  datatype OutputData = OutputData(height: nat, pubkey: Key)

  datatype Db = Db(blocks: seq<Block>, txs: map<Hash, Tx>, outputs: map<Ancestor, OutputData>)

  /** One input of a transaction: offsets into the outputs of one amount. */
  datatype Ring = Ring(amount: nat, offsets: seq<nat>)

  /** What the tool keeps of a transaction. */
  datatype TxData = TxData(coinbase: bool, vin: seq<Ring>, vout: seq<Key>)

  predicate IsCoinbase(tx: Tx) {
    |tx.vin| == 1 && tx.vin[0].Gen?
  }

  predicate AllToKey(vin: seq<TxIn>) {
    forall i | 0 <= i < |vin| :: vin[i].ToKey?
  }

  predicate AllOutToKey(vout: seq<TxOut>) {
    forall i | 0 <= i < |vout| :: vout[i].OutToKey?
  }

  function Rings(vin: seq<TxIn>): (rings: seq<Ring>)
    requires AllToKey(vin)
  {
    seq(|vin|, i requires 0 <= i < |vin| => Ring(vin[i].amount, vin[i].offsets))
  }

  function Keys(vout: seq<TxOut>): (keys: seq<Key>)
    requires AllOutToKey(vout)
  {
    seq(|vout|, i requires 0 <= i < |vout| => vout[i].key)
  }

  function Members(ring: Ring): (members: seq<Ancestor>) {
    seq(|ring.offsets|, i requires 0 <= i < |ring.offsets| => Ancestor(ring.amount, ring.offsets[i]))
  }

  /** All members of all rings, in the order the loops visit them. */
  function Flatten(rings: seq<Ring>): seq<Ancestor> {
    if rings == [] then []
    else Flatten(rings[..|rings| - 1]) + Members(rings[|rings| - 1])
  }

  lemma AllMembers(before: seq<Ancestor>, ring: Ring)
    ensures before + Members(ring)[..0] == before
    ensures before + Members(ring)[..|ring.offsets|] == before + Members(ring)
  {
    assert Members(ring)[..|ring.offsets|] == Members(ring);
  }

  lemma MembersSnoc(before: seq<Ancestor>, ring: Ring, j: nat)
    requires j < |ring.offsets|
    ensures var a := Ancestor(ring.amount, ring.offsets[j]);
            && a in Members(ring)
            && (before + Members(ring))[|before| + j] == a
            && before + Members(ring)[..j] + [a] == before + Members(ring)[..j + 1]
  {
    assert Members(ring)[j] == Ancestor(ring.amount, ring.offsets[j]);
  }

  lemma FlattenSnoc(rings: seq<Ring>, k: nat)
    requires k < |rings|
    ensures Flatten(rings[..k + 1]) == Flatten(rings[..k]) + Members(rings[k])
  {
    assert rings[..k + 1][..k] == rings[..k];
  }

  lemma FlattenAll(rings: seq<Ring>)
    ensures Flatten(rings[..0]) == [] && Flatten(rings[..|rings|]) == Flatten(rings)
  {
    assert rings[..|rings|] == rings;
  }

  lemma {:induction false} FlattenPrefix(rings: seq<Ring>, k: nat)
    requires k <= |rings|
    ensures Flatten(rings[..k]) <= Flatten(rings)
    decreases |rings| - k
  {
    if k == |rings| {
      assert rings[..k] == rings;
    } else {
      FlattenSnoc(rings, k);
      FlattenPrefix(rings, k + 1);
    }
  }

  /** The transaction as the tool keeps it; None where building it throws. */
  function TxDataOf(tx: Tx): Option<TxData> {
    if (!IsCoinbase(tx) && !AllToKey(tx.vin)) || !AllOutToKey(tx.vout) then None
    else Some(TxData(IsCoinbase(tx), if IsCoinbase(tx) then [] else Rings(tx.vin), Keys(tx.vout)))
  }

  function LookupTx(db: Db, t: Hash): Option<TxData> {
    if t in db.txs then TxDataOf(db.txs[t]) else None
  }

  /** The ring members a transaction spends; a coinbase spends nothing. */
  function Spends(db: Db, t: Hash): seq<Ancestor> {
    if t !in db.txs || IsCoinbase(db.txs[t]) || !AllToKey(db.txs[t].vin) then []
    else Flatten(Rings(db.txs[t].vin))
  }

  datatype Scan = Hit | Miss | Bad

  /** Looks for `key` among outputs, giving up at the first output of another type. */
  function ScanOuts(vout: seq<TxOut>, key: Key): Scan {
    if vout == [] then Miss
    else if vout[0].OtherOut? then Bad
    else if vout[0].key == key then Hit
    else ScanOuts(vout[1..], key)
  }

  /** The first transaction of `hashes` holding `key`. With `strict`, every transaction looked at
      must also convert to `TxData` as a whole, which is how the forward pass reads it. */
  function FindTx(db: Db, hashes: seq<Hash>, key: Key, strict: bool): Option<Hash> {
    if hashes == [] || hashes[0] !in db.txs then None
    else if strict && TxDataOf(db.txs[hashes[0]]).None? then None
    else match ScanOuts(db.txs[hashes[0]].vout, key)
      case Hit => Some(hashes[0])
      case Bad => None
      case Miss => FindTx(db, hashes[1..], key, strict)
  }

  function FindInBlock(db: Db, b: Block, key: Key, strict: bool): Option<Hash> {
    match ScanOuts(b.minerTx.vout, key)
    case Hit => Some(b.minerHash)
    case Bad => None
    case Miss => FindTx(db, b.txHashes, key, strict)
  }

  /** The transaction that created output `a`: the first one of its block, miner transaction first,
      holding its key. */
  function Origin(db: Db, a: Ancestor, strict: bool): Option<Hash> {
    if a !in db.outputs || db.outputs[a].height >= |db.blocks| then None
    else FindInBlock(db, db.blocks[db.outputs[a].height], db.outputs[a].pubkey, strict)
  }

  /** The ring members spent by the transaction that created `a`. */
  function Next(db: Db, a: Ancestor): seq<Ancestor> {
    match Origin(db, a, false)
    case None => []
    case Some(o) => Spends(db, o)
  }

  // ---------- what the lookups find, said without them ----------

  /** An output to `key` stands among outputs that up to there all go to keys. */
  ghost predicate Creates(vout: seq<TxOut>, key: Key) {
    exists i :: 0 <= i < |vout| && vout[i] == OutToKey(key) && forall k | 0 <= k < i :: vout[k].OutToKey?
  }

  /** All outputs go to keys, and none to `key`. */
  ghost predicate Lacks(vout: seq<TxOut>, key: Key) {
    forall i | 0 <= i < |vout| :: vout[i].OutToKey? && vout[i].key != key
  }

  lemma {:induction false} ScanOutsMeaning(vout: seq<TxOut>, key: Key)
    ensures ScanOuts(vout, key).Hit? <==> Creates(vout, key)
    ensures ScanOuts(vout, key).Miss? <==> Lacks(vout, key)
  {
    if vout != [] {
      var tail := vout[1..];
      ScanOutsMeaning(tail, key);
      if vout[0].OutToKey? && vout[0].key != key {
        assert Lacks(vout, key) <==> Lacks(tail, key) by {
          assert forall i | 0 < i < |vout| :: vout[i] == tail[i - 1];
        }
        if Creates(tail, key) {
          var i :| 0 <= i < |tail| && tail[i] == OutToKey(key) && forall k | 0 <= k < i :: tail[k].OutToKey?;
          assert vout[i + 1] == OutToKey(key) && forall k | 0 < k < i + 1 :: vout[k] == tail[k - 1];
        }
        if Creates(vout, key) {
          var i :| 0 <= i < |vout| && vout[i] == OutToKey(key) && forall k | 0 <= k < i :: vout[k].OutToKey?;
          assert tail[i - 1] == OutToKey(key) && forall k | 0 <= k < i - 1 :: tail[k] == vout[k + 1];
        }
      } else if vout[0] == OutToKey(key) {
        assert Creates(vout, key);
      }
    }
  }

  /** The tool can keep the transaction: its outputs go to keys, and it is the reward of a block or all
      its inputs are rings. */
  ghost predicate Convertible(tx: Tx) {
    && (forall i | 0 <= i < |tx.vout| :: tx.vout[i].OutToKey?)
    && (tx.vin == [Gen] || forall i | 0 <= i < |tx.vin| :: tx.vin[i].ToKey?)
  }

  lemma CoinbaseMeaning(tx: Tx)
    ensures IsCoinbase(tx) <==> tx.vin == [Gen]
  {
  }

  /** What is kept: whether it is a reward, its output keys and, unless it is one, its rings. */
  lemma TxDataMeaning(tx: Tx)
    ensures TxDataOf(tx).Some? <==> Convertible(tx)
    ensures TxDataOf(tx).Some? ==>
              var data := TxDataOf(tx).value;
              && (data.coinbase <==> tx.vin == [Gen])
              && |data.vout| == |tx.vout| && (forall i | 0 <= i < |tx.vout| :: tx.vout[i] == OutToKey(data.vout[i]))
              && |data.vin| == (if tx.vin == [Gen] then 0 else |tx.vin|)
              && forall i | 0 <= i < |data.vin| :: tx.vin[i] == ToKey(data.vin[i].amount, data.vin[i].offsets)
  {
    CoinbaseMeaning(tx);
  }

  /** `hashes[j]` is the first transaction listed that creates an output to `key`, and those before it can
      be looked at to the end. */
  ghost predicate FirstCreator(db: Db, hashes: seq<Hash>, j: nat, key: Key, strict: bool) {
    && j < |hashes|
    && (forall k | 0 <= k <= j :: hashes[k] in db.txs && (strict ==> Convertible(db.txs[hashes[k]])))
    && Creates(db.txs[hashes[j]].vout, key)
    && (forall k | 0 <= k < j :: Lacks(db.txs[hashes[k]].vout, key))
  }

  lemma FirstCreatorCons(db: Db, hashes: seq<Hash>, j: nat, key: Key, strict: bool)
    requires hashes != [] && hashes[0] in db.txs && (strict ==> Convertible(db.txs[hashes[0]]))
    requires Lacks(db.txs[hashes[0]].vout, key)
    ensures FirstCreator(db, hashes, j + 1, key, strict) <==> FirstCreator(db, hashes[1..], j, key, strict)
  {
    var tail := hashes[1..];
    assert forall k | 0 <= k < |tail| :: tail[k] == hashes[k + 1];
    if FirstCreator(db, hashes, j + 1, key, strict) {
      assert forall k | 0 <= k <= j :: tail[k] == hashes[k + 1];
    }
    if FirstCreator(db, tail, j, key, strict) {
      assert forall k | 1 <= k <= j + 1 :: hashes[k] == tail[k - 1];
    }
  }

  lemma NotBoth(vout: seq<TxOut>, key: Key)
    ensures !(Creates(vout, key) && Lacks(vout, key))
  {
  }

  lemma {:induction false} FindTxMeaning(db: Db, hashes: seq<Hash>, key: Key, strict: bool, o: Hash)
    ensures FindTx(db, hashes, key, strict) == Some(o) <==>
            exists j: nat :: FirstCreator(db, hashes, j, key, strict) && hashes[j] == o
  {
    if hashes != [] && hashes[0] in db.txs {
      var tx := db.txs[hashes[0]];
      TxDataMeaning(tx);
      ScanOutsMeaning(tx.vout, key);
      NotBoth(tx.vout, key);
      if strict && !Convertible(tx) {
        assert forall j: nat :: !FirstCreator(db, hashes, j, key, strict);
      } else if Lacks(tx.vout, key) {
        FindTxMeaning(db, hashes[1..], key, strict, o);
        assert forall j: nat | FirstCreator(db, hashes, j, key, strict) :: j > 0;
        forall j: nat
          ensures FirstCreator(db, hashes, j + 1, key, strict) <==> FirstCreator(db, hashes[1..], j, key, strict)
        {
          FirstCreatorCons(db, hashes, j, key, strict);
        }
        if j: nat :| FirstCreator(db, hashes, j, key, strict) && hashes[j] == o {
          assert FirstCreator(db, hashes[1..], j - 1, key, strict) && hashes[1..][j - 1] == o;
        }
        if j: nat :| FirstCreator(db, hashes[1..], j, key, strict) && hashes[1..][j] == o {
          assert FirstCreator(db, hashes, j + 1, key, strict) && hashes[j + 1] == o;
        }
      } else {
        assert forall j: nat | FirstCreator(db, hashes, j, key, strict) :: j == 0;
        if Creates(tx.vout, key) {
          assert FirstCreator(db, hashes, 0, key, strict);
        }
      }
    } else {
      assert forall j: nat :: !FirstCreator(db, hashes, j, key, strict);
    }
  }

  /** The origin of an output is the miner transaction of its block if that creates an output to its key,
      and otherwise the first transaction listed there that does. */
  lemma OriginMeaning(db: Db, a: Ancestor, strict: bool, o: Hash)
    ensures Origin(db, a, strict) == Some(o) <==>
            && a in db.outputs && db.outputs[a].height < |db.blocks|
            && var b, key := db.blocks[db.outputs[a].height], db.outputs[a].pubkey;
               || (Creates(b.minerTx.vout, key) && o == b.minerHash)
               || (Lacks(b.minerTx.vout, key) &&
                   exists j: nat :: FirstCreator(db, b.txHashes, j, key, strict) && b.txHashes[j] == o)
  {
    if a in db.outputs && db.outputs[a].height < |db.blocks| {
      var b, key := db.blocks[db.outputs[a].height], db.outputs[a].pubkey;
      ScanOutsMeaning(b.minerTx.vout, key);
      NotBoth(b.minerTx.vout, key);
      FindTxMeaning(db, b.txHashes, key, strict, o);
    }
  }

  /** How many ring members the first `n` inputs have. */
  ghost function MembersBefore(vin: seq<TxIn>, n: nat): nat
    requires n <= |vin|
  {
    if n == 0 then 0 else MembersBefore(vin, n - 1) + if vin[n - 1].ToKey? then |vin[n - 1].offsets| else 0
  }

  lemma {:induction false} FlattenCount(vin: seq<TxIn>, n: nat)
    requires AllToKey(vin) && n <= |vin|
    ensures |Flatten(Rings(vin)[..n])| == MembersBefore(vin, n)
  {
    if n > 0 {
      FlattenCount(vin, n - 1);
      FlattenSnoc(Rings(vin), n - 1);
    }
  }

  lemma FlattenAt(vin: seq<TxIn>, i: nat, j: nat)
    requires AllToKey(vin) && i < |vin| && j < |vin[i].offsets|
    ensures MembersBefore(vin, i) + j < |Flatten(Rings(vin))|
    ensures Flatten(Rings(vin))[MembersBefore(vin, i) + j] == Ancestor(vin[i].amount, vin[i].offsets[j])
  {
    FlattenCount(vin, i);
    FlattenSnoc(Rings(vin), i);
    FlattenPrefix(Rings(vin), i + 1);
    assert Members(Rings(vin)[i])[j] == Ancestor(vin[i].amount, vin[i].offsets[j]);
  }

  lemma {:induction false} WhichMember(vin: seq<TxIn>, n: nat, p: nat) returns (i: nat, j: nat)
    requires AllToKey(vin) && n <= |vin| && p < MembersBefore(vin, n)
    ensures i < n && j < |vin[i].offsets| && p == MembersBefore(vin, i) + j
  {
    if p < MembersBefore(vin, n - 1) {
      i, j := WhichMember(vin, n - 1, p);
    } else {
      i, j := n - 1, p - MembersBefore(vin, n - 1);
    }
  }

  /** Ring member `j` of input `i` is `a`. */
  ghost predicate Names(vin: seq<TxIn>, i: nat, j: nat, a: Ancestor) {
    i < |vin| && vin[i].ToKey? && j < |vin[i].offsets| && a == Ancestor(vin[i].amount, vin[i].offsets[j])
  }

  /** A reward spends nothing; any other transaction the tool can follow spends, in order, every member of
      every ring, each as often as it is named. */
  lemma SpendsMeaning(db: Db, t: Hash)
    requires t in db.txs
    ensures db.txs[t].vin == [Gen] ==> Spends(db, t) == []
    ensures var vin, rs := db.txs[t].vin, Spends(db, t);
            (forall i | 0 <= i < |vin| :: vin[i].ToKey?) ==>
              && |rs| == MembersBefore(vin, |vin|)
              && forall i, j, a | Names(vin, i, j, a) ::
                   MembersBefore(vin, i) + j < |rs| && rs[MembersBefore(vin, i) + j] == a
  {
    var vin, rs := db.txs[t].vin, Spends(db, t);
    CoinbaseMeaning(db.txs[t]);
    if AllToKey(vin) {
      FlattenCount(vin, |vin|);
      FlattenAll(Rings(vin));
      assert !IsCoinbase(db.txs[t]);
      forall i, j, a | Names(vin, i, j, a)
        ensures MembersBefore(vin, i) + j < |rs| && rs[MembersBefore(vin, i) + j] == a
      {
        FlattenAt(vin, i, j);
      }
    }
  }

  /** So an output is spent exactly if some ring names it. */
  lemma SpentByRing(db: Db, t: Hash, a: Ancestor)
    requires t in db.txs && forall i | 0 <= i < |db.txs[t].vin| :: db.txs[t].vin[i].ToKey?
    ensures a in Spends(db, t) <==> exists i, j :: Names(db.txs[t].vin, i, j, a)
  {
    var vin, rs := db.txs[t].vin, Spends(db, t);
    SpendsMeaning(db, t);
    if a in rs {
      var p :| 0 <= p < |rs| && rs[p] == a;
      var i, j := WhichMember(vin, |vin|, p);
      assert Names(vin, i, j, Ancestor(vin[i].amount, vin[i].offsets[j]));
    }
  }

  // ---------- the order of spending ----------

  ghost predicate SpendsBelow(db: Db, rs: seq<Ancestor>, h: nat) {
    forall i | 0 <= i < |rs| :: rs[i] in db.outputs ==> db.outputs[rs[i]].height < h
  }

  /** Miner transactions spend nothing and every other transaction spends outputs of lower blocks. */
  ghost predicate Ordered(db: Db) {
    forall h | 0 <= h < |db.blocks| ::
      && Spends(db, db.blocks[h].minerHash) == []
      && forall i | 0 <= i < |db.blocks[h].txHashes| :: SpendsBelow(db, Spends(db, db.blocks[h].txHashes[i]), h)
  }

  /** Both passes read the same origin whenever the stricter forward search succeeds. */
  lemma {:induction false} FindTxStrictIsLazy(db: Db, hashes: seq<Hash>, key: Key)
    requires FindTx(db, hashes, key, true).Some?
    ensures FindTx(db, hashes, key, false) == FindTx(db, hashes, key, true)
  {
    if ScanOuts(db.txs[hashes[0]].vout, key).Miss? {
      FindTxStrictIsLazy(db, hashes[1..], key);
    }
  }

  lemma OriginStrictIsLazy(db: Db, a: Ancestor)
    requires Origin(db, a, true).Some?
    ensures Origin(db, a, false) == Origin(db, a, true)
  {
    var b := db.blocks[db.outputs[a].height];
    if ScanOuts(b.minerTx.vout, db.outputs[a].pubkey).Miss? {
      FindTxStrictIsLazy(db, b.txHashes, db.outputs[a].pubkey);
    }
  }

  lemma {:induction false} FindTxListed(db: Db, hashes: seq<Hash>, key: Key, strict: bool)
    requires FindTx(db, hashes, key, strict).Some?
    ensures FindTx(db, hashes, key, strict).value in hashes
  {
    if ScanOuts(db.txs[hashes[0]].vout, key).Miss? {
      FindTxListed(db, hashes[1..], key, strict);
    }
  }

  /** An origin is listed in the block its output belongs to. */
  lemma OriginListed(db: Db, a: Ancestor, strict: bool)
    requires Origin(db, a, strict).Some?
    ensures a in db.outputs && db.outputs[a].height < |db.blocks|
    ensures var b := db.blocks[db.outputs[a].height];
            var o := Origin(db, a, strict).value;
            o == b.minerHash || o in b.txHashes
  {
    var b := db.blocks[db.outputs[a].height];
    if ScanOuts(b.minerTx.vout, db.outputs[a].pubkey).Miss? {
      FindTxListed(db, b.txHashes, db.outputs[a].pubkey, strict);
    }
  }

  /** One step towards the past strictly lowers the blocks that can still be referred to. */
  lemma NextIsLower(db: Db, a: Ancestor)
    requires Ordered(db)
    ensures a in db.outputs ==> SpendsBelow(db, Next(db, a), db.outputs[a].height)
    ensures a !in db.outputs ==> Next(db, a) == []
  {
    if Origin(db, a, false).Some? {
      OriginListed(db, a, false);
    }
  }

  /** `later` is the same chain with more blocks on top. */
  ghost predicate Extends(db: Db, later: Db) {
    && db.blocks <= later.blocks
    && (forall t | t in db.txs :: t in later.txs && later.txs[t] == db.txs[t])
    && (forall a | a in db.outputs :: a in later.outputs && later.outputs[a] == db.outputs[a])
  }

  lemma {:induction false} FindTxExtends(db: Db, later: Db, hashes: seq<Hash>, key: Key, strict: bool)
    requires Extends(db, later)
    requires FindTx(db, hashes, key, strict).Some?
    ensures FindTx(later, hashes, key, strict) == FindTx(db, hashes, key, strict)
  {
    if ScanOuts(db.txs[hashes[0]].vout, key).Miss? {
      FindTxExtends(db, later, hashes[1..], key, strict);
    }
  }

  lemma OriginExtends(db: Db, later: Db, a: Ancestor, strict: bool)
    requires Extends(db, later)
    requires Origin(db, a, strict).Some?
    ensures Origin(later, a, strict) == Origin(db, a, strict)
  {
    var b := db.blocks[db.outputs[a].height];
    assert later.blocks[db.outputs[a].height] == b;
    if ScanOuts(b.minerTx.vout, db.outputs[a].pubkey).Miss? {
      FindTxExtends(db, later, b.txHashes, db.outputs[a].pubkey, strict);
    }
  }

  method ScanOutputs(vout: seq<TxOut>, key: Key) returns (s: Scan)
    ensures s == ScanOuts(vout, key)
  {
    for out := 0 to |vout|
      invariant ScanOuts(vout, key) == ScanOuts(vout[out..], key)
    {
      match vout[out]
      case OutToKey(k) => if k == key { return Hit; }
      case OtherOut => return Bad;
    }
    return Miss;
  }
}
