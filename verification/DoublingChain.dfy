/** A chain in which every transaction has the output of the one before it in two of its rings, so that
    the number of spending paths doubles with every block and the counters do wrap around. */
module DoublingChain {
  import opened Optional
  import opened Chain
  import opened AncestrySpec
  import opened BackwardPass

  ghost function Pow2(n: nat): nat {
    if n == 0 then 1 else 2 * Pow2(n - 1)
  }

  /** The output created in block `k`. */
  function Output(k: nat): Ancestor {
    Ancestor(0, k)
  }

  /** Block 0 mints output 0; block `k` holds transaction `k`, which creates output `k`. Miner
      transactions have the hashes above `n`. */
  function DoublingBlock(n: nat, k: nat): Block {
    if k == 0 then Block(Tx([Gen], [OutToKey(0)]), n + 1, [])
    else Block(Tx([Gen], []), n + 1 + k, [k])
  }

  function DoublingTx(n: nat, t: nat): Tx
    requires t > 0
  {
    if t <= n then Tx([ToKey(0, [t - 1]), ToKey(0, [t - 1])], [OutToKey(t)])
    else Tx([Gen], if t == n + 1 then [OutToKey(0)] else [])
  }

  ghost function Doubling(n: nat): Db {
    Db(seq(n + 1, k requires 0 <= k => DoublingBlock(n, k)),
       map t | 1 <= t <= 2 * n + 1 :: DoublingTx(n, t),
       map a | a in (set k | 0 <= k <= n :: Output(k)) :: OutputData(a.offset, a.offset))
  }

  lemma DoublingOutput(n: nat, k: nat)
    requires k <= n
    ensures Output(k) in Doubling(n).outputs && Doubling(n).outputs[Output(k)] == OutputData(k, k)
    ensures Doubling(n).blocks[k] == DoublingBlock(n, k)
  {
  }

  lemma DoublingSpends(n: nat, t: nat)
    ensures Spends(Doubling(n), t) == if 1 <= t <= n then [Output(t - 1), Output(t - 1)] else []
  {
    if 1 <= t <= n {
      var ring := Ring(0, [t - 1]);
      assert Doubling(n).txs[t] == DoublingTx(n, t);
      assert Rings(DoublingTx(n, t).vin) == [ring, ring];
      FlattenSnoc([ring, ring], 0);
      FlattenSnoc([ring, ring], 1);
      FlattenAll([ring, ring]);
      assert Members(ring) == [Output(t - 1)];
    }
  }

  lemma DoublingOrdered(n: nat)
    ensures Ordered(Doubling(n))
  {
    var db := Doubling(n);
    forall h | 0 <= h < |db.blocks|
      ensures Spends(db, db.blocks[h].minerHash) == []
      ensures forall i | 0 <= i < |db.blocks[h].txHashes| :: SpendsBelow(db, Spends(db, db.blocks[h].txHashes[i]), h)
    {
      DoublingSpends(n, n + 1 + h);
      DoublingSpends(n, h);
    }
  }

  lemma DoublingOrigin(n: nat, k: nat)
    requires k <= n
    ensures Origin(Doubling(n), Output(k), false) == Some(if k == 0 then n + 1 else k)
    ensures Next(Doubling(n), Output(k)) == Spends(Doubling(n), k)
  {
    var db := Doubling(n);
    DoublingOutput(n, k);
    DoublingSpends(n, k);
    DoublingSpends(n, n + 1);
    if k > 0 {
      assert DoublingBlock(n, k).txHashes == [k];
      assert FindTx(db, [k], k, false) == Some(k);
    }
  }

  lemma CountSnoc(db: Db, rs: seq<Ancestor>, rs': seq<Ancestor>, a: Ancestor, b: Ancestor)
    requires Ordered(db) && rs' == rs + [a]
    ensures Unfold(db, rs')[b] == Unfold(db, rs)[b] + (if a == b then 1 else 0) + Unfold(db, Next(db, a))[b]
  {
    UnfoldSnoc(db, rs, a);
  }

  lemma UnfoldTwice(db: Db, a: Ancestor, b: Ancestor)
    requires Ordered(db)
    ensures Unfold(db, [a, a])[b] == 2 * ((if a == b then 1 else 0) + Unfold(db, Next(db, a))[b])
  {
    CountSnoc(db, [], [a], a, b);
    CountSnoc(db, [a], [a, a], a, b);
  }

  /** Every transaction up to `n` spends the output before its own twice. */
  ghost predicate Doubles(db: Db, n: nat) {
    && Ordered(db) && Spends(db, 0) == []
    && (forall k | 0 <= k <= n :: Next(db, Output(k)) == Spends(db, k))
    && (forall k | 1 <= k <= n :: Spends(db, k) == [Output(k - 1), Output(k - 1)])
  }

  lemma DoublingDoubles(n: nat)
    ensures Doubles(Doubling(n), n)
  {
    var db := Doubling(n);
    DoublingOrdered(n);
    DoublingSpends(n, 0);
    forall k | 0 <= k <= n
      ensures Next(db, Output(k)) == Spends(db, k)
      ensures k >= 1 ==> Spends(db, k) == [Output(k - 1), Output(k - 1)]
    {
      DoublingOrigin(n, k);
      DoublingSpends(n, k);
    }
  }

  lemma OneStepBack(db: Db, rs: seq<Ancestor>, next: seq<Ancestor>, a: Ancestor, b: Ancestor)
    requires Ordered(db) && rs == [a, a] && Next(db, a) == next
    ensures Unfold(db, rs)[b] == 2 * ((if a == b then 1 else 0) + Unfold(db, next)[b])
  {
    UnfoldTwice(db, a, b);
  }

  /** On how many paths transaction `k` reaches the first output. */
  ghost function ToFirst(db: Db, k: nat): nat
    requires Ordered(db)
  {
    Unfold(db, Spends(db, k))[Output(0)]
  }

  lemma DoublingStep(db: Db, n: nat, k: nat)
    requires Doubles(db, n) && 1 <= k <= n
    ensures ToFirst(db, k) == 2 * ((if k == 1 then 1 else 0) + ToFirst(db, k - 1))
  {
    var rs, next := Spends(db, k), Spends(db, k - 1);
    OneStepBack(db, rs, next, Output(k - 1), Output(0));
  }

  lemma {:induction false} DoublesToPow2(f: nat -> nat, n: nat, k: nat)
    requires f(0) == 0 && forall i | 1 <= i <= n :: f(i) == 2 * ((if i == 1 then 1 else 0) + f(i - 1))
    requires 1 <= k <= n
    ensures f(k) == Pow2(k)
  {
    if k > 1 {
      DoublesToPow2(f, n, k - 1);
    }
  }

  /** Then transaction `k` reaches the first output on 2^k spending paths. */
  lemma DoublingPaths(db: Db, n: nat, k: nat)
    requires Doubles(db, n) && 1 <= k <= n
    ensures ToFirst(db, k) == Pow2(k)
  {
    var f := (i: nat) => ToFirst(db, i);
    assert f(0) == 0;
    forall i | 1 <= i <= n ensures f(i) == 2 * ((if i == 1 then 1 else 0) + f(i - 1)) {
      DoublingStep(db, n, i);
    }
    DoublesToPow2(f, n, k);
  }

  lemma {:induction false} DoublingTraceable(n: nat, k: nat)
    requires 1 <= k <= n
    ensures Ordered(Doubling(n)) && Traceable(Doubling(n), k)
  {
    var db := Doubling(n);
    DoublingOrdered(n);
    DoublingSpends(n, k);
    DoublingOrigin(n, k - 1);
    if k == 1 {
      DoublingSpends(n, n + 1);
      TraceableUnfolded(db, n + 1);
    } else {
      DoublingTraceable(n, k - 1);
    }
    TraceableUnfolded(db, k);
  }

  /** Counters have 32 bits, and the total has 64. */
  lemma PathsWrap()
    ensures Pow2(32) == COUNTER_MODULUS && Pow2(64) == TOTAL_MODULUS
  {
    assert Pow2(4) == 16 && Pow2(8) == 256 && Pow2(12) == 0x1000 && Pow2(16) == 0x1_0000;
    assert Pow2(20) == 0x10_0000 && Pow2(24) == 0x100_0000 && Pow2(28) == 0x1000_0000;
    assert Pow2(36) == 16 * COUNTER_MODULUS && Pow2(40) == 0x100 * COUNTER_MODULUS;
    assert Pow2(44) == 0x1000 * COUNTER_MODULUS && Pow2(48) == 0x1_0000 * COUNTER_MODULUS;
    assert Pow2(52) == 0x10_0000 * COUNTER_MODULUS && Pow2(56) == 0x100_0000 * COUNTER_MODULUS;
    assert Pow2(60) == 0x1000_0000 * COUNTER_MODULUS;
  }

  lemma WrapsAt(counts: Counts, met: multiset<Ancestor>, a: Ancestor)
    requires Tallies(counts, met) && met[a] == Pow2(32)
    ensures a in counts && counts[a] == 0 && Wrapped(|Tallied(counts)|) != |met|
  {
    PathsWrap();
    FullAncestryExact(counts, met);
  }

  /** On such a chain of 32 blocks the trace of the last transaction succeeds, its counter for the
      first output comes out as 0, and the total is not the number of spending paths. */
  lemma CounterWraps()
    ensures Ordered(Doubling(32)) && Traceable(Doubling(32), 32)
    ensures var met := Unfold(Doubling(32), Spends(Doubling(32), 32));
            forall counts | Tallies(counts, met) ::
              Output(0) in counts && counts[Output(0)] == 0 && Wrapped(|Tallied(counts)|) != |met|
  {
    DoublingTraceable(32, 32);
    DoublingDoubles(32);
    DoublingPaths(Doubling(32), 32, 32);
    var met := Unfold(Doubling(32), Spends(Doubling(32), 32));
    forall counts | Tallies(counts, met)
      ensures Output(0) in counts && counts[Output(0)] == 0 && Wrapped(|Tallied(counts)|) != |met|
    {
      WrapsAt(counts, met, Output(0));
    }
  }
}
