/** The backward pass: starts from one transaction and follows ring members into the past with a
    first-in first-out worklist and no record of what was visited, counting every output it meets. */
module BackwardPass {
  import opened Optional
  import opened Chain
  import opened AncestrySpec

  /** Counters are 32-bit unsigned and the total is 64-bit. */
  const COUNTER_MODULUS := 0x1_0000_0000
  const TOTAL_MODULUS := 0x1_0000_0000_0000_0000

  type Counts = map<Ancestor, nat>

  /** `counts` holds a wrapped counter for exactly the outputs met, which `met` lists. */
  ghost predicate Tallies(counts: Counts, met: multiset<Ancestor>) {
    && (forall a :: a in counts <==> a in met)
    && (forall a | a in counts :: counts[a] == met[a] % COUNTER_MODULUS)
  }

  function AddAncestor(counts: Counts, a: Ancestor): Counts {
    counts[a := if a in counts then (counts[a] + 1) % COUNTER_MODULUS else 1]
  }

  lemma CounterUp(n: nat)
    ensures (n % COUNTER_MODULUS + 1) % COUNTER_MODULUS == (n + 1) % COUNTER_MODULUS
    ensures n == 0 ==> (n + 1) % COUNTER_MODULUS == 1
  {
  }

  lemma TalliesOneMore(counts: Counts, met: multiset<Ancestor>, a: Ancestor)
    requires Tallies(counts, met)
    ensures Tallies(AddAncestor(counts, a), met + multiset{a})
  {
    var counts', met' := AddAncestor(counts, a), met + multiset{a};
    CounterUp(met[a]);
    assert met'[a] == met[a] + 1;
    assert forall b | b != a :: met'[b] == met[b];
  }

  // ---------- which transactions can be traced ----------

  /** The transaction is stored and has only inputs the pass can follow. */
  predicate Readable(db: Db, t: Hash) {
    t in db.txs && (IsCoinbase(db.txs[t]) || AllToKey(db.txs[t].vin))
  }

  lemma ReadableMeaning(db: Db, t: Hash)
    ensures Readable(db, t) <==>
            t in db.txs && (db.txs[t].vin == [Gen] || forall i | 0 <= i < |db.txs[t].vin| :: db.txs[t].vin[i].ToKey?)
  {
    if t in db.txs {
      CoinbaseMeaning(db.txs[t]);
    }
  }

  lemma {:induction false} TopMember(db: Db, rs: seq<Ancestor>, i: nat)
    requires i < |rs|
    ensures Depth(db, rs[i]) <= Top(db, rs)
  {
    if i < |rs| - 1 {
      TopMember(db, rs[..|rs| - 1], i);
    }
  }

  /** `t` and everything it descends from is readable, and every origin on the way is found. */
  ghost predicate Traceable(db: Db, t: Hash)
    requires Ordered(db)
    decreases Top(db, Spends(db, t))
  {
    && Readable(db, t)
    && forall i | 0 <= i < |Spends(db, t)| ::
         && Origin(db, Spends(db, t)[i], false).Some?
         && (TopNext(db, Spends(db, t)[i]);
             TopMember(db, Spends(db, t), i);
             Traceable(db, Origin(db, Spends(db, t)[i], false).value))
  }

  ghost predicate StepTraceable(db: Db, a: Ancestor)
    requires Ordered(db)
  {
    Origin(db, a, false).Some? && Traceable(db, Origin(db, a, false).value)
  }

  ghost predicate StepsTraceable(db: Db, rs: seq<Ancestor>)
    requires Ordered(db)
  {
    forall i | 0 <= i < |rs| :: StepTraceable(db, rs[i])
  }

  lemma TraceableUnfolded(db: Db, t: Hash)
    requires Ordered(db)
    ensures Traceable(db, t) <==> Readable(db, t) && StepsTraceable(db, Spends(db, t))
  {
  }

  ghost predicate QueueTraceable(db: Db, queue: seq<Hash>)
    requires Ordered(db)
  {
    forall i | 0 <= i < |queue| :: Traceable(db, queue[i])
  }

  // ---------- what a worklist still owes ----------

  /** Everything that will be met by working off `queue`. */
  ghost function Pending(db: Db, queue: seq<Hash>): multiset<Ancestor>
    requires Ordered(db)
  {
    if queue == [] then multiset{}
    else Unfold(db, Spends(db, queue[0])) + Pending(db, queue[1..])
  }

  lemma Reassociate(a: multiset<Ancestor>, b: multiset<Ancestor>, c: multiset<Ancestor>)
    ensures a + (b + c) == (a + b) + c
  {
  }

  lemma {:induction false} PendingSnoc(db: Db, queue: seq<Hash>, t: Hash)
    requires Ordered(db)
    ensures Pending(db, queue + [t]) == Pending(db, queue) + Unfold(db, Spends(db, t))
  {
    if queue == [] {
      assert (queue + [t])[1..] == [];
    } else {
      var tail := queue[1..];
      assert (queue + [t])[1..] == tail + [t];
      PendingSnoc(db, tail, t);
      Reassociate(Unfold(db, Spends(db, queue[0])), Pending(db, tail), Unfold(db, Spends(db, t)));
    }
  }

  // ---------- the loops ----------

  method FindOrigin(db: Db, a: Ancestor) returns (origin: Option<Hash>)
    ensures origin == Origin(db, a, false)
  {
    if a !in db.outputs || db.outputs[a].height >= |db.blocks| {
      return None;
    }
    var key, b := db.outputs[a].pubkey, db.blocks[db.outputs[a].height];
    var s := ScanOutputs(b.minerTx.vout, key);
    match s {
      case Hit => return Some(b.minerHash);
      case Bad => return None;
      case Miss =>
    }
    for i := 0 to |b.txHashes|
      invariant FindTx(db, b.txHashes, key, false) == FindTx(db, b.txHashes[i..], key, false)
    {
      if b.txHashes[i] !in db.txs {
        return None;
      }
      s := ScanOutputs(db.txs[b.txHashes[i]].vout, key);
      match s {
        case Hit => return Some(b.txHashes[i]);
        case Bad => return None;
        case Miss =>
      }
    }
    return None;
  }

  /** The point a transaction was taken off the queue: what had been met, and what was left. */
  datatype Start = Start(met: multiset<Ancestor>, rest: seq<Hash>)

  /** Progress inside one transaction: after the ring members `rs`, the counters and the queue have
      taken over from `start` exactly what unfolding `rs` contributes. */
  ghost predicate Balanced(db: Db, start: Start, rs: seq<Ancestor>, met: multiset<Ancestor>, queue: seq<Hash>)
    requires Ordered(db)
  {
    && met + Pending(db, queue) == start.met + Pending(db, start.rest) + Unfold(db, rs)
    && |met| == |start.met| + |rs|
    && |queue| == |start.rest| + |rs|
    && (QueueTraceable(db, queue) <==> QueueTraceable(db, start.rest) && StepsTraceable(db, rs))
  }

  lemma BalanceStep(met: multiset<Ancestor>, pending: multiset<Ancestor>, total: multiset<Ancestor>,
                    unfolded: multiset<Ancestor>, a: Ancestor, more: multiset<Ancestor>)
    requires met + pending == total + unfolded
    ensures (met + multiset{a}) + (pending + more) == total + (unfolded + multiset{a} + more)
  {
    assert (met + multiset{a}) + (pending + more) == (met + pending) + (multiset{a} + more);
    assert total + (unfolded + multiset{a} + more) == (total + unfolded) + (multiset{a} + more);
  }

  lemma TraceableSnoc(db: Db, rs: seq<Ancestor>, queue: seq<Hash>, a: Ancestor)
    requires Ordered(db) && Origin(db, a, false).Some?
    ensures StepsTraceable(db, rs + [a]) <==> StepsTraceable(db, rs) && StepTraceable(db, a)
    ensures QueueTraceable(db, queue + [Origin(db, a, false).value]) <==>
            QueueTraceable(db, queue) && StepTraceable(db, a)
  {
    var o := Origin(db, a, false).value;
    assert (rs + [a])[|rs|] == a && (queue + [o])[|queue|] == o;
    assert forall i | 0 <= i < |rs| :: (rs + [a])[i] == rs[i];
    assert forall i | 0 <= i < |queue| :: (queue + [o])[i] == queue[i];
  }

  lemma BalancedSnoc(db: Db, start: Start, rs: seq<Ancestor>, met: multiset<Ancestor>, queue: seq<Hash>, a: Ancestor)
    requires Ordered(db) && Balanced(db, start, rs, met, queue)
    requires Origin(db, a, false).Some?
    ensures Balanced(db, start, rs + [a], met + multiset{a}, queue + [Origin(db, a, false).value])
  {
    var o := Origin(db, a, false).value;
    var queue', total, more := queue + [o], start.met + Pending(db, start.rest), Unfold(db, Spends(db, o));
    BalanceStep(met, Pending(db, queue), total, Unfold(db, rs), a, more);
    assert Pending(db, queue') == Pending(db, queue) + more by {
      PendingSnoc(db, queue, o);
    }
    assert Unfold(db, rs + [a]) == Unfold(db, rs) + multiset{a} + more by {
      UnfoldSnoc(db, rs, a);
    }
    assert QueueTraceable(db, queue') <==> QueueTraceable(db, start.rest) && StepsTraceable(db, rs + [a]) by {
      TraceableSnoc(db, rs, queue, a);
    }
  }

  method VisitMember(db: Db, a: Ancestor, counts: Counts, queue: seq<Hash>,
                     ghost start: Start, ghost rs: seq<Ancestor>, ghost met: multiset<Ancestor>)
    returns (ok: bool, counts': Counts, queue': seq<Hash>)
    requires Ordered(db) && Tallies(counts, met) && Balanced(db, start, rs, met, queue)
    ensures ok <==> Origin(db, a, false).Some?
    ensures ok ==> Tallies(counts', met + multiset{a}) && Balanced(db, start, rs + [a], met + multiset{a}, queue')
  {
    counts', queue' := AddAncestor(counts, a), queue;
    var origin := FindOrigin(db, a);
    if origin.None? {
      return false, counts', queue';
    }
    queue' := queue' + [origin.value];
    TalliesOneMore(counts, met, a);
    BalancedSnoc(db, start, rs, met, queue, a);
    ok := true;
  }

  lemma MemberUntraceable(db: Db, rs: seq<Ancestor>, i: nat)
    requires Ordered(db) && i < |rs| && Origin(db, rs[i], false).None?
    ensures !StepsTraceable(db, rs)
  {
    assert !StepTraceable(db, rs[i]);
  }

  method VisitRing(db: Db, ring: Ring, counts: Counts, queue: seq<Hash>,
                   ghost start: Start, ghost rs: seq<Ancestor>, ghost met: multiset<Ancestor>)
    returns (ok: bool, counts': Counts, queue': seq<Hash>, ghost met': multiset<Ancestor>)
    requires Ordered(db) && Tallies(counts, met) && Balanced(db, start, rs, met, queue)
    ensures ok ==> Tallies(counts', met') && Balanced(db, start, rs + Members(ring), met', queue')
    ensures !ok ==> !StepsTraceable(db, rs + Members(ring))
  {
    counts', queue', met' := counts, queue, met;
    ghost var rs' := rs;
    AllMembers(rs, ring);
    for j := 0 to |ring.offsets|
      invariant rs' == rs + Members(ring)[..j]
      invariant Tallies(counts', met') && Balanced(db, start, rs', met', queue')
    {
      var a := Ancestor(ring.amount, ring.offsets[j]);
      MembersSnoc(rs, ring, j);
      ok, counts', queue' := VisitMember(db, a, counts', queue', start, rs', met');
      if !ok {
        MemberUntraceable(db, rs + Members(ring), |rs| + j);
        return false, counts', queue', met';
      }
      rs', met' := rs' + [a], met' + multiset{a};
    }
    AllMembers(rs, ring);
    ok := true;
  }

  lemma RingsSnoc(vin: seq<TxIn>, k: nat)
    requires k < |vin| && AllToKey(vin[..k + 1])
    ensures Flatten(Rings(vin[..k + 1])) ==
            Flatten(Rings(vin[..k])) + Members(Ring(vin[k].amount, vin[k].offsets))
  {
    FlattenSnoc(Rings(vin[..k + 1]), k);
    assert Rings(vin[..k + 1])[..k] == Rings(vin[..k]);
    assert Rings(vin[..k + 1])[..k + 1] == Rings(vin[..k + 1]);
  }

  lemma RingsUntraceable(db: Db, vin: seq<TxIn>, k: nat)
    requires Ordered(db) && k < |vin| && AllToKey(vin[..k + 1])
    requires !StepsTraceable(db, Flatten(Rings(vin[..k + 1])))
    ensures AllToKey(vin) ==> !StepsTraceable(db, Flatten(Rings(vin)))
  {
    if AllToKey(vin) {
      assert Rings(vin[..k + 1]) == Rings(vin)[..k + 1];
      FlattenPrefix(Rings(vin), k + 1);
    }
  }

  lemma BalancedStart(db: Db, met: multiset<Ancestor>, rest: seq<Hash>)
    requires Ordered(db)
    ensures Balanced(db, Start(met, rest), [], met, rest)
  {
  }

  /** Counts the members of all rings and queues their origins. */
  method VisitRings(db: Db, vin: seq<TxIn>, counts: Counts, ghost start: Start, rest: seq<Hash>)
    returns (ok: bool, counts': Counts, queue: seq<Hash>, ghost met: multiset<Ancestor>)
    requires Ordered(db) && Tallies(counts, start.met) && rest == start.rest
    ensures ok ==> AllToKey(vin) && Tallies(counts', met) && Balanced(db, start, Flatten(Rings(vin)), met, queue)
    ensures !ok && AllToKey(vin) ==> !StepsTraceable(db, Flatten(Rings(vin)))
  {
    counts', queue, met := counts, rest, start.met;
    BalancedStart(db, start.met, rest);
    ghost var seen := [];
    for k := 0 to |vin|
      invariant AllToKey(vin[..k]) && seen == Flatten(Rings(vin[..k]))
      invariant Tallies(counts', met) && Balanced(db, start, seen, met, queue)
    {
      if !vin[k].ToKey? {
        return false, counts', queue, met;
      }
      RingsSnoc(vin, k);
      var ring := Ring(vin[k].amount, vin[k].offsets);
      ok, counts', queue, met := VisitRing(db, ring, counts', queue, start, seen, met);
      seen := seen + Members(ring);
      if !ok {
        RingsUntraceable(db, vin, k);
        return false, counts', queue, met;
      }
    }
    assert vin[..|vin|] == vin;
    ok := true;
  }

  /** Counts the ring members of one transaction and queues their origins. */
  method VisitTx(db: Db, t: Hash, counts: Counts, rest: seq<Hash>, ghost met: multiset<Ancestor>)
    returns (ok: bool, counts': Counts, queue: seq<Hash>, ghost met': multiset<Ancestor>)
    requires Ordered(db) && Tallies(counts, met)
    ensures ok ==> Readable(db, t) && Tallies(counts', met')
    ensures ok ==> Balanced(db, Start(met, rest), Spends(db, t), met', queue)
    ensures !ok ==> !Traceable(db, t)
  {
    ok, counts', queue, met' := false, counts, rest, met;
    if t !in db.txs {
      return;
    }
    var tx := db.txs[t];
    if IsCoinbase(tx) {
      BalancedStart(db, met, rest);
      return true, counts, rest, met;
    }
    ok, counts', queue, met' := VisitRings(db, tx.vin, counts, Start(met, rest), rest);
    TraceableUnfolded(db, t);
  }

  lemma QueueHead(db: Db, queue: seq<Hash>)
    requires Ordered(db) && queue != []
    ensures QueueTraceable(db, queue) <==> Traceable(db, queue[0]) && QueueTraceable(db, queue[1..])
  {
    assert forall i | 0 < i < |queue| :: queue[i] == queue[1..][i - 1];
  }

  /** Working off one transaction keeps the total and makes the rest smaller by one. */
  lemma BalancedQueue(db: Db, met: multiset<Ancestor>, queue: seq<Hash>, met': multiset<Ancestor>, queue': seq<Hash>)
    requires Ordered(db) && queue != [] && Readable(db, queue[0])
    requires Balanced(db, Start(met, queue[1..]), Spends(db, queue[0]), met', queue')
    ensures met' + Pending(db, queue') == met + Pending(db, queue)
    ensures QueueTraceable(db, queue') <==> QueueTraceable(db, queue)
    ensures |Pending(db, queue')| + |queue'| < |Pending(db, queue)| + |queue|
  {
    var first, rest := Unfold(db, Spends(db, queue[0])), Pending(db, queue[1..]);
    assert met + rest + first == met + (first + rest);
    assert |met'| + |Pending(db, queue')| == |met' + Pending(db, queue')|
        == |met + Pending(db, queue)| == |met| + |Pending(db, queue)|;
    QueueHead(db, queue);
    TraceableUnfolded(db, queue[0]);
  }

  /** The backward pass. It always ends; it fails exactly if the transaction cannot be traced; and
      otherwise its counters tally every output once per spending path. */
  method Trace(db: Db, start: Hash) returns (ok: bool, counts: Counts)
    requires Ordered(db)
    ensures ok <==> Traceable(db, start)
    ensures ok ==> Tallies(counts, Unfold(db, Spends(db, start)))
  {
    counts := map[];
    var queue := [start];
    ghost var met := multiset{};
    assert queue[1..] == [];
    while queue != []
      invariant Tallies(counts, met)
      invariant met + Pending(db, queue) == Unfold(db, Spends(db, start))
      invariant Traceable(db, start) <==> QueueTraceable(db, queue)
      decreases |Pending(db, queue)| + |queue|
    {
      ghost var queue0, met0 := queue, met;
      var t := queue[0];
      QueueHead(db, queue);
      ok, counts, queue, met := VisitTx(db, t, counts, queue[1..], met);
      if !ok {
        return false, counts;
      }
      BalancedQueue(db, met0, queue0, met, queue);
    }
    ok := true;
  }

  // ---------- the two totals ----------

  function Wrapped(total: nat): nat {
    total % TOTAL_MODULUS
  }

  /** One 64-bit addition, where `exact` is the total without wrap-around. */
  method AddTo(total: nat, count: nat, ghost exact: nat) returns (sum: nat)
    requires total == Wrapped(exact)
    ensures sum == Wrapped(exact + count)
  {
    sum := (total + count) % TOTAL_MODULUS;
  }

  /** The counters outside `left` have been added up, as the multiset `summed`. */
  ghost predicate SummedSoFar(counts: Counts, left: Counts, summed: multiset<Ancestor>) {
    && (forall a | a in left :: a in counts && left[a] == counts[a])
    && (forall a :: summed[a] == if a in counts && a !in left then counts[a] else 0)
  }

  lemma SumOneMore(counts: Counts, left: Counts, summed: multiset<Ancestor>, a: Ancestor)
    requires SummedSoFar(counts, left, summed) && a in left
    ensures SummedSoFar(counts, left - {a}, summed[a := left[a]])
    ensures |summed[a := left[a]]| == |summed| + left[a]
    ensures |left - {a}| < |left|
  {
    assert (left - {a}).Keys == left.Keys - {a};
  }

  /** The counters as a multiset. */
  ghost function Tallied(counts: Counts): (tallied: multiset<Ancestor>)
    ensures forall a :: tallied[a] == if a in counts then counts[a] else 0
    decreases |counts|
  {
    if counts == map[] then multiset{}
    else
      var a :| a in counts;
      assert (counts - {a}).Keys == counts.Keys - {a};
      Tallied(counts - {a})[a := counts[a]]
  }

  lemma AllSummed(counts: Counts, summed: multiset<Ancestor>)
    requires SummedSoFar(counts, map[], summed)
    ensures summed == Tallied(counts)
  {
    var tallied := Tallied(counts);
    forall a ensures summed[a] == tallied[a] {
    }
  }

  /** Sums the counters in whatever order the map yields them. */
  method FullAncestry(counts: Counts) returns (total: nat)
    ensures total == Wrapped(|Tallied(counts)|)
  {
    total := 0;
    var left := counts;
    ghost var summed: multiset<Ancestor>, exact: nat := multiset{}, 0;
    while left != map[]
      invariant SummedSoFar(counts, left, summed)
      invariant exact == |summed| && total == Wrapped(exact)
      decreases |left|
    {
      var a :| a in left;
      SumOneMore(counts, left, summed, a);
      total := AddTo(total, left[a], exact);
      summed, exact, left := summed[a := left[a]], exact + left[a], left - {a};
    }
    AllSummed(counts, summed);
  }

  method DeduplicatedAncestry(counts: Counts, ghost met: multiset<Ancestor>) returns (n: nat)
    requires Tallies(counts, met)
    ensures n == |Support(met)|
  {
    n := |counts|;
    assert counts.Keys == Support(met);
  }

  lemma SmallerMultiset(small: multiset<Ancestor>, big: multiset<Ancestor>)
    requires small <= big
    ensures |small| <= |big|
    ensures |small| == |big| ==> small == big
  {
    assert big == small + (big - small);
  }

  /** Neither a counter nor the total wraps around. */
  ghost predicate Fits(met: multiset<Ancestor>) {
    (forall a :: met[a] < COUNTER_MODULUS) && |met| < TOTAL_MODULUS
  }

  lemma WrappedExact(met: multiset<Ancestor>, tallied: multiset<Ancestor>)
    requires forall a :: tallied[a] == met[a] % COUNTER_MODULUS
    ensures Wrapped(|tallied|) == |met| <==> Fits(met)
  {
    SmallerMultiset(tallied, met);
    if forall a :: met[a] < COUNTER_MODULUS {
      assert tallied == met;
    }
    if tallied == met {
      forall a ensures met[a] < COUNTER_MODULUS {
        assert tallied[a] == met[a];
      }
    }
  }

  /** The sum of the counters is the size of the whole unfolded tree exactly when nothing wraps. */
  lemma FullAncestryExact(counts: Counts, met: multiset<Ancestor>)
    requires Tallies(counts, met)
    ensures Wrapped(|Tallied(counts)|) == |met| <==> Fits(met)
  {
    var tallied := Tallied(counts);
    forall a ensures tallied[a] == met[a] % COUNTER_MODULUS {
      assert a in counts <==> a in met;
    }
    WrappedExact(met, tallied);
  }

  /** The pass and the two numbers it prints. The deduplicated one is always the number of ancestors;
      the full one is the number of spending paths exactly when nothing wraps around. */
  method Report(db: Db, start: Hash) returns (ok: bool, deduplicated: nat, full: nat)
    requires Ordered(db)
    ensures ok <==> Traceable(db, start)
    ensures ok ==> deduplicated == |Ancestors(db, start)|
    ensures ok ==> (full == |Unfold(db, Spends(db, start))| <==> Fits(Unfold(db, Spends(db, start))))
  {
    deduplicated, full := 0, 0;
    var counts;
    ok, counts := Trace(db, start);
    if !ok {
      return;
    }
    ghost var met := Unfold(db, Spends(db, start));
    deduplicated := DeduplicatedAncestry(counts, met);
    full := FullAncestry(counts);
    FullAncestryExact(counts, met);
  }
}
