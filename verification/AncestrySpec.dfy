/** What ancestry means, independently of either pass: the spending graph is unfolded into the
    multiset of outputs met on the way to the past, once per spending path. The set of ancestors is
    the support of that multiset, the least solution of the obvious equations, and multiplicities
    count paths. */
module AncestrySpec {
  import opened Optional
  import opened Chain

  /** A rank for the unfolding: outputs of higher blocks rank higher. */
  ghost function Depth(db: Db, a: Ancestor): nat {
    if a in db.outputs then db.outputs[a].height + 2 else 1
  }

  ghost function Top(db: Db, rs: seq<Ancestor>): nat {
    if rs == [] then 0
    else
      var rest, last := Top(db, rs[..|rs| - 1]), Depth(db, rs[|rs| - 1]);
      if rest < last then last else rest
  }

  lemma {:induction false} TopBelow(db: Db, rs: seq<Ancestor>, h: nat)
    requires SpendsBelow(db, rs, h)
    ensures Top(db, rs) <= h + 1
  {
    if rs != [] {
      assert SpendsBelow(db, rs[..|rs| - 1], h);
      TopBelow(db, rs[..|rs| - 1], h);
    }
  }

  lemma TopNext(db: Db, a: Ancestor)
    requires Ordered(db)
    ensures Top(db, Next(db, a)) < Depth(db, a)
  {
    NextIsLower(db, a);
    if a in db.outputs {
      TopBelow(db, Next(db, a), db.outputs[a].height);
    }
  }

  /** Every output reached from the ring members `rs`, once for each path that reaches it. */
  ghost function Unfold(db: Db, rs: seq<Ancestor>): multiset<Ancestor>
    requires Ordered(db)
    decreases Top(db, rs), |rs|
  {
    if rs == [] then multiset{}
    else
      var last := rs[|rs| - 1];
      TopNext(db, last);
      Unfold(db, rs[..|rs| - 1]) + multiset{last} + Unfold(db, Next(db, last))
  }

  ghost function Support(m: multiset<Ancestor>): set<Ancestor> {
    set a | a in m
  }

  /** The outputs transaction `t` descends from. */
  ghost function Ancestors(db: Db, t: Hash): set<Ancestor>
    requires Ordered(db)
  {
    Support(Unfold(db, Spends(db, t)))
  }

  ghost function OriginAncestors(db: Db, a: Ancestor): set<Ancestor>
    requires Ordered(db)
  {
    match Origin(db, a, false)
    case None => {}
    case Some(o) => Ancestors(db, o)
  }

  /** Unfolding one more ring member adds it and whatever its origin descends from. */
  lemma UnfoldSnoc(db: Db, rs: seq<Ancestor>, a: Ancestor)
    requires Ordered(db)
    ensures Unfold(db, rs + [a]) == Unfold(db, rs) + multiset{a} + Unfold(db, Next(db, a))
  {
    assert (rs + [a])[..|rs|] == rs;
  }

  lemma SupportOfSum(m: multiset<Ancestor>, a: Ancestor, n: multiset<Ancestor>)
    ensures Support(m + multiset{a} + n) == Support(m) + ({a} + Support(n))
  {
  }

  lemma SupportNext(db: Db, a: Ancestor)
    requires Ordered(db)
    ensures Support(Unfold(db, Next(db, a))) == OriginAncestors(db, a)
  {
  }

  lemma SupportSnoc(db: Db, rs: seq<Ancestor>, a: Ancestor)
    requires Ordered(db)
    ensures Support(Unfold(db, rs + [a])) == Support(Unfold(db, rs)) + ({a} + OriginAncestors(db, a))
  {
    UnfoldSnoc(db, rs, a);
    SupportOfSum(Unfold(db, rs), a, Unfold(db, Next(db, a)));
    SupportNext(db, a);
  }

  ghost predicate Contributes(db: Db, r: Ancestor, a: Ancestor)
    requires Ordered(db)
  {
    a == r || a in OriginAncestors(db, r)
  }

  lemma SumMember(m: multiset<Ancestor>, last: Ancestor, n: multiset<Ancestor>, a: Ancestor)
    ensures a in m + multiset{last} + n <==> a in m || a == last || a in Support(n)
  {
  }

  lemma UnfoldLast(db: Db, rs: seq<Ancestor>, init: seq<Ancestor>, last: Ancestor)
    requires Ordered(db) && rs != [] && init == rs[..|rs| - 1] && last == rs[|rs| - 1]
    ensures Unfold(db, rs) == Unfold(db, init) + multiset{last} + Unfold(db, Next(db, last))
  {
  }

  lemma LastContributes(db: Db, rs: seq<Ancestor>, a: Ancestor)
    requires Ordered(db) && rs != []
    ensures a in Unfold(db, rs) <==>
            a in Unfold(db, rs[..|rs| - 1]) || Contributes(db, rs[|rs| - 1], a)
  {
    var init, last := rs[..|rs| - 1], rs[|rs| - 1];
    UnfoldLast(db, rs, init, last);
    SumMember(Unfold(db, init), last, Unfold(db, Next(db, last)), a);
    SupportNext(db, last);
  }

  lemma {:induction false} UnfoldMember(db: Db, rs: seq<Ancestor>, a: Ancestor)
    requires Ordered(db)
    ensures a in Unfold(db, rs) <==> exists r :: r in rs && Contributes(db, r, a)
    decreases |rs|
  {
    if rs != [] {
      var init, last := rs[..|rs| - 1], rs[|rs| - 1];
      UnfoldMember(db, init, a);
      assert a in Unfold(db, rs) <==> a in Unfold(db, init) || Contributes(db, last, a) by {
        LastContributes(db, rs, a);
      }
      assert forall r :: r in rs <==> r in init || r == last;
    }
  }

  /** Ancestors solve the defining equation: the ring members, and the ancestors of their origins. */
  lemma AncestorsFixedPoint(db: Db, t: Hash, a: Ancestor)
    requires Ordered(db)
    ensures a in Ancestors(db, t) <==>
            a in Spends(db, t) || exists r :: r in Spends(db, t) && a in OriginAncestors(db, r)
  {
    UnfoldMember(db, Spends(db, t), a);
    assert Contributes(db, a, a);
    assert forall r :: Contributes(db, r, a) <==> a == r || a in OriginAncestors(db, r);
  }

  /** An assignment of outputs to transactions that the two ancestry rules cannot enlarge. */
  ghost predicate Closed(db: Db, s: Hash -> iset<Ancestor>) {
    forall u, r | r in Spends(db, u) ::
      && r in s(u)
      && (Origin(db, r, false).Some? ==> forall b | b in s(Origin(db, r, false).value) :: b in s(u))
  }

  lemma {:induction false} UnfoldLeast(db: Db, s: Hash -> iset<Ancestor>, u: Hash, rs: seq<Ancestor>, a: Ancestor)
    requires Ordered(db) && Closed(db, s)
    requires forall r | r in rs :: r in Spends(db, u)
    requires a in Unfold(db, rs)
    ensures a in s(u)
    decreases Top(db, rs), |rs|
  {
    var last := rs[|rs| - 1];
    TopNext(db, last);
    if a in Unfold(db, rs[..|rs| - 1]) {
      UnfoldLeast(db, s, u, rs[..|rs| - 1], a);
    } else if a != last {
      var o := Origin(db, last, false).value;
      UnfoldLeast(db, s, o, Spends(db, o), a);
    }
  }

  /** Ancestors are the least solution: any closed assignment contains them. */
  lemma AncestorsLeast(db: Db, s: Hash -> iset<Ancestor>, t: Hash)
    requires Ordered(db) && Closed(db, s)
    ensures forall a | a in Ancestors(db, t) :: a in s(t)
  {
    forall a | a in Ancestors(db, t) ensures a in s(t) {
      UnfoldLeast(db, s, t, Spends(db, t), a);
    }
  }

  // ---------- multiplicities count spending paths ----------

  /** `p` picks a ring member at every step, and the last one picked is `a`. */
  ghost predicate IsPath(db: Db, rs: seq<Ancestor>, p: seq<nat>, a: Ancestor)
    decreases |p|
  {
    && p != []
    && p[0] < |rs|
    && if |p| == 1 then rs[p[0]] == a else IsPath(db, Next(db, rs[p[0]]), p[1..], a)
  }

  ghost function Prefixed(n: nat, ps: set<seq<nat>>): set<seq<nat>> {
    set p | p in ps :: [n] + p
  }

  lemma PrefixedMember(n: nat, ps: set<seq<nat>>, p: seq<nat>)
    ensures p in Prefixed(n, ps) <==> p != [] && p[0] == n && p[1..] in ps
  {
    if p != [] && p[0] == n {
      assert p == [n] + p[1..];
    }
    if p in Prefixed(n, ps) {
      var q :| q in ps && p == [n] + q;
      assert p[1..] == q;
    }
  }

  lemma {:induction false} PrefixedSize(n: nat, ps: set<seq<nat>>)
    ensures |Prefixed(n, ps)| == |ps|
  {
    if ps != {} {
      var p :| p in ps;
      PrefixedSize(n, ps - {p});
      PrefixedMember(n, ps - {p}, [n] + p);
      assert ([n] + p)[1..] == p;
      assert Prefixed(n, ps) == Prefixed(n, ps - {p}) + {[n] + p};
    }
  }

  ghost function Paths(db: Db, rs: seq<Ancestor>, a: Ancestor): set<seq<nat>>
    requires Ordered(db)
    decreases Top(db, rs), |rs|
  {
    if rs == [] then {}
    else
      var n := |rs| - 1;
      TopNext(db, rs[n]);
      Paths(db, rs[..n], a) + (if rs[n] == a then {[n]} else {}) + Prefixed(n, Paths(db, Next(db, rs[n]), a))
  }

  lemma PathsSnoc(db: Db, rs: seq<Ancestor>, a: Ancestor, p: seq<nat>)
    requires Ordered(db) && rs != []
    ensures var n := |rs| - 1;
            p in Paths(db, rs, a) <==>
            || p in Paths(db, rs[..n], a)
            || (rs[n] == a && p == [n])
            || p in Prefixed(n, Paths(db, Next(db, rs[n]), a))
  {
  }

  lemma IsPathSnoc(db: Db, rs: seq<Ancestor>, a: Ancestor, p: seq<nat>)
    requires rs != []
    ensures var n := |rs| - 1;
            IsPath(db, rs, p, a) <==>
            || IsPath(db, rs[..n], p, a)
            || (rs[n] == a && p == [n])
            || (|p| > 1 && p[0] == n && IsPath(db, Next(db, rs[n]), p[1..], a))
  {
    var n := |rs| - 1;
    if p != [] && p[0] < n {
      assert rs[..n][p[0]] == rs[p[0]];
    } else if p != [] && p[0] == n && |p| == 1 {
      assert p == [n];
    }
  }

  lemma {:induction false} PathsAreThePaths(db: Db, rs: seq<Ancestor>, a: Ancestor, p: seq<nat>)
    requires Ordered(db)
    ensures p in Paths(db, rs, a) <==> IsPath(db, rs, p, a)
    decreases Top(db, rs), |rs|
  {
    if rs != [] {
      var n := |rs| - 1;
      var next := Next(db, rs[n]);
      TopNext(db, rs[n]);
      PathsSnoc(db, rs, a, p);
      IsPathSnoc(db, rs, a, p);
      PathsAreThePaths(db, rs[..n], a, p);
      PrefixedMember(n, Paths(db, next, a), p);
      if p != [] {
        PathsAreThePaths(db, next, a, p[1..]);
      }
    }
  }

  lemma PathsDisjoint(db: Db, rs: seq<Ancestor>, a: Ancestor)
    requires Ordered(db) && rs != []
    ensures var n := |rs| - 1;
            var init, next := Paths(db, rs[..n], a), Prefixed(n, Paths(db, Next(db, rs[n]), a));
            |Paths(db, rs, a)| == |init| + (if rs[n] == a then 1 else 0) + |next|
  {
    var n := |rs| - 1;
    var init, tails := Paths(db, rs[..n], a), Paths(db, Next(db, rs[n]), a);
    var next, here := Prefixed(n, tails), if rs[n] == a then {[n]} else {};
    forall p | p in init ensures p !in next && p !in here {
      PathsAreThePaths(db, rs[..n], a, p);
      PrefixedMember(n, tails, p);
    }
    PathsAreThePaths(db, Next(db, rs[n]), a, []);
    PrefixedMember(n, tails, [n]);
    assert [n][1..] == [];
    assert here !! next && init !! (here + next);
    assert Paths(db, rs, a) == init + here + next;
  }

  lemma {:induction false} PathsCounted(db: Db, rs: seq<Ancestor>, a: Ancestor)
    requires Ordered(db)
    ensures |Paths(db, rs, a)| == Unfold(db, rs)[a]
    decreases Top(db, rs), |rs|
  {
    if rs != [] {
      var n := |rs| - 1;
      var init, next := rs[..n], Next(db, rs[n]);
      TopNext(db, rs[n]);
      PathsDisjoint(db, rs, a);
      PrefixedSize(n, Paths(db, next, a));
      PathsCounted(db, init, a);
      PathsCounted(db, next, a);
      assert Unfold(db, rs)[a] == Unfold(db, init)[a] + multiset{rs[n]}[a] + Unfold(db, next)[a];
    }
  }

  /** The multiplicity of an output is the number of distinct spending paths that end in it. */
  lemma MultiplicityIsPathCount(db: Db, t: Hash, a: Ancestor, paths: set<seq<nat>>)
    requires Ordered(db)
    requires forall p :: p in paths <==> IsPath(db, Spends(db, t), p, a)
    ensures |paths| == Unfold(db, Spends(db, t))[a]
  {
    forall p ensures p in paths <==> p in Paths(db, Spends(db, t), a) {
      PathsAreThePaths(db, Spends(db, t), a, p);
    }
    assert paths == Paths(db, Spends(db, t), a);
    PathsCounted(db, Spends(db, t), a);
  }

  // ---------- chains that grow ----------

  ghost predicate AllFound(db: Db, rs: seq<Ancestor>) {
    forall i | 0 <= i < |rs| :: Origin(db, rs[i], true).Some?
  }

  /** The forward pass can read `t` and find the origin of everything it spends. */
  ghost predicate Resolvable(db: Db, t: Hash) {
    && LookupTx(db, t).Some?
    && AllFound(db, Spends(db, t))
  }

  /** It is stored and convertible, and every ring member it names has an origin. */
  lemma ResolvableMeaning(db: Db, t: Hash)
    ensures Resolvable(db, t) <==>
            && t in db.txs && Convertible(db.txs[t])
            && (db.txs[t].vin != [Gen] ==>
                  forall i, j, a | Names(db.txs[t].vin, i, j, a) :: exists o :: Origin(db, a, true) == Some(o))
  {
    if t in db.txs && Convertible(db.txs[t]) {
      var vin, rs := db.txs[t].vin, Spends(db, t);
      TxDataMeaning(db.txs[t]);
      SpendsMeaning(db, t);
      if vin != [Gen] {
        if AllFound(db, rs) {
          forall i, j, a | Names(vin, i, j, a) ensures exists o :: Origin(db, a, true) == Some(o) {
            assert Origin(db, rs[MembersBefore(vin, i) + j], true) == Some(Origin(db, a, true).value);
          }
        }
        if forall i, j, a | Names(vin, i, j, a) :: exists o :: Origin(db, a, true) == Some(o) {
          forall p | 0 <= p < |rs| ensures Origin(db, rs[p], true).Some? {
            SpentByRing(db, t, rs[p]);
          }
        }
      }
    } else if t in db.txs {
      TxDataMeaning(db.txs[t]);
    }
  }

  /** Every non-miner transaction of the first `h` blocks is resolvable. */
  ghost predicate Settled(db: Db, h: nat) {
    && h <= |db.blocks|
    && forall k, t | 0 <= k < h && t in db.blocks[k].txHashes :: Resolvable(db, t)
  }

  lemma NextExtends(db: Db, later: Db, a: Ancestor, h: nat)
    requires Ordered(db) && Ordered(later) && Extends(db, later) && Settled(db, h)
    requires Origin(db, a, true).Some? && db.outputs[a].height < h
    ensures Next(later, a) == Next(db, a)
    ensures AllFound(db, Next(db, a)) && SpendsBelow(db, Next(db, a), db.outputs[a].height)
  {
    OriginStrictIsLazy(db, a);
    OriginExtends(db, later, a, false);
    OriginListed(db, a, true);
    NextIsLower(db, a);
    var b, o := db.blocks[db.outputs[a].height], Origin(db, a, true).value;
    assert later.blocks[db.outputs[a].height] == b;
    if o in b.txHashes {
      assert Resolvable(db, o);
    }
  }

  /** Growing the chain does not change what is reached from settled blocks. */
  lemma {:induction false} UnfoldExtends(db: Db, later: Db, rs: seq<Ancestor>, h: nat)
    requires Ordered(db) && Ordered(later) && Extends(db, later) && Settled(db, h)
    requires AllFound(db, rs) && SpendsBelow(db, rs, h)
    ensures Unfold(later, rs) == Unfold(db, rs)
    decreases Top(db, rs), |rs|
  {
    if rs != [] {
      var init, last := rs[..|rs| - 1], rs[|rs| - 1];
      TopNext(db, last);
      NextExtends(db, later, last, h);
      UnfoldExtends(db, later, init, h);
      UnfoldExtends(db, later, Next(db, last), db.outputs[last].height);
    }
  }
}
