/** The two passes answer the same question the same way. */
module PassesAgree {
  import opened Chain
  import opened AncestrySpec
  import opened ForwardPass
  import opened BackwardPass

  ghost predicate MinersStored(db: Db) {
    forall h | 0 <= h < |db.blocks| :: Readable(db, db.blocks[h].minerHash)
  }

  lemma {:induction false} ResolvableIsTraceable(db: Db, t: Hash, n: nat)
    requires Ordered(db) && Settled(db, n) && MinersStored(db)
    requires Resolvable(db, t) && SpendsBelow(db, Spends(db, t), n)
    ensures Traceable(db, t)
    decreases Top(db, Spends(db, t))
  {
    var rs := Spends(db, t);
    forall i | 0 <= i < |rs| ensures StepTraceable(db, rs[i]) {
      var o, h := Origin(db, rs[i], true).value, db.outputs[rs[i]].height;
      OriginStrictIsLazy(db, rs[i]);
      OriginListed(db, rs[i], true);
      NextIsLower(db, rs[i]);
      TopNext(db, rs[i]);
      TopMember(db, rs, i);
      if o in db.blocks[h].txHashes {
        ResolvableIsTraceable(db, o, h);
      } else {
        assert Readable(db, o) && Spends(db, o) == [];
      }
    }
    TraceableUnfolded(db, t);
  }

  /** Whatever the forward pass has walked, the backward pass can trace. */
  lemma WalkedIsTraceable(db: Db, file: Saved, done: nat, k: nat, t: Hash)
    requires Ordered(db) && Consistent(db, file, done) && MinersStored(db)
    requires k < done && t in db.blocks[k].txHashes
    ensures Traceable(db, t)
  {
    forall h, u | 0 <= h < k && u in db.blocks[h].txHashes ensures Resolvable(db, u) {
      assert Answered(db, file.ancestry, u);
    }
    assert Answered(db, file.ancestry, t);
    var i :| 0 <= i < |db.blocks[k].txHashes| && db.blocks[k].txHashes[i] == t;
    assert SpendsBelow(db, Spends(db, db.blocks[k].txHashes[i]), k);
    ResolvableIsTraceable(db, t, k);
  }

  /** The outputs the backward pass counts are the set the forward pass keeps, so the deduplicated
      count printed by one is the size printed by the other. */
  lemma SameAncestors(db: Db, file: Saved, done: nat, k: nat, t: Hash, counts: Counts)
    requires Ordered(db) && Consistent(db, file, done)
    requires k < done && (t in db.blocks[k].txHashes || t == db.blocks[k].minerHash)
    requires Tallies(counts, Unfold(db, Spends(db, t)))
    ensures counts.Keys == GetAncestry(file.ancestry, t)
    ensures |counts| == |GetAncestry(file.ancestry, t)|
  {
    ConsistentServes(db, file, done);
    assert counts.Keys == Ancestors(db, t);
  }
}
