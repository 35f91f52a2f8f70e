/** Places of outputs in the tables, and exactly when removing a list of places undoes an addition. */
module StoreSlots {
  import opened Optional
  import opened StoreTables
  import opened StoreSound

  /** The place of an output: its amount and its index there. */
  type Slot = (Amount, nat)

  ghost predicate Has(outs: Outputs, s: Slot) {
    s.1 in BucketOf(outs.amounts, s.0)
  }

  ghost function RowAt(outs: Outputs, s: Slot): OutKey
    requires Has(outs, s)
  {
    BucketOf(outs.amounts, s.0)[s.1]
  }

  ghost predicate NoEmpty(amounts: Amounts) {
    forall a | a in amounts :: amounts[a] != map[]
  }

  lemma SameBucket(outs: Outputs, outs': Outputs, a: Amount)
    requires forall s :: Has(outs, s) <==> Has(outs', s)
    requires forall s | Has(outs, s) :: RowAt(outs, s) == RowAt(outs', s)
    ensures BucketOf(outs.amounts, a) == BucketOf(outs'.amounts, a)
  {
    forall n: nat
      ensures n in BucketOf(outs.amounts, a) <==> n in BucketOf(outs'.amounts, a)
      ensures n in BucketOf(outs.amounts, a) ==> BucketOf(outs.amounts, a)[n] == BucketOf(outs'.amounts, a)[n]
    {
      assert Has(outs, (a, n)) <==> Has(outs', (a, n));
      if Has(outs, (a, n)) {
        assert RowAt(outs, (a, n)) == RowAt(outs', (a, n));
      }
    }
  }

  /** Without empty lists, output tables are determined by what is in which place. */
  lemma SameOutputs(outs: Outputs, outs': Outputs)
    requires NoEmpty(outs.amounts) && NoEmpty(outs'.amounts) && outs.txs == outs'.txs
    requires forall s :: Has(outs, s) <==> Has(outs', s)
    requires forall s | Has(outs, s) :: RowAt(outs, s) == RowAt(outs', s)
    ensures outs == outs'
  {
    forall a ensures BucketOf(outs.amounts, a) == BucketOf(outs'.amounts, a) {
      SameBucket(outs, outs', a);
    }
    assert forall a | a in outs.amounts :: BucketOf(outs.amounts, a) != map[];
    assert forall a | a in outs'.amounts :: BucketOf(outs'.amounts, a) != map[];
    assert outs.amounts == outs'.amounts;
  }

  // ---------- removing places ----------

  ghost function IdAt(outs: Outputs, s: Slot): nat {
    if Has(outs, s) then RowAt(outs, s).outputId else 0
  }

  ghost function IdsOf(outs: Outputs, slots: seq<Slot>): set<nat> {
    set s | s in slots :: IdAt(outs, s)
  }

  /** Empties the places from the last to the first. */
  ghost function RemoveSlots(outs: Outputs, slots: seq<Slot>): Option<Outputs>
    decreases |slots|
  {
    if slots == [] then Some(outs)
    else
      var n := |slots| - 1;
      match RemoveOutput(outs, slots[n].0, slots[n].1)
      case None => None
      case Some(outs') => RemoveSlots(outs', slots[..n])
  }

  lemma RemoveOutputEffect(outs: Outputs, s: Slot)
    requires RemoveOutput(outs, s.0, s.1).Some?
    ensures Has(outs, s) && IdAt(outs, s) in outs.txs
    ensures var outs' := RemoveOutput(outs, s.0, s.1).value;
            && (forall r :: Has(outs', r) <==> Has(outs, r) && r != s)
            && (forall r | Has(outs', r) :: RowAt(outs', r) == RowAt(outs, r))
            && outs'.txs == outs.txs - {IdAt(outs, s)}
            && (NoEmpty(outs.amounts) ==> NoEmpty(outs'.amounts))
  {
  }

  lemma IdsOfSnoc(outs: Outputs, outs1: Outputs, init: seq<Slot>, s: Slot)
    requires forall r | r in init :: Has(outs1, r) && Has(outs, r) && RowAt(outs1, r) == RowAt(outs, r)
    ensures outs.txs - {IdAt(outs, s)} - IdsOf(outs1, init) == outs.txs - IdsOf(outs, init + [s])
  {
    assert IdsOf(outs1, init) == IdsOf(outs, init) by {
      assert forall r | r in init :: IdAt(outs1, r) == IdAt(outs, r);
    }
    assert IdsOf(outs, init + [s]) == IdsOf(outs, init) + {IdAt(outs, s)} by {
      assert forall r :: r in init + [s] <==> r in init || r == s;
    }
  }

  lemma {:induction false} RemoveSlotsEffect(outs: Outputs, slots: seq<Slot>)
    requires RemoveSlots(outs, slots).Some?
    ensures forall i | 0 <= i < |slots| :: Has(outs, slots[i])
    ensures var outs' := RemoveSlots(outs, slots).value;
            && (forall r :: Has(outs', r) <==> Has(outs, r) && r !in slots)
            && (forall r | Has(outs', r) :: RowAt(outs', r) == RowAt(outs, r))
            && outs'.txs == outs.txs - IdsOf(outs, slots)
            && (NoEmpty(outs.amounts) ==> NoEmpty(outs'.amounts))
    decreases |slots|
  {
    if slots != [] {
      var init, s := slots[..|slots| - 1], slots[|slots| - 1];
      var outs1 := RemoveOutput(outs, s.0, s.1).value;
      RemoveOutputEffect(outs, s);
      RemoveSlotsEffect(outs1, init);
      assert forall r :: r in slots <==> r in init || r == s;
      IdsOfSnoc(outs, outs1, init, s);
      assert slots == init + [s];
    }
  }

  ghost predicate AllDifferent(slots: seq<Slot>) {
    forall i, j | 0 <= i < |slots| && 0 <= j < |slots| && slots[i] == slots[j] :: i == j
  }

  lemma DifferentSnoc(slots: seq<Slot>, s: Slot)
    ensures AllDifferent(slots + [s]) <==> AllDifferent(slots) && s !in slots
  {
    var all := slots + [s];
    if AllDifferent(all) {
      forall i | 0 <= i < |slots| ensures slots[i] != s {
        assert all[i] == slots[i] && all[|slots|] == s;
      }
      forall i, j | 0 <= i < |slots| && 0 <= j < |slots| && slots[i] == slots[j] ensures i == j {
        assert all[i] == all[j];
      }
    }
  }

  lemma RemoveOutputShrinks(outs: Outputs, s: Slot)
    requires RemoveOutput(outs, s.0, s.1).Some?
    ensures |outs.txs| == |RemoveOutput(outs, s.0, s.1).value.txs| + 1
  {
    var id := outs.amounts[s.0][s.1].outputId;
    assert (outs.txs - {id}).Keys == outs.txs.Keys - {id};
  }

  lemma {:induction false} RemoveSlotsShrinks(outs: Outputs, slots: seq<Slot>)
    requires RemoveSlots(outs, slots).Some?
    ensures |outs.txs| == |RemoveSlots(outs, slots).value.txs| + |slots|
    decreases |slots|
  {
    if slots != [] {
      var n := |slots| - 1;
      RemoveOutputShrinks(outs, slots[n]);
      RemoveSlotsShrinks(RemoveOutput(outs, slots[n].0, slots[n].1).value, slots[..n]);
    }
  }

  lemma NotEmptiedTwice(outs: Outputs, init: seq<Slot>, s: Slot)
    requires RemoveOutput(outs, s.0, s.1).Some?
    requires RemoveSlots(RemoveOutput(outs, s.0, s.1).value, init).Some?
    ensures s !in init
  {
    RemoveOutputEffect(outs, s);
    RemoveSlotsEffect(RemoveOutput(outs, s.0, s.1).value, init);
  }

  /** Places that can all be emptied are different. */
  lemma {:induction false} RemoveSlotsDifferent(outs: Outputs, slots: seq<Slot>)
    requires RemoveSlots(outs, slots).Some?
    ensures AllDifferent(slots)
    decreases |slots|
  {
    if slots != [] {
      var init, s := slots[..|slots| - 1], slots[|slots| - 1];
      RemoveSlotsDifferent(RemoveOutput(outs, s.0, s.1).value, init);
      NotEmptiedTwice(outs, init, s);
      DifferentSnoc(init, s);
      assert slots == init + [s];
    }
  }

  lemma RemoveOutputShorter(outs: Outputs, s: Slot, a: Amount)
    requires RemoveOutput(outs, s.0, s.1).Some?
    ensures |BucketOf(outs.amounts, a)| ==
            |BucketOf(RemoveOutput(outs, s.0, s.1).value.amounts, a)| + if a == s.0 then 1 else 0
  {
    var bucket := BucketOf(outs.amounts, s.0);
    assert (bucket - {s.1}).Keys == bucket.Keys - {s.1};
  }

  /** Places in use whose rows have ids of their own can all be emptied. */
  lemma {:induction false} RemoveSlotsSucceeds(outs: Outputs, slots: seq<Slot>)
    requires forall i | 0 <= i < |slots| :: Has(outs, slots[i]) && IdAt(outs, slots[i]) in outs.txs
    requires forall i, j | 0 <= i < j < |slots| :: IdAt(outs, slots[i]) != IdAt(outs, slots[j])
    ensures RemoveSlots(outs, slots).Some?
    decreases |slots|
  {
    if slots != [] {
      var init, s := slots[..|slots| - 1], slots[|slots| - 1];
      RemoveOutputEffect(outs, s);
      var outs1 := RemoveOutput(outs, s.0, s.1).value;
      forall i | 0 <= i < |init| ensures Has(outs1, init[i]) && IdAt(outs1, init[i]) == IdAt(outs, slots[i]) {
        assert init[i] == slots[i] && IdAt(outs, slots[i]) != IdAt(outs, s);
      }
      RemoveSlotsSucceeds(outs1, init);
    }
  }

  lemma {:induction false} RemoveSlotsConcat(outs: Outputs, xs: seq<Slot>, ys: seq<Slot>)
    ensures RemoveSlots(outs, xs + ys) == match RemoveSlots(outs, ys)
                                          case None => None
                                          case Some(outs') => RemoveSlots(outs', xs)
    decreases |ys|
  {
    if ys == [] {
      assert xs + ys == xs;
    } else {
      var n, s := |ys| - 1, ys[|ys| - 1];
      assert (xs + ys)[..|xs + ys| - 1] == xs + ys[..n] && (xs + ys)[|xs + ys| - 1] == s;
      if RemoveOutput(outs, s.0, s.1).Some? {
        RemoveSlotsConcat(RemoveOutput(outs, s.0, s.1).value, xs, ys[..n]);
      }
    }
  }

  // ---------- adding places ----------

  /** `outs'` is `outs` with rows in new places, numbered in order. */
  ghost predicate Appended(outs: Outputs, outs': Outputs, slots: seq<Slot>) {
    && (forall s :: Has(outs', s) <==> Has(outs, s) || s in slots)
    && (forall s | Has(outs, s) :: s !in slots && RowAt(outs', s) == RowAt(outs, s))
    && (forall i | 0 <= i < |slots| :: IdAt(outs', slots[i]) == |outs.txs| + i)
    && |outs'.txs| == |outs.txs| + |slots| && Dense(outs'.txs)
    && (forall id | id in outs.txs :: id in outs'.txs && outs'.txs[id] == outs.txs[id])
  }

  lemma AppendedConcat(a: Outputs, b: Outputs, c: Outputs, xs: seq<Slot>, ys: seq<Slot>)
    requires Appended(a, b, xs) && Appended(b, c, ys)
    ensures Appended(a, c, xs + ys)
  {
    var all := xs + ys;
    assert forall s :: s in all <==> s in xs || s in ys;
    forall i | 0 <= i < |all| ensures IdAt(c, all[i]) == |a.txs| + i {
      if i < |xs| {
        assert all[i] == xs[i] && Has(b, xs[i]);
      } else {
        assert all[i] == ys[i - |xs|];
      }
    }
  }

  lemma AddOutputAppended(outs: Outputs, hash: Hash, tx: Transaction, i: nat, height: nat)
    requires DenseOutputs(outs) && i < |tx.vout| && AddOutput(outs, hash, tx, i, height).Some?
    ensures Appended(outs, AddOutput(outs, hash, tx, i, height).value,
                     [(StoredAmount(tx, i), |BucketOf(outs.amounts, StoredAmount(tx, i))|)])
  {
    AddOutputSound(outs, hash, tx, i, height);
  }

  ghost function Elements(slots: seq<Slot>): set<Slot> {
    set s | s in slots
  }

  lemma {:induction false} NoRepeats(slots: seq<Slot>)
    ensures |Elements(slots)| <= |slots|
    ensures |Elements(slots)| == |slots| <==> AllDifferent(slots)
  {
    if slots != [] {
      var init, s := slots[..|slots| - 1], slots[|slots| - 1];
      NoRepeats(init);
      assert slots == init + [s];
      DifferentSnoc(init, s);
      assert Elements(slots) == Elements(init) + {s};
    }
  }

  lemma RestoredSamePlaces(outs: Outputs, outs': Outputs, slots: seq<Slot>, looked: seq<Slot>)
    requires Appended(outs, outs', slots) && RemoveSlots(outs', looked) == Some(outs)
    ensures Elements(looked) == Elements(slots)
  {
    RemoveSlotsEffect(outs', looked);
    forall s ensures s in looked <==> s in slots {
      assert Has(outs, s) <==> Has(outs', s) && s !in looked;
      assert s in looked ==> Has(outs', s);
    }
  }

  lemma LookedIds(outs: Outputs, outs': Outputs, slots: seq<Slot>, looked: seq<Slot>)
    requires Appended(outs, outs', slots) && |looked| == |slots| && Elements(looked) == Elements(slots)
    ensures forall i | 0 <= i < |looked| :: Has(outs', looked[i]) && |outs.txs| <= IdAt(outs', looked[i]) < |outs'.txs|
    ensures forall i, j | 0 <= i < j < |looked| :: IdAt(outs', looked[i]) != IdAt(outs', looked[j])
  {
    forall i, j | 0 <= i < j < |slots| ensures slots[i] != slots[j] {
      assert IdAt(outs', slots[i]) != IdAt(outs', slots[j]);
    }
    NoRepeats(slots);
    NoRepeats(looked);
    forall i | 0 <= i < |looked| ensures looked[i] in slots {
      assert looked[i] in Elements(looked);
    }
    forall i, j | 0 <= i < j < |looked| ensures IdAt(outs', looked[i]) != IdAt(outs', looked[j]) {
      var p :| 0 <= p < |slots| && slots[p] == looked[i];
      var q :| 0 <= q < |slots| && slots[q] == looked[j];
      assert looked[i] != looked[j];
    }
  }

  lemma AllIds(outs: Outputs, outs': Outputs, slots: seq<Slot>, looked: seq<Slot>)
    requires Appended(outs, outs', slots) && Dense(outs.txs) && Elements(looked) == Elements(slots)
    ensures outs'.txs - IdsOf(outs', looked) == outs.txs
  {
    forall id: nat ensures id in IdsOf(outs', looked) <==> |outs.txs| <= id < |outs'.txs| {
      if |outs.txs| <= id < |outs'.txs| {
        var s := slots[id - |outs.txs|];
        assert s in Elements(slots);
        assert IdAt(outs', s) == id && s in looked;
      }
      if id in IdsOf(outs', looked) {
        var s :| s in looked && IdAt(outs', s) == id;
        assert s in Elements(looked);
        var p :| 0 <= p < |slots| && slots[p] == s;
      }
    }
    assert forall id :: id in outs'.txs - IdsOf(outs', looked) <==> id in outs.txs;
  }

  lemma SamePlacesRestored(outs: Outputs, outs': Outputs, slots: seq<Slot>, looked: seq<Slot>)
    requires DenseOutputs(outs) && NoEmpty(outs'.amounts) && Appended(outs, outs', slots) && |looked| == |slots|
    requires Elements(looked) == Elements(slots)
    ensures RemoveSlots(outs', looked) == Some(outs)
  {
    LookedIds(outs, outs', slots, looked);
    RemoveSlotsSucceeds(outs', looked);
    RemoveSlotsEffect(outs', looked);
    AllIds(outs, outs', slots, looked);
    forall s ensures s in looked <==> s in slots {
      assert s in Elements(looked) <==> s in Elements(slots);
    }
    SameOutputs(RemoveSlots(outs', looked).value, outs);
  }

  /** Emptying as many places as were filled restores the tables exactly if they are the same places, in
      whatever order. */
  lemma RestoredIff(outs: Outputs, outs': Outputs, slots: seq<Slot>, looked: seq<Slot>)
    requires DenseOutputs(outs) && NoEmpty(outs'.amounts) && Appended(outs, outs', slots) && |looked| == |slots|
    ensures RemoveSlots(outs', looked) == Some(outs) <==> Elements(looked) == Elements(slots)
  {
    if RemoveSlots(outs', looked) == Some(outs) {
      RestoredSamePlaces(outs, outs', slots, looked);
    }
    if Elements(looked) == Elements(slots) {
      SamePlacesRestored(outs, outs', slots, looked);
    }
  }

  // ---------- the places of a list of outputs ----------

  function IndexAt(amounts: Amounts, stored: seq<Amount>, i: nat): nat
    requires i < |stored|
  {
    |BucketOf(amounts, stored[i])| + Count(stored[..i], stored[i])
  }

  /** The indices outputs get when they are stored one after the other under these amounts. */
  function Indices(amounts: Amounts, stored: seq<Amount>): (indices: seq<nat>)
    ensures |indices| == |stored|
  {
    seq(|stored|, i requires 0 <= i < |stored| => IndexAt(amounts, stored, i))
  }

  lemma IndexBefore(amounts: Amounts, xs: seq<Amount>, ys: seq<Amount>, i: nat)
    requires i < |xs|
    ensures IndexAt(amounts, xs + ys, i) == IndexAt(amounts, xs, i)
  {
    assert (xs + ys)[..i] == xs[..i];
  }

  lemma IndexAfter(amounts: Amounts, amounts': Amounts, xs: seq<Amount>, ys: seq<Amount>, i: nat)
    requires Longer(amounts, amounts', xs) && i < |ys|
    ensures IndexAt(amounts, xs + ys, |xs| + i) == IndexAt(amounts', ys, i)
  {
    assert (xs + ys)[..|xs| + i] == xs + ys[..i];
    CountConcat(xs, ys[..i], ys[i]);
  }

  lemma IndicesConcat(amounts: Amounts, amounts': Amounts, xs: seq<Amount>, ys: seq<Amount>)
    requires Longer(amounts, amounts', xs)
    ensures Indices(amounts, xs + ys) == Indices(amounts, xs) + Indices(amounts', ys)
  {
    forall i | 0 <= i < |xs + ys|
      ensures IndexAt(amounts, xs + ys, i) == (Indices(amounts, xs) + Indices(amounts', ys))[i]
    {
      if i < |xs| {
        IndexBefore(amounts, xs, ys, i);
      } else {
        IndexAfter(amounts, amounts', xs, ys, i - |xs|);
      }
    }
  }

  function Slots(amounts: seq<Amount>, indices: seq<nat>): (slots: seq<Slot>)
    requires |amounts| == |indices|
    ensures |slots| == |amounts|
  {
    seq(|amounts|, i requires 0 <= i < |amounts| => (amounts[i], indices[i]))
  }

  lemma SlotsConcat(xs: seq<Amount>, ns: seq<nat>, ys: seq<Amount>, ms: seq<nat>)
    requires |xs| == |ns| && |ys| == |ms|
    ensures Slots(xs + ys, ns + ms) == Slots(xs, ns) + Slots(ys, ms)
  {
  }

  lemma SlotsSnoc(xs: seq<Amount>, ns: seq<nat>, x: Amount, n: nat)
    requires |xs| == |ns|
    ensures Slots(xs + [x], ns + [n]) == Slots(xs, ns) + [(x, n)]
  {
  }

  lemma AppendedOneMore(outs: Outputs, a: Adding, a': Adding, hash: Hash, tx: Transaction, k: nat, height: nat,
                        slots: seq<Slot>)
    requires OneMore(a, a', hash, tx, k, height) && DenseOutputs(a.outs) && Appended(outs, a.outs, slots)
    ensures Appended(outs, a'.outs, slots + [(StoredAmount(tx, k), a'.indices[k])])
  {
    AddOutputAppended(a.outs, hash, tx, k, height);
    AppendedConcat(outs, a.outs, a'.outs, slots, [(StoredAmount(tx, k), a'.indices[k])]);
  }

  lemma IndicesStep(amounts: Amounts, a: Adding, a': Adding, hash: Hash, tx: Transaction, k: nat, height: nat)
    requires OneMore(a, a', hash, tx, k, height) && Longer(amounts, a.outs.amounts, StoredUpTo(tx, k))
    requires a.indices == Indices(amounts, StoredUpTo(tx, k))
    ensures a'.indices == Indices(amounts, StoredUpTo(tx, k + 1))
  {
    var stored, amount := StoredUpTo(tx, k), StoredAmount(tx, k);
    assert Indices(a.outs.amounts, [amount]) == [|BucketOf(a.outs.amounts, amount)|] by {
      assert [amount][..0] == [];
    }
    IndicesConcat(amounts, a.outs.amounts, stored, [amount]);
  }

  lemma AppendedStep(outs: Outputs, a: Adding, a': Adding, hash: Hash, tx: Transaction, k: nat, height: nat)
    requires OneMore(a, a', hash, tx, k, height) && DenseOutputs(a.outs)
    requires Longer(outs.amounts, a.outs.amounts, StoredUpTo(tx, k))
    requires a.indices == Indices(outs.amounts, StoredUpTo(tx, k))
    requires Appended(outs, a.outs, Slots(StoredUpTo(tx, k), a.indices))
    ensures a'.indices == Indices(outs.amounts, StoredUpTo(tx, k + 1))
    ensures Appended(outs, a'.outs, Slots(StoredUpTo(tx, k + 1), a'.indices))
  {
    IndicesStep(outs.amounts, a, a', hash, tx, k, height);
    AppendedOneMore(outs, a, a', hash, tx, k, height, Slots(StoredUpTo(tx, k), a.indices));
    SlotsSnoc(StoredUpTo(tx, k), a.indices, StoredAmount(tx, k), a'.indices[k]);
  }

  /** Storing the outputs of a transaction fills the places foretold from the lengths of the lists. */
  lemma {:induction false} AddOutputsAppended(outs: Outputs, hash: Hash, tx: Transaction, k: nat, height: nat)
    requires DenseOutputs(outs) && k <= |tx.vout| && AddOutputs(outs, hash, tx, k, height).Some?
    ensures var a, stored := AddOutputs(outs, hash, tx, k, height).value, StoredUpTo(tx, k);
            && a.indices == Indices(outs.amounts, stored)
            && Appended(outs, a.outs, Slots(stored, a.indices))
  {
    if k > 0 {
      var j, a' := k - 1, AddOutputs(outs, hash, tx, k, height).value;
      AddOutputsStep(outs, hash, tx, j, height);
      AddOutputsSound(outs, hash, tx, j, height);
      AddOutputsLonger(outs, hash, tx, j, height);
      var a := AddOutputs(outs, hash, tx, j, height).value;
      AddOutputsAppended(outs, hash, tx, j, height);
      AppendedStep(outs, a, a', hash, tx, j, height);
    }
  }

  /** Emptying places makes each list shorter by as many as are named there. */
  lemma {:induction false} RemoveSlotsShorter(outs: Outputs, named: seq<Amount>, indices: seq<nat>, a: Amount)
    requires |named| == |indices| && RemoveSlots(outs, Slots(named, indices)).Some?
    ensures |BucketOf(outs.amounts, a)| ==
            |BucketOf(RemoveSlots(outs, Slots(named, indices)).value.amounts, a)| + Count(named, a)
    decreases |named|
  {
    if named != [] {
      var n, slots := |named| - 1, Slots(named, indices);
      var outs1 := RemoveOutput(outs, slots[n].0, slots[n].1).value;
      assert slots[..n] == Slots(named[..n], indices[..n]);
      RemoveOutputShorter(outs, slots[n], a);
      RemoveSlotsShorter(outs1, named[..n], indices[..n], a);
    }
  }

  /** Removing the outputs of a transaction empties the places it looks them up in. */
  lemma {:induction false} RemoveOutputsSlots(outs: Outputs, tx: Transaction, indices: seq<nat>, k: nat)
    requires k <= |tx.vout| && k <= |indices|
    ensures RemoveOutputs(outs, tx, indices, k) == RemoveSlots(outs, Slots(RemovedUpTo(tx, k), indices[..k]))
    decreases k
  {
    if k > 0 {
      var j, slots := k - 1, Slots(RemovedUpTo(tx, k), indices[..k]);
      assert slots[..j] == Slots(RemovedUpTo(tx, j), indices[..j]);
      assert slots[j] == (RemovedAmount(tx, j), indices[j]);
      if RemoveOutput(outs, RemovedAmount(tx, j), indices[j]).Some? {
        RemoveOutputsSlots(RemoveOutput(outs, RemovedAmount(tx, j), indices[j]).value, tx, indices, j);
      }
    }
  }
}
