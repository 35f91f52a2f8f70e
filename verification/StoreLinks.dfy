/** The stored blocks form a chain, and the tables by height and by hash agree about it. */
module StoreLinks {
  import opened StoreTables
  import opened StoreSound
  import opened StoreUndo

  /** The block at each height is found there by its hash. */
  ghost predicate Found(t: Tables) {
    |t.infos| == |t.blocks| &&
    forall i | 0 <= i < |t.blocks| ::
      && t.infos[i].hash == t.blocks[i].hash
      && t.blocks[i].hash in t.heights && t.heights[t.blocks[i].hash] == i
  }

  /** Every hash listed leads to a block with that hash. */
  ghost predicate Listed(t: Tables) {
    forall h | h in t.heights :: t.heights[h] < |t.blocks| && t.blocks[t.heights[h]].hash == h
  }

  ghost predicate Parents(t: Tables) {
    forall i | 0 < i < |t.blocks| :: t.blocks[i].prevId == t.blocks[i - 1].hash
  }

  ghost predicate Linked(t: Tables) {
    Found(t) && Listed(t) && Parents(t)
  }

  lemma AddRowLinked(t: Tables, e: Entry)
    requires Linked(t) && AddRow(t, e).Some?
    ensures Linked(AddRow(t, e).value)
  {
    var b, t', n := e.block, AddRow(t, e).value, |t.blocks|;
    assert Found(t') by {
      forall i | 0 <= i < n + 1
        ensures t'.infos[i].hash == t'.blocks[i].hash
        ensures t'.blocks[i].hash in t'.heights && t'.heights[t'.blocks[i].hash] == i
      {
        if i < n {
          assert t'.blocks[i] == t.blocks[i] && t'.infos[i] == t.infos[i] && t.blocks[i].hash != b.hash;
        }
      }
    }
    assert Listed(t') by {
      forall h | h in t'.heights ensures t'.heights[h] < n + 1 && t'.blocks[t'.heights[h]].hash == h {
        if h != b.hash {
          assert t'.heights[h] == t.heights[h] < n && t'.blocks[t.heights[h]] == t.blocks[t.heights[h]];
        }
      }
    }
    assert Parents(t') by {
      forall i | 0 < i < n + 1 ensures t'.blocks[i].prevId == t'.blocks[i - 1].hash {
        assert t'.blocks[i - 1] == t.blocks[i - 1];
        if i < n {
          assert t'.blocks[i] == t.blocks[i];
        }
      }
    }
  }

  lemma AddBlockLinked(t: Tables, e: Entry)
    requires Linked(t) && AddBlock(t, e).Some?
    ensures Linked(AddBlock(t, e).value)
  {
    AddBlockParts(t, e);
    var t1 := AddTx(t, e.block.minerTx, e.block.minerHash).value;
    var t2 := AddTxs(t1, e.block.txHashes, e.txs).value;
    assert Linked(t2);
    AddRowLinked(t2, e);
  }

  lemma {:induction false} ReplayLinked(es: seq<Entry>)
    requires Replayable(es)
    ensures Linked(Replay(es))
  {
    if es != [] {
      ReplayLinked(es[..|es| - 1]);
      AddBlockLinked(Replay(es[..|es| - 1]), es[|es| - 1]);
    }
  }

  lemma RemoveRowLinked(t: Tables)
    requires Linked(t) && RemoveRow(t).Some?
    ensures Linked(RemoveRow(t).value)
  {
    var t', n := RemoveRow(t).value, |t.blocks| - 1;
    assert t.infos[n].hash == t.blocks[n].hash && t.heights[t.blocks[n].hash] == n;
    assert Listed(t') by {
      forall h | h in t'.heights ensures t'.heights[h] < n && t'.blocks[t'.heights[h]].hash == h {
        assert t.blocks[t.heights[h]].hash == h;
        assert t.heights[h] != n;
      }
    }
  }

  lemma {:induction false} RemoveTxsKeepBlocks(t: Tables, hashes: seq<Hash>)
    requires RemoveTxs(t, hashes).Some?
    ensures var t' := RemoveTxs(t, hashes).value.t;
            t'.blocks == t.blocks && t'.infos == t.infos && t'.heights == t.heights
    decreases |hashes|
  {
    if hashes != [] {
      var n := |hashes| - 1;
      RemoveTxsKeepBlocks(RemoveTx(t, hashes[n]).value, hashes[..n]);
    }
  }

  lemma PopBlockLinked(t: Tables)
    requires Linked(t) && PopBlock(t).Some?
    ensures Linked(PopBlock(t).value.t)
  {
    var t1, b := RemoveRow(t).value, t.blocks[|t.blocks| - 1];
    RemoveRowLinked(t);
    RemoveTxsKeepBlocks(t1, b.txHashes);
    var t2 := PopBlock(t).value.t;
    assert t2.blocks == t1.blocks && t2.infos == t1.infos && t2.heights == t1.heights;
  }

  /** In every reachable state, whatever was added and popped, every block names the hash of the block
      below it, and looking a block up by hash and by height gives the same place. */
  lemma {:induction false} ReachableLinked(ops: seq<Op>)
    ensures Linked(RunOps(ops))
  {
    if ops != [] {
      var t := RunOps(ops[..|ops| - 1]);
      ReachableLinked(ops[..|ops| - 1]);
      match ops[|ops| - 1]
      case Add(e) =>
        if AddBlock(t, e).Some? {
          AddBlockLinked(t, e);
        }
      case Pop =>
        if PopBlock(t).Some? {
          PopBlockLinked(t);
        }
    }
  }
}
