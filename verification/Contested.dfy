/**
 * Uploads finished over a node that another upload is processing: what still holds, and
 * exactly when the used bytes and the versions do not.
 */
module Contested {
  import opened Base
  import opened Lifecycle
  import opened Success
  import opened Quota
  import opened AllOrNothing
  import opened Committed

  /**
   * Staging an overwrite keeps every version readable exactly when no other upload is
   * processing the node: otherwise the snapshot is of content that was never written.
   */
  lemma LegibleExactlyWhen(cfg: Config, w: World, id: SessionId, info: Info, a: Answers)
    requires id in w.store && info.existed && CallsSucceed(cfg, w, id, info, a)
    requires Legible(w) && forall n :: n in w.nodes ==> Honest(w, w.nodes[n])
    ensures Legible(Stage(cfg, w, id, info, a).world) <==> Undisturbed(cfg, w, info)
  {
    StageSucceeds(cfg, w, id, info, a);
    var n, w' := info.nodeId, Stage(cfg, w, id, info, a).world;
    if Undisturbed(cfg, w, info) {
      StageLegible(cfg, w, id, info, a);
    } else {
      assert Honest(w, w.nodes[n]);
      var h := w'.nodes[n].history;
      assert h[|h| - 1] == w.nodes[n].cur && !Written(w', h[|h| - 1]);
      assert !Readable(w', w'.nodes[n]);
    }
  }

  /** With the accounts kept, one node decides how far the used bytes are from committed plus outstanding. */
  lemma OneNodeDecides(w: World, n: NodeId)
    requires Accounted(w) && n in w.nodes
    requires forall m :: m in w.nodes && m != n ==> Readable(w, w.nodes[m]) && Honest(w, w.nodes[m])
    ensures
      w.used == CommittedBytes(w, w.nodes) + Outstanding(w.nodes, w.store)
                + SettledSize(w.nodes[n]) - CommittedSize(w, w.nodes[n])
  {
    SettledPlusOutstanding(w);
    TotalRemove(Settle(w.nodes), n);
    assert Settle(w.nodes) - {n} == Settle(w.nodes - {n});
    CommittedRemove(w, w.nodes, n);
    SettledIsCommitted(w, w.nodes - {n});
  }

  /** The newest written version of a snapshot on top of written ones. */
  lemma NewestOfSnapshot(w: World, node: Node)
    requires Readable(w, node) && Honest(w, node)
    ensures NewestWritten(w, node.history + [node.cur]) == SettledSize(node)
  {
    assert (node.history + [node.cur])[..|node.history|] == node.history;
  }

  /**
   * Staging an overwrite keeps the used bytes at committed plus outstanding exactly when no
   * other upload is processing the node, or the one that is has not changed its size.
   */
  lemma BalancedExactlyWhen(cfg: Config, w: World, id: SessionId, a: Answers)
    requires id in w.store && id !in w.blobs && !w.store[id].info.Prepared() && w.store[id].info.existed
    requires Accounted(w) && Legible(w) && forall n :: n in w.nodes ==> Honest(w, w.nodes[n])
    requires CallsSucceed(cfg, w, id, w.store[id].info, a) && a.unmark
    ensures
      var info := w.store[id].info;
      var w', node := Stage(cfg, w, id, info, a).world, w.nodes[info.nodeId];
      w'.used == CommittedBytes(w', w'.nodes) + Outstanding(w'.nodes, w'.store) <==>
      Undisturbed(cfg, w, info) || node.cur.size == Before(node)
  {
    var info := w.store[id].info;
    var n, w' := info.nodeId, Stage(cfg, w, id, info, a).world;
    var node := w.nodes[n];
    StageSucceeds(cfg, w, id, info, a);
    StageKeeps(cfg, w, id, a);
    forall m | m in w'.nodes && m != n
      ensures Readable(w', w'.nodes[m]) && Honest(w', w'.nodes[m])
    {
      assert m in w'.nodes - {n} && w'.nodes[m] == w.nodes[m] && Readable(w, w.nodes[m]) && Honest(w, w.nodes[m]);
    }
    OneNodeDecides(w', n);
    assert Readable(w', node) && Honest(w', node);
    NewestOfSnapshot(w', node);
    assert CommittedSize(w', w'.nodes[n]) == SettledSize(node) && SettledSize(w'.nodes[n]) == node.cur.size;
  }

  /** Two uploads over the same existing node, neither finished yet. */
  predicate Rivals(cfg: Config, w: World, x: SessionId, y: SessionId) {
    && x != y && x in w.store && y in w.store && x !in w.blobs && y !in w.blobs
    && var ix, iy := w.store[x].info, w.store[y].info;
    && ix.existed && iy.existed && ix.nodeId == iy.nodeId
    && !ix.Prepared() && !iy.Prepared() && Defers(cfg, ix) && Defers(cfg, iy)
    && ix.nodeId in w.nodes && w.nodes[ix.nodeId].owner.None?
  }

  /** From w to w', the overwrite of id was staged for postprocessing. */
  predicate Overwritten(w: World, w': World, id: SessionId)
    requires id in w.store && w.store[id].info.nodeId in w.nodes
  {
    var info := w.store[id].info;
    var n := info.nodeId;
    var node := w.nodes[n];
    && w'.nodes == w.nodes[n := Node(Version(Some(id), info.size), node.history + [node.cur], Some(id))]
    && w'.used == w.used + info.size - node.cur.size && w'.blobs == w.blobs
    && id in w'.store && w'.store - {id} == w.store - {id}
    && w'.store[id].info.nodeId == n && w'.store[id].info.existed && w'.store[id].info.SizeDiff() == info.size - node.cur.size
  }

  lemma StagedIs(cfg: Config, w: World, id: SessionId, a: Answers)
    requires id in w.store && CallsSucceed(cfg, w, id, w.store[id].info, a) && a.publish && Defers(cfg, w.store[id].info)
    ensures
      var r := Stage(cfg, w, id, w.store[id].info, a);
      r.Done? && Next(cfg, w, FinishTus(id, a)) == r.world.Note(BytesReceived(id, r.info.nodeId, true))
  {
    StageSucceeds(cfg, w, id, w.store[id].info, a);
  }

  lemma StagedOverwrite(cfg: Config, w: World, id: SessionId, a: Answers)
    requires id in w.store && CallsSucceed(cfg, w, id, w.store[id].info, a) && a.publish
    requires w.store[id].info.existed && Defers(cfg, w.store[id].info)
    ensures Overwritten(w, Next(cfg, w, FinishTus(id, a)), id)
  {
    var n, r := w.store[id].info.nodeId, Stage(cfg, w, id, w.store[id].info, a);
    StageSucceeds(cfg, w, id, w.store[id].info, a);
    assert r.world.nodes == (r.world.nodes - {n})[n := r.world.nodes[n]];
    assert Overwritten(w, r.world, id);
    StagedIs(cfg, w, id, a);
  }

  lemma RivalsStaged(cfg: Config, w: World, w1: World, w2: World, x: SessionId, y: SessionId)
    requires Rivals(cfg, w, x, y) && Overwritten(w, w1, x)
    requires y in w1.store && w1.store[y] == w.store[y] && Overwritten(w1, w2, y)
    ensures
      var n := w.store[x].info.nodeId;
      && x in w2.store && y in w2.store && w2.store - {x, y} == w.store - {x, y}
      && w2.store[x].info.nodeId == n && w2.store[y].info.nodeId == n && w2.store[y].info.existed
      && w2.used - w2.store[y].info.SizeDiff() == w.used + w.store[x].info.size - w.nodes[n].cur.size
      && w2.Owns(y, n) && w2.blobs == w.blobs
      && w2.nodes - {n} == w.nodes - {n}
      && var h := w2.nodes[n].history;
         h != [] && h[|h| - 1] == Version(Some(x), w.store[x].info.size) && h[..|h| - 1] == w.nodes[n].history + [w.nodes[n].cur]
  {
    assert x in w2.store - {y} && w2.store[x] == w1.store[x];
    assert w2.store - {x, y} == w2.store - {y} - {x} == w1.store - {y} - {x} == w1.store - {x} - {y} == w.store - {x} - {y};
  }

  /** The second upload is rolled back, the first finds the node flagged for nobody. */
  lemma RivalsLeave(cfg: Config, w: World, x: SessionId, y: SessionId, b: Answers, actor: string)
    requires x != y && x in w.store && y in w.store && w.store[x].info.nodeId == w.store[y].info.nodeId
    requires w.store[y].info.existed && w.Owns(y, w.store[y].info.nodeId) && w.nodes[w.store[y].info.nodeId].history != []
    requires b.rollback && b.unmark
    ensures
      var n := w.store[y].info.nodeId;
      var h := w.nodes[n].history;
      var w1 := Next(cfg, w, PostprocessingFinished(y, "", Delete, actor, b));
      var w2 := Next(cfg, w1, Terminate(x, b));
      && w2.store == w.store - {x, y} && w2.blobs == w.blobs && w2.used == w.used - w.store[y].info.SizeDiff()
      && w2.nodes - {n} == w.nodes - {n} && n in w2.nodes && w2.nodes[n] == Node(h[|h| - 1], h[..|h| - 1], None)
  {
    var w1 := Next(cfg, w, PostprocessingFinished(y, "", Delete, actor, b));
    assert w1.store == w.store - {y} && !w1.Owns(x, w.store[y].info.nodeId);
    assert w.store - {x, y} == w1.store - {x};
  }

  lemma RivalsEnd(cfg: Config, w: World, x: SessionId, y: SessionId, a: Answers, b: Answers, actor: string)
    requires Rivals(cfg, w, x, y)
    requires CallsSucceed(cfg, w, x, w.store[x].info, a) && CallsSucceed(cfg, w, y, w.store[y].info, a)
    requires a.publish && b.rollback && b.unmark
    ensures
      var w1 := Next(cfg, w, FinishTus(x, a));
      var w2 := Next(cfg, w1, FinishTus(y, a));
      var w' := Next(cfg, Next(cfg, w2, PostprocessingFinished(y, "", Delete, actor, b)), Terminate(x, b));
      var n := w.store[x].info.nodeId;
      && y in w1.store && w1.store[y] == w.store[y]
      && w'.store == w.store - {x, y} && w'.blobs == w.blobs
      && w'.used == w.used + w.store[x].info.size - w.nodes[n].cur.size
      && w'.nodes - {n} == w.nodes - {n} && n in w'.nodes
      && w'.nodes[n] == Node(Version(Some(x), w.store[x].info.size), w.nodes[n].history + [w.nodes[n].cur], None)
  {
    StagedOverwrite(cfg, w, x, a);
    var w1 := Next(cfg, w, FinishTus(x, a));
    assert y in w1.store - {x} && w1.store[y] == w.store[y];
    StagedOverwrite(cfg, w1, y, a);
    var w2 := Next(cfg, w1, FinishTus(y, a));
    RivalsStaged(cfg, w, w1, w2, x, y);
    RivalsLeave(cfg, w2, x, y, b, actor);
  }

  lemma RunOneMore(cfg: Config, w: World, steps: seq<Step>, k: nat)
    requires k < |steps|
    ensures
      var before := Run(cfg, w, steps[..k]);
      && Run(cfg, w, steps[..k + 1]) == Next(cfg, before, steps[k])
      && (BenignRun(cfg, w, steps[..k + 1]) <==> BenignRun(cfg, w, steps[..k]) && Benign(before, steps[k]))
  {
    assert steps[..k + 1][..k] == steps[..k];
  }

  lemma RunFour(cfg: Config, w: World, steps: seq<Step>)
    requires |steps| == 4
    ensures
      var w1 := Next(cfg, w, steps[0]);
      var w2 := Next(cfg, w1, steps[1]);
      var w3 := Next(cfg, w2, steps[2]);
      && Run(cfg, w, steps) == Next(cfg, w3, steps[3])
      && (BenignRun(cfg, w, steps) <==> Benign(w, steps[0]) && Benign(w1, steps[1]) && Benign(w2, steps[2]) && Benign(w3, steps[3]))
  {
    assert steps[..0] == [] && steps[..4] == steps;
    RunOneMore(cfg, w, steps, 0);
    RunOneMore(cfg, w, steps, 1);
    RunOneMore(cfg, w, steps, 2);
    RunOneMore(cfg, w, steps, 3);
  }

  /**
   * Two rivals are staged, the second is deleted, the first terminated.  Every step is
   * benign, both sessions are gone, and yet the used bytes hold the first upload and its
   * node, no longer flagged, points at a blob nobody wrote.
   */
  lemma ContestedRun(cfg: Config, w: World, x: SessionId, y: SessionId, a: Answers, b: Answers, actor: string)
    requires Rivals(cfg, w, x, y)
    requires CallsSucceed(cfg, w, x, w.store[x].info, a) && CallsSucceed(cfg, w, y, w.store[y].info, a)
    requires a.publish && a.unmark && b.rollback && b.unmark
    ensures
      var steps := [FinishTus(x, a), FinishTus(y, a), PostprocessingFinished(y, "", Delete, actor, b), Terminate(x, b)];
      var n, w' := w.store[x].info.nodeId, Run(cfg, w, steps);
      && BenignRun(cfg, w, steps)
      && w'.store == w.store - {x, y}
      && w'.used == w.used + w.store[x].info.size - w.nodes[n].cur.size
      && w'.nodes - {n} == w.nodes - {n} && n in w'.nodes && w'.blobs == w.blobs
      && w'.nodes[n] == Node(Version(Some(x), w.store[x].info.size), w.nodes[n].history + [w.nodes[n].cur], None)
      && !Legible(w')
  {
    var steps := [FinishTus(x, a), FinishTus(y, a), PostprocessingFinished(y, "", Delete, actor, b), Terminate(x, b)];
    RivalsEnd(cfg, w, x, y, a, b, actor);
    RunFour(cfg, w, steps);
    var n, w4 := w.store[x].info.nodeId, Run(cfg, w, steps);
    assert !Readable(w4, w4.nodes[n]);
  }

  /** In the end the used bytes are off by exactly what the first upload added to the node. */
  lemma ContestedCharge(cfg: Config, w: World, x: SessionId, y: SessionId, a: Answers, b: Answers, actor: string)
    requires Rivals(cfg, w, x, y)
    requires CallsSucceed(cfg, w, x, w.store[x].info, a) && CallsSucceed(cfg, w, y, w.store[y].info, a)
    requires a.publish && a.unmark && b.rollback && b.unmark
    requires Accounted(w) && Legible(w) && forall n :: n in w.nodes ==> Honest(w, w.nodes[n])
    ensures
      var steps := [FinishTus(x, a), FinishTus(y, a), PostprocessingFinished(y, "", Delete, actor, b), Terminate(x, b)];
      var w', node := Run(cfg, w, steps), w.nodes[w.store[x].info.nodeId];
      w'.used == CommittedBytes(w', w'.nodes) + Outstanding(w'.nodes, w'.store) + w.store[x].info.size - node.cur.size
  {
    var steps := [FinishTus(x, a), FinishTus(y, a), PostprocessingFinished(y, "", Delete, actor, b), Terminate(x, b)];
    ContestedRun(cfg, w, x, y, a, b, actor);
    Conservation(cfg, w, steps);
    ChargeAt(w, Run(cfg, w, steps), x, w.store[x].info.nodeId, w.store[x].info.size);
  }

  lemma ChargeAt(w: World, w': World, x: SessionId, n: NodeId, size: Size)
    requires Accounted(w') && w'.blobs == w.blobs && x !in w.blobs && n in w.nodes && w.nodes[n].owner.None?
    requires Legible(w) && forall m :: m in w.nodes ==> Honest(w, w.nodes[m])
    requires w'.nodes - {n} == w.nodes - {n} && n in w'.nodes
    requires w'.nodes[n] == Node(Version(Some(x), size), w.nodes[n].history + [w.nodes[n].cur], None)
    ensures w'.used == CommittedBytes(w', w'.nodes) + Outstanding(w'.nodes, w'.store) + size - w.nodes[n].cur.size
  {
    forall m | m in w'.nodes && m != n
      ensures Readable(w', w'.nodes[m]) && Honest(w', w'.nodes[m])
    {
      assert m in w'.nodes - {n} && w'.nodes[m] == w.nodes[m] && Readable(w, w.nodes[m]) && Honest(w, w.nodes[m]);
    }
    OneNodeDecides(w', n);
    assert Readable(w', w.nodes[n]);
    NewestOfSnapshot(w', w.nodes[n]);
  }

  // ---------------------------------------------------------------- a run from scratch

  lemma {:induction false} RunThen(cfg: Config, w: World, steps: seq<Step>, more: seq<Step>)
    ensures Run(cfg, w, steps + more) == Run(cfg, Run(cfg, w, steps), more)
    ensures BenignRun(cfg, w, steps + more) <==> BenignRun(cfg, w, steps) && BenignRun(cfg, Run(cfg, w, steps), more)
  {
    if more == [] {
      assert steps + more == steps;
    } else {
      var k := |more| - 1;
      RunThen(cfg, w, steps, more[..k]);
      assert (steps + more)[..|steps + more| - 1] == steps + more[..k];
    }
  }

  /** An environment in which every call succeeds. */
  function AllSucceeds(): Answers {
    Answers(true, None, 0, "", None, None, None, true, true, true, [], true, true, true)
  }

  /** The record of an overwrite of n without checksum, time or precondition. */
  predicate Plain(info: Info, n: NodeId) {
    && info.nodeId == n && info.existed && info.size > 0
    && info.checksum == "" && info.mtime == "" && !info.sinceMalformed
    && info.sizeDiff == "" && info.versionCreated == "" && info.scanDate.None? && info.sums.None?
  }

  function TwoRivals(x: SessionId, ix: Info, y: SessionId, iy: Info): seq<Step> {
    [Initiate(x, ix, AllSucceeds()), Initiate(y, iy, AllSucceeds())]
  }

  /** Initiating two uploads over one existing node makes them rivals. */
  lemma RivalsArise(cfg: Config, w: World, n: NodeId, x: SessionId, ix: Info, y: SessionId, iy: Info)
    requires cfg.async && cfg.publisher && n in w.nodes && w.nodes[n].owner.None? && Plain(ix, n) && Plain(iy, n)
    requires x != y && x !in w.minted + w.blobs.Keys + {n} && y !in w.minted + w.blobs.Keys + {n}
    ensures
      var w' := Run(cfg, w, TwoRivals(x, ix, y, iy));
      && Rivals(cfg, w', x, y) && BenignRun(cfg, w, TwoRivals(x, ix, y, iy))
      && w'.nodes == w.nodes && w'.blobs == w.blobs && w'.used == w.used
      && w'.store == w.store[x := Stored(ix, [])][y := Stored(iy, [])]
  {
    var steps := TwoRivals(x, ix, y, iy);
    assert steps[..2] == steps && steps[..0] == [];
    RunOneMore(cfg, w, steps, 0);
    RunOneMore(cfg, w, steps, 1);
  }
}
