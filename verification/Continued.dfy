/**
 * What a Continue shows: over benign runs without contested finishes, the node reads as the
 * upload after a successful commit exactly when the upload has not been released before.
 */
module Continued {
  import opened Base
  import opened Lifecycle
  import opened Success
  import opened Frames
  import opened Quota
  import opened Rollbacks
  import opened AllOrNothing
  import opened Committed
  import opened Bystanders

  // ---------------------------------------------------------------- the invariant

  /** A prepared upload that has not been released still has its node. */
  predicate Retained(w: World, x: SessionId) {
    x in w.store && w.store[x].info.Prepared() && Releases(w.trace, x) == 0 ==> w.Owns(x, w.store[x].info.nodeId)
  }

  lemma UndoRetained(w: World, id: SessionId, info: Info, diff: int, a: Answers)
    requires Retained(w, id) && id in w.store && info.nodeId == w.store[id].info.nodeId
    ensures Retained(Discard(w, id, info, diff, a), id) && Retained(Revert(w, id, info, a), id)
  {
    var d := info.SizeDiff();
    var w1 := RollbackUpload(w, id, info, d, a.rollback);
    assert Releases(UnmarkNode(w1, id, info.nodeId, a.unmark).trace, id) == Releases(w1.trace, id);
  }

  lemma CommitRetained(cfg: Config, w: World, id: SessionId, info: Info, ok: bool, a: Answers)
    requires Retained(w, id)
    ensures
      var r := CommitOnce(cfg, w, id, info, ok, a);
      Retained(r.world, id) && (!r.ok ==> r.world.store == w.store)
  {
  }

  lemma {:induction false} RetryRetained(cfg: Config, w: World, id: SessionId, info: Info, k: nat, n: nat, a: Answers)
    requires Retained(w, id) && k < n
    ensures
      var r := CommitRetry(cfg, w, id, info, k, n, a);
      Retained(r.world, id) && (!r.ok ==> r.world.store == w.store)
    decreases n - k
  {
    CommitRetained(cfg, w, id, info, a.CommitOk(k), a);
    var r := CommitOnce(cfg, w, id, info, a.CommitOk(k), a);
    if !r.ok && k + 1 < n {
      RetryRetained(cfg, r.world, id, info, k + 1, n, a);
    }
  }

  lemma StageRetained(cfg: Config, w: World, id: SessionId, info: Info, a: Answers)
    requires id in w.store && !w.store[id].info.Prepared()
    ensures Retained(Stage(cfg, w, id, info, a).world, id)
  {
  }

  lemma HandOverRetained(cfg: Config, w: World, id: SessionId, info: Info, a: Answers)
    requires Retained(w, id) && id in w.store && w.store[id].info == info
    ensures Retained(HandOver(cfg, w, id, info, a).world, id)
  {
    if Defers(cfg, info) {
      UndoRetained(w.Note(BytesReceived(id, info.nodeId, a.publish)), id, info, info.SizeDiff(), a);
    } else {
      CommitRetained(cfg, w, id, info, a.CommitOk(0), a);
      var r := CommitOnce(cfg, w, id, info, a.CommitOk(0), a);
      if !r.ok {
        UndoRetained(r.world, id, info, info.SizeDiff(), a);
      }
    }
  }

  lemma FinishRetained(cfg: Config, w: World, id: SessionId, info: Info, a: Answers)
    requires id in w.store && !w.store[id].info.Prepared()
    ensures Retained(Finish(cfg, w, id, info, a).world, id)
  {
    StageRetained(cfg, w, id, info, a);
    var r := Stage(cfg, w, id, info, a);
    if r.Done? {
      HandOverRetained(cfg, r.world, id, r.info, a);
    }
  }

  lemma VerdictRetained(cfg: Config, w: World, id: SessionId, verdict: Verdict, actor: string, a: Answers)
    requires Retained(w, id) && id in w.store
    ensures Retained(VerdictStep(cfg, w, id, verdict, actor, a), id)
  {
    var info := w.store[id].info;
    if verdict.Continue? {
      if Attempts(cfg) > 0 {
        RetryRetained(cfg, w, id, info, 0, Attempts(cfg), a);
        var r := FinishAsync(cfg, w, id, info, a);
        if !r.ok {
          UndoRetained(r.world, id, info, 0, a);
        }
      }
    } else {
      UndoRetained(w, id, info, info.SizeDiff(), a);
    }
  }

  lemma OwnRetained(cfg: Config, w: World, step: Step)
    requires Retained(w, step.id) && Benign(w, step)
    ensures Retained(Next(cfg, w, step), step.id)
  {
    var id := step.id;
    if step.Initiate? {
      if Fresh(w, id, step.info) && step.a.register && step.info.size == 0 {
        FinishRetained(cfg, Registered(w, id, step.info), id, step.info, step.a);
      }
    } else if id in w.store {
      var info := w.store[id].info;
      match step
      case Put(_, received, _, _, a) =>
        if Finishes(w, step) {
          FinishRetained(cfg, AppendTo(w, id, received), id, info, a);
        }
      case FinishTus(_, a) => FinishRetained(cfg, w, id, info, a);
      case Terminate(_, a) => UndoRetained(w, id, info, info.SizeDiff(), a);
      case PostprocessingFinished(_, _, verdict, actor, a) => VerdictRetained(cfg, w, id, verdict, actor, a);
      case CleanUpload(_, _, a) => UndoRetained(w, id, info, info.SizeDiff(), a);
      case _ =>
    }
  }

  /** A benign, uncontested step finishes over no node that is flagged. */
  lemma FinishesElsewhere(cfg: Config, w: World, step: Step, x: SessionId, n: NodeId)
    requires Accounted(w) && Benign(w, step) && Uncontested(cfg, w, step) && w.Owns(x, n)
    ensures !FinishesOver(w, step, n)
  {
    if Finishes(w, step) && !w.store[step.id].info.existed {
      assert Alone(w, step.id);
    }
  }

  lemma NextRetained(cfg: Config, w: World, step: Step, x: SessionId)
    requires Retained(w, x) && Accounted(w) && Benign(w, step) && Uncontested(cfg, w, step)
    ensures Retained(Next(cfg, w, step), x)
  {
    if step.id == x {
      OwnRetained(cfg, w, step);
    } else {
      var w' := Next(cfg, w, step);
      OtherSession(cfg, w, step, x);
      OthersSilent(w.trace, w'.trace, step.id, x);
      if x in w.store && w.Owns(x, w.store[x].info.nodeId) {
        FinishesElsewhere(cfg, w, step, x, w.store[x].info.nodeId);
        NextLeaves(cfg, w, step, w.store[x].info.nodeId, x);
      }
    }
  }

  lemma {:induction false} RetainedRun(cfg: Config, w: World, steps: seq<Step>, x: SessionId)
    requires Retained(w, x) && Accounted(w) && BenignRun(cfg, w, steps) && UncontestedRun(cfg, w, steps)
    ensures Retained(Run(cfg, w, steps), x)
  {
    if steps == [] {
    } else {
      var k := |steps| - 1;
      RetainedRun(cfg, w, steps[..k], x);
      Conservation(cfg, w, steps[..k]);
      NextRetained(cfg, Run(cfg, w, steps[..k]), steps[k], x);
    }
  }

  // ---------------------------------------------------------------- what shows

  /** The node is x's exactly when x has not been released. */
  lemma ShowsUnlessReleased(w: World, x: SessionId)
    requires Retained(w, x) && Unreleased(w, x) && Legible(w) && Marked(w)
    requires x in w.store && x !in w.blobs && w.store[x].info.Prepared() && w.store[x].info.nodeId in w.nodes
    ensures w.nodes[w.store[x].info.nodeId].cur.blob == Some(x) <==> Releases(w.trace, x) == 0
  {
    var n := w.store[x].info.nodeId;
    assert Readable(w, w.nodes[n]);
  }

  /**
   * A Continue whose commit succeeds makes the node read as the upload exactly when the
   * upload has not been released; otherwise the node reads as before.
   */
  lemma ContinueShows(cfg: Config, w: World, x: SessionId, actor: string, a: Answers)
    requires Retained(w, x) && Unreleased(w, x) && Legible(w) && Marked(w)
    requires x in w.store && x !in w.blobs && w.store[x].info.Prepared() && w.store[x].info.nodeId in w.nodes
    requires exists k :: 0 <= k < Attempts(cfg) && a.CommitOk(k)
    ensures
      var n, w' := w.store[x].info.nodeId, VerdictStep(cfg, w, x, Continue, actor, a);
      && x !in w'.store && n in w'.nodes
      && (w'.nodes[n].cur.blob == Some(x) <==> Releases(w.trace, x) == 0)
      && Content(w', n) == (if Releases(w.trace, x) == 0 then Some(w.store[x].bytes) else Content(w, n))
  {
    var info := w.store[x].info;
    ShowsUnlessReleased(w, x);
    RetryRefines(cfg, w, x, info, 0, Attempts(cfg), a);
    CommitShows(cfg, w, x, info, a);
  }

  lemma CommitShows(cfg: Config, w: World, x: SessionId, info: Info, a: Answers)
    requires x in w.store && info.nodeId in w.nodes
    ensures
      var n, r := info.nodeId, CommitOnce(cfg, w, x, info, true, a);
      && r.ok && x !in r.world.store && n in r.world.nodes && r.world.nodes[n].cur == w.nodes[n].cur
      && Content(r.world, n) == (if w.nodes[n].cur.blob == Some(x) then Some(w.store[x].bytes) else Content(w, n))
  {
  }
}
