/**
 * Restarting an upload whose node was reverted.  The bytes are kept for it, but a restart
 * only publishes BytesReceived again; nothing prepares the node a second time.
 */
module Restarts {
  import opened Base
  import opened Lifecycle
  import opened Frames
  import opened Quota
  import opened Verdicts
  import opened Retry
  import opened AllOrNothing

  /**
   * Restarting an aborted overwrite does not bring it back: the abort reverted the node,
   * nothing prepares it again, and the Continue that follows retires the session and
   * announces success while the node keeps its old content.
   */
  lemma RestartLosesOverwrite(cfg: Config, w: World, id: SessionId, a: Answers, b: Answers, c: Answers, actor: string)
    requires AllBacked(w) && id in w.store && w.store[id].info.existed && w.Owns(id, w.store[id].info.nodeId)
    requires cfg.publisher && a.rollback && a.unmark
    requires Attempts(cfg) > 0 && c.CommitOk(0)
    ensures
      var n := w.store[id].info.nodeId;
      var node := w.nodes[n];
      var w1 := Next(cfg, w, PostprocessingFinished(id, "", Abort, actor, a));
      var w2 := Next(cfg, w1, RestartPostprocessing(id, b));
      var w3 := Next(cfg, w2, PostprocessingFinished(id, "", Continue, actor, c));
      && id !in w3.store
      && w3.trace.Then? && w3.trace.entry.Ready? && w3.trace.entry.notice.id == id && !w3.trace.entry.notice.failed
      && n in w3.nodes && node.history != [] && w3.nodes[n].cur == node.history[|node.history| - 1]
  {
    var info := w.store[id].info;
    var n := info.nodeId;
    assert Backed(w, n, id);
    var w1 := Next(cfg, w, PostprocessingFinished(id, "", Abort, actor, a));
    assert w1.store == w.store && n in w1.nodes && w1.nodes[n].owner.None?;
    var w2 := Next(cfg, w1, RestartPostprocessing(id, b));
    assert w2.store == w.store && w2.nodes == w1.nodes;
    var r := CommitOnce(cfg, w2, id, info, true, c);
    assert r.ok && FinishAsync(cfg, w2, id, info, c) == r;
  }

  // ---------------------------------------------------------------- what a session is about

  /** Nodes and session records can only go. */
  ghost predicate Shrinks(w: World, w': World) {
    && w'.nodes.Keys <= w.nodes.Keys && w.minted <= w'.minted
    && forall s :: s in w'.store ==> s in w.store && w'.store[s] == w.store[s]
  }

  lemma UndoShrinks(w: World, id: SessionId, info: Info, diff: int, a: Answers)
    ensures Shrinks(w, Discard(w, id, info, diff, a)) && Shrinks(w, Revert(w, id, info, a))
  {
  }

  lemma CommitShrinks(cfg: Config, w: World, id: SessionId, info: Info, ok: bool, a: Answers)
    ensures Shrinks(w, CommitOnce(cfg, w, id, info, ok, a).world)
  {
  }

  lemma {:induction false} RetryShrinks(cfg: Config, w: World, id: SessionId, info: Info, k: nat, n: nat, a: Answers)
    requires k < n
    ensures Shrinks(w, CommitRetry(cfg, w, id, info, k, n, a).world)
    decreases n - k
  {
    CommitShrinks(cfg, w, id, info, a.CommitOk(k), a);
    var r := CommitOnce(cfg, w, id, info, a.CommitOk(k), a);
    if !r.ok && k + 1 < n {
      RetryShrinks(cfg, r.world, id, info, k + 1, n, a);
    }
  }

  lemma HandOverShrinks(cfg: Config, w: World, id: SessionId, info: Info, a: Answers)
    ensures Shrinks(w, HandOver(cfg, w, id, info, a).world)
  {
    CommitShrinks(cfg, w, id, info, a.CommitOk(0), a);
    UndoShrinks(CommitOnce(cfg, w, id, info, a.CommitOk(0), a).world, id, info, info.SizeDiff(), a);
    UndoShrinks(w.Note(BytesReceived(id, info.nodeId, a.publish)), id, info, info.SizeDiff(), a);
  }

  lemma VerdictShrinks(cfg: Config, w: World, id: SessionId, verdict: Verdict, actor: string, a: Answers)
    requires id in w.store
    ensures Shrinks(w, VerdictStep(cfg, w, id, verdict, actor, a))
  {
    var info := w.store[id].info;
    UndoShrinks(w, id, info, info.SizeDiff(), a);
    if verdict.Continue? && Attempts(cfg) > 0 {
      RetryShrinks(cfg, w, id, info, 0, Attempts(cfg), a);
      UndoShrinks(FinishAsync(cfg, w, id, info, a).world, id, info, 0, a);
    }
  }

  /** The node the record is about, and whether it was there before. */
  predicate SameTarget(i: Info, j: Info) {
    i.nodeId == j.nodeId && i.existed == j.existed
  }

  /** A prepared upload knows whether it replaced a version. */
  predicate Labelled(i: Info) {
    i.Prepared() ==> (i.VersionCreated() <==> i.existed)
  }

  /**
   * From w, a session that holds info creates at most the new node it is about or a node
   * never seen before, and is about one of these afterwards.
   */
  ghost predicate Aims(w: World, w': World, id: SessionId, info: Info) {
    && w.minted <= w'.minted
    && (forall m :: m in w'.nodes ==> m in w.nodes || m !in w.minted || (m == info.nodeId && !info.existed))
    && (id in w'.store ==>
          var i := w'.store[id].info;
          && i.existed == info.existed && i.nodeId in w'.minted && (i.nodeId == info.nodeId || i.nodeId !in w.minted)
          && (id in w.store && Labelled(w.store[id].info) ==> Labelled(i)))
  }

  lemma PrepareAims(cfg: Config, w: World, id: SessionId, info: Info, a: Answers)
    requires id in w.store
    ensures
      var w' := PrepareStage(cfg, w, id, info, a).world;
      && w.minted <= w'.minted
      && (forall m :: m in w'.nodes ==> m in w.nodes || (m == info.nodeId && !info.existed))
      && (id in w'.store ==>
            || (SameTarget(w'.store[id].info, info) && info.nodeId in w'.minted && Labelled(w'.store[id].info))
            || w'.store[id] == w.store[id])
  {
    var w1, diff := PrepareNode(w, id, info), NewDiff(w, info);
    UndoShrinks(w1, id, info.WithOwner(a.preparedOwner).Record(diff, info.existed), diff, a);
  }

  lemma StageAims(cfg: Config, w: World, id: SessionId, info: Info, a: Answers)
    requires id in w.store && SameTarget(w.store[id].info, info) && info.nodeId in w.minted
    ensures Aims(w, Stage(cfg, w, id, info, a).world, id, info)
  {
    var body := w.store[id].bytes;
    if RefusalOf(cfg, info, body, a).None? {
      var w0, info0 := w.Note(Verified(id, body, info.checksum)), info.(sums := Some(AllSums(cfg, body)));
      var r := TouchNode(cfg, w0, id, info0, a);
      if r.Done? {
        PrepareAims(cfg, r.world, id, r.info, a);
      }
    }
  }

  lemma FinishAims(cfg: Config, w: World, id: SessionId, info: Info, a: Answers)
    requires id in w.store && SameTarget(w.store[id].info, info) && info.nodeId in w.minted
    ensures Aims(w, Finish(cfg, w, id, info, a).world, id, info)
  {
    StageAims(cfg, w, id, info, a);
    var r := Stage(cfg, w, id, info, a);
    if r.Done? {
      HandOverShrinks(cfg, r.world, id, r.info, a);
    }
  }

  // ---------------------------------------------------------------- new files claim their node alone

  /** No two sessions for new files are about the same node. */
  ghost predicate Sole(w: World) {
    && (forall s :: s in w.store ==> w.store[s].info.nodeId in w.minted)
    && (forall s, t :: s in w.store && t in w.store && s != t && !w.store[s].info.existed && !w.store[t].info.existed ==>
          w.store[s].info.nodeId != w.store[t].info.nodeId)
  }

  lemma InitiateAims(cfg: Config, w: World, step: Step)
    requires step.Initiate? && Fresh(w, step.id, step.info) && step.a.register
    ensures
      var w' := Next(cfg, w, step);
      && (forall m :: m in w'.nodes ==> m in w.nodes || m !in w.minted)
      && (step.id in w'.store ==>
            var i := w'.store[step.id].info;
            && i.nodeId in w'.minted && (i.existed || i.nodeId !in w.minted) && (i.nodeId !in w.nodes ==> i.nodeId !in w.minted)
            && Labelled(i))
  {
    var w1 := Registered(w, step.id, step.info);
    if step.info.size == 0 {
      FinishAims(cfg, w1, step.id, step.info, step.a);
    }
  }

  /** A step of a stored session. */
  lemma NextAims(cfg: Config, w: World, step: Step)
    requires !step.Initiate? && step.id in w.store && w.store[step.id].info.nodeId in w.minted
    ensures
      var w' := Next(cfg, w, step);
      Aims(w, w', step.id, w.store[step.id].info) && (!Finishes(w, step) ==> w'.nodes.Keys <= w.nodes.Keys)
    ensures
      var w' := Next(cfg, w, step);
      !Finishes(w, step) && step.id in w'.store ==> w'.store[step.id].info.nodeId == w.store[step.id].info.nodeId
  {
    var id, info := step.id, w.store[step.id].info;
    match step
    case Put(_, received, _, _, a) =>
      if Finishes(w, step) {
        FinishAims(cfg, AppendTo(w, id, received), id, info, a);
      }
    case FinishTus(_, a) => FinishAims(cfg, w, id, info, a);
    case Terminate(_, a) => UndoShrinks(w, id, info, info.SizeDiff(), a);
    case PostprocessingFinished(_, _, verdict, actor, a) => VerdictShrinks(cfg, w, id, verdict, actor, a);
    case CleanUpload(_, _, a) => UndoShrinks(w, id, info, info.SizeDiff(), a);
    case _ =>
  }

  lemma NextSole(cfg: Config, w: World, step: Step)
    requires Sole(w)
    ensures Sole(Next(cfg, w, step))
  {
    var id := step.id;
    OtherSessions(cfg, w, step);
    if step.Initiate? {
      if Fresh(w, id, step.info) && step.a.register {
        InitiateAims(cfg, w, step);
      }
    } else if id in w.store {
      NextAims(cfg, w, step);
    }
  }

  lemma {:induction false} SoleRun(cfg: Config, w: World, steps: seq<Step>)
    requires Sole(w)
    ensures Sole(Run(cfg, w, steps))
  {
    if steps == [] {
    } else {
      var k := |steps| - 1;
      SoleRun(cfg, w, steps[..k]);
      NextSole(cfg, Run(cfg, w, steps[..k]), steps[k]);
    }
  }

  ghost predicate AllLabelled(w: World) {
    forall s :: s in w.store ==> Labelled(w.store[s].info)
  }

  lemma NextLabelled(cfg: Config, w: World, step: Step)
    requires AllLabelled(w) && Sole(w)
    ensures AllLabelled(Next(cfg, w, step))
  {
    OtherSessions(cfg, w, step);
    if step.Initiate? {
      if Fresh(w, step.id, step.info) && step.a.register {
        InitiateAims(cfg, w, step);
      }
    } else if step.id in w.store {
      NextAims(cfg, w, step);
    }
  }

  /** Over every run each prepared upload knows whether it replaced a version. */
  lemma {:induction false} LabelledRun(cfg: Config, w: World, steps: seq<Step>)
    requires AllLabelled(w) && Sole(w)
    ensures AllLabelled(Run(cfg, w, steps))
  {
    if steps == [] {
    } else {
      var k := |steps| - 1;
      LabelledRun(cfg, w, steps[..k]);
      SoleRun(cfg, w, steps[..k]);
      NextLabelled(cfg, Run(cfg, w, steps[..k]), steps[k]);
    }
  }

  // ---------------------------------------------------------------- an aborted new file

  /** The node of x was purged, and no session for a new file but x is about it. */
  ghost predicate Gone(w: World, x: SessionId, n: NodeId) {
    && n !in w.nodes && n in w.minted && x in w.minted && (x in w.store ==> w.store[x].info.nodeId == n)
    && forall s :: s in w.store && s != x && w.store[s].info.nodeId == n ==> w.store[s].info.existed
  }

  /** x is not finished again. */
  predicate NotFinished(w: World, step: Step, x: SessionId) {
    step.id == x ==> !Finishes(w, step)
  }

  predicate NotFinishedRun(cfg: Config, w: World, steps: seq<Step>, x: SessionId) {
    steps != [] ==>
      var k := |steps| - 1;
      NotFinishedRun(cfg, w, steps[..k], x) && NotFinished(Run(cfg, w, steps[..k]), steps[k], x)
  }

  lemma NextGone(cfg: Config, w: World, step: Step, x: SessionId, n: NodeId)
    requires Gone(w, x, n) && Sole(w) && NotFinished(w, step, x)
    ensures Gone(Next(cfg, w, step), x, n)
  {
    var id := step.id;
    OtherSessions(cfg, w, step);
    if step.Initiate? {
      if Fresh(w, id, step.info) && step.a.register {
        InitiateAims(cfg, w, step);
      }
    } else if id in w.store {
      NextAims(cfg, w, step);
    }
  }

  /** Without its node an upload cannot be committed. */
  lemma {:induction false} NoNodeNoCommit(cfg: Config, w: World, id: SessionId, info: Info, k: nat, n: nat, a: Answers)
    requires k < n && info.nodeId !in w.nodes
    ensures
      var r := CommitRetry(cfg, w, id, info, k, n, a);
      !r.ok && r.world.store == w.store && r.world.nodes == w.nodes && Commits(r.world.trace, id) == Commits(w.trace, id)
    decreases n - k
  {
    var r := CommitOnce(cfg, w, id, info, a.CommitOk(k), a);
    if k + 1 < n {
      NoNodeNoCommit(cfg, r.world, id, info, k + 1, n, a);
    }
  }

  lemma VerdictCommitsNothing(cfg: Config, w: World, id: SessionId, verdict: Verdict, actor: string, a: Answers)
    requires id in w.store && w.store[id].info.nodeId !in w.nodes
    ensures Commits(VerdictStep(cfg, w, id, verdict, actor, a).trace, id) == Commits(w.trace, id)
  {
    var info := w.store[id].info;
    DiscardSilent(w, id, info, info.SizeDiff(), a, id);
    RevertSilent(w, id, info, a, id);
    if verdict.Continue? && Attempts(cfg) > 0 {
      NoNodeNoCommit(cfg, w, id, info, 0, Attempts(cfg), a);
      RevertSilent(FinishAsync(cfg, w, id, info, a).world, id, info, a, id);
    }
  }

  lemma {:induction false} OthersCommitNothing(t: Trace, t': Trace, y: SessionId, x: SessionId)
    requires Only(t, t', y) && x != y
    ensures Commits(t', x) == Commits(t, x)
    decreases t'
  {
    if t' != t {
      OthersCommitNothing(t, t'.before, y, x);
    }
  }

  lemma NextCommitsNothing(cfg: Config, w: World, step: Step, x: SessionId, n: NodeId)
    requires Gone(w, x, n) && NotFinished(w, step, x)
    ensures Commits(Next(cfg, w, step).trace, x) == Commits(w.trace, x)
  {
    if step.id != x {
      NextLocal(cfg, w, step);
      OthersCommitNothing(w.trace, Next(cfg, w, step).trace, step.id, x);
    } else if x in w.store {
      var info := w.store[x].info;
      match step
      case Terminate(_, a) => DiscardSilent(w, x, info, info.SizeDiff(), a, x);
      case PostprocessingFinished(_, _, verdict, actor, a) => VerdictCommitsNothing(cfg, w, x, verdict, actor, a);
      case CleanUpload(_, _, a) =>
        DiscardSilent(w, x, info, info.SizeDiff(), a, x);
        RevertSilent(w, x, info, a, x);
      case _ =>
    }
  }

  lemma {:induction false} StaysGone(cfg: Config, w: World, steps: seq<Step>, x: SessionId, n: NodeId)
    requires Gone(w, x, n) && Sole(w) && NotFinishedRun(cfg, w, steps, x)
    ensures
      var w' := Run(cfg, w, steps);
      Gone(w', x, n) && Commits(w'.trace, x) == Commits(w.trace, x)
  {
    if steps == [] {
    } else {
      var k := |steps| - 1;
      var w1 := Run(cfg, w, steps[..k]);
      StaysGone(cfg, w, steps[..k], x, n);
      SoleRun(cfg, w, steps[..k]);
      NextGone(cfg, w1, steps[k], x, n);
      NextCommitsNothing(cfg, w1, steps[k], x, n);
    }
  }

  /** The events that revert the node and keep the session: abort, anything unknown, retries exhausted, a clean-up that keeps the upload. */
  predicate TakesBack(cfg: Config, step: Step) {
    match step
    case PostprocessingFinished(_, storage, verdict, _, a) =>
      && a.rollback && Serves(cfg, storage) && !verdict.Delete?
      && (verdict.Continue? ==> Attempts(cfg) > 0 && forall k :: 0 <= k < Attempts(cfg) ==> !a.CommitOk(k))
    case CleanUpload(_, keep, a) => a.rollback && keep
    case _ => false
  }

  /** Taking back a new file purges its node and commits nothing. */
  lemma TakenBack(cfg: Config, w: World, step: Step)
    requires TakesBack(cfg, step) && step.id in w.store && step.id !in w.blobs
    requires !w.store[step.id].info.existed && w.Owns(step.id, w.store[step.id].info.nodeId)
    ensures
      var w' := Next(cfg, w, step);
      && w'.store == w.store && w.store[step.id].info.nodeId !in w'.nodes
      && Commits(w'.trace, step.id) == Commits(w.trace, step.id)
  {
    var id, info := step.id, w.store[step.id].info;
    RevertSilent(w, id, info, step.a, id);
    if step.PostprocessingFinished? && step.verdict.Continue? {
      RetryFails(cfg, w, id, info, 0, Attempts(cfg), step.a);
      RetryCounts(cfg, w, id, info, 0, Attempts(cfg), step.a);
      RevertSilent(FinishAsync(cfg, w, id, info, step.a).world, id, info, step.a, id);
    }
  }

  /**
   * A new file fares differently from an overwrite: taking it back purged its node, and over
   * any run in which it is not finished again no restart and no Continue brings the node
   * back or commits the upload.
   */
  lemma RestartKeepsNewFile(cfg: Config, w: World, step: Step, steps: seq<Step>)
    requires Sole(w) && TakesBack(cfg, step) && step.id in w.store && step.id in w.minted && step.id !in w.blobs
    requires !w.store[step.id].info.existed && w.Owns(step.id, w.store[step.id].info.nodeId)
    requires NotFinishedRun(cfg, Next(cfg, w, step), steps, step.id)
    ensures
      var w1 := Next(cfg, w, step);
      var w' := Run(cfg, w1, steps);
      && w1.store == w.store
      && w.store[step.id].info.nodeId !in w'.nodes && Commits(w'.trace, step.id) == Commits(w.trace, step.id)
  {
    NextSole(cfg, w, step);
    TakenBack(cfg, w, step);
    NextLocal(cfg, w, step);
    StaysGone(cfg, Next(cfg, w, step), steps, step.id, w.store[step.id].info.nodeId);
  }
}
