/**
 * Declared and received lengths.  The accounts are in declared lengths and nothing compares
 * them with what arrived; where the two agree at every finish, every version accounts for
 * exactly the bytes its blob has.
 */
module Lengths {
  import opened Base
  import opened Lifecycle
  import opened Frames
  import opened Success
  import opened Quota
  import opened Verdicts
  import opened Rollbacks

  // ---------------------------------------------------------------- the invariant

  /** The version accounts for the bytes it has, or will have once its upload is committed. */
  predicate Fits(w: World, v: Version) {
    v.blob.Some? ==>
      var b := v.blob.value;
      && b in w.minted
      && (b in w.blobs ==> |w.blobs[b]| == v.size)
      && (b in w.store ==> |w.store[b].bytes| == v.size && Recorded(w.trace, b).Some?)
  }

  predicate Measures(w: World, node: Node) {
    Fits(w, node.cur) && forall i :: 0 <= i < |node.history| ==> Fits(w, node.history[i])
  }

  ghost predicate Measured(w: World) {
    forall n :: n in w.nodes ==> Measures(w, w.nodes[n])
  }

  /** What is finished has its declared length, and nothing arrives for an upload that was prepared. */
  predicate Complete(w: World, step: Step) {
    && (Finishes(w, step) ==>
          |if step.Put? then step.received else w.store[step.id].bytes| == w.store[step.id].info.size)
    && ((step.Append? || step.Put?) && step.received != [] ==> Recorded(w.trace, step.id).None?)
  }

  predicate CompleteRun(cfg: Config, w: World, steps: seq<Step>) {
    steps != [] ==>
      var k := |steps| - 1;
      CompleteRun(cfg, w, steps[..k]) && Complete(Run(cfg, w, steps[..k]), steps[k])
  }

  // ---------------------------------------------------------------- each transition

  /** What was prepared stays on record. */
  lemma {:induction false} StaysRecorded(t: Trace, t': Trace, y: SessionId, x: SessionId)
    requires Only(t, t', y) && Recorded(t, x).Some?
    ensures Recorded(t', x).Some?
    decreases t'
  {
    if t' != t {
      StaysRecorded(t, t'.before, y, x);
    }
  }

  /** No new content: what a rollback, an unmark or a commit makes of a node. */
  predicate NodeFrom(node: Node, node': Node) {
    && node'.history <= node.history
    && (node'.cur == node.cur || (node.history != [] && node'.cur == node.history[|node.history| - 1]))
  }

  /** From w to w' session id only takes away, or commits its staged bytes. */
  ghost predicate TakesAway(w: World, w': World, id: SessionId) {
    && Local(w, w', id)
    && (forall n :: n in w'.nodes ==> n in w.nodes && NodeFrom(w.nodes[n], w'.nodes[n]))
    && (forall s :: s in w'.store ==> s in w.store && w'.store[s].bytes == w.store[s].bytes)
    && (forall b :: b in w'.blobs ==>
          || (b in w.blobs && w'.blobs[b] == w.blobs[b])
          || (b in w.store && w'.blobs[b] == w.store[b].bytes))
  }

  lemma FitsStill(w: World, w': World, id: SessionId, v: Version)
    requires TakesAway(w, w', id) && Fits(w, v)
    ensures Fits(w', v)
  {
    if v.blob.Some? && v.blob.value in w'.store {
      StaysRecorded(w.trace, w'.trace, id, v.blob.value);
    }
  }

  lemma TakingAwayMeasured(w: World, w': World, id: SessionId)
    requires Measured(w) && TakesAway(w, w', id)
    ensures Measured(w')
  {
    forall n | n in w'.nodes
      ensures Measures(w', w'.nodes[n])
    {
      var node, node' := w.nodes[n], w'.nodes[n];
      assert Measures(w, node) && NodeFrom(node, node');
      FitsStill(w, w', id, node'.cur);
      forall i | 0 <= i < |node'.history|
        ensures Fits(w', node'.history[i])
      {
        assert node'.history[i] == node.history[i];
        FitsStill(w, w', id, node.history[i]);
      }
    }
  }

  lemma UndoMeasured(w: World, id: SessionId, info: Info, diff: int, a: Answers)
    requires Measured(w)
    ensures Measured(Discard(w, id, info, diff, a)) && Measured(Revert(w, id, info, a))
  {
    var w1, w2 := RollbackUpload(w, id, info, diff, a.rollback), RollbackUpload(w, id, info, info.SizeDiff(), a.rollback);
    RollbackMeasured(w, id, info, diff, a.rollback);
    RollbackMeasured(w, id, info, info.SizeDiff(), a.rollback);
    UnmarkMeasured(w1, id, info.nodeId, a.unmark);
    UnmarkMeasured(w2, id, info.nodeId, a.unmark);
    if a.rollback {
      var w' := UnmarkNode(w1, id, info.nodeId, a.unmark);
      TakingAwayMeasured(w', w'.Drop(id), id);
    }
  }

  lemma RollbackMeasured(w: World, id: SessionId, info: Info, diff: int, ok: bool)
    requires Measured(w)
    ensures Measured(RollbackUpload(w, id, info, diff, ok))
  {
    RollbackLocal(w, id, info, diff, ok);
    TakingAwayMeasured(w, RollbackUpload(w, id, info, diff, ok), id);
  }

  lemma UnmarkMeasured(w: World, id: SessionId, n: NodeId, ok: bool)
    requires Measured(w)
    ensures Measured(UnmarkNode(w, id, n, ok))
  {
    UnmarkLocal(w, id, n, ok);
    TakingAwayMeasured(w, UnmarkNode(w, id, n, ok), id);
  }

  lemma CommitNodes(cfg: Config, w: World, id: SessionId, info: Info, ok: bool, a: Answers)
    ensures
      var w' := CommitOnce(cfg, w, id, info, ok, a).world;
      forall n :: n in w'.nodes ==> n in w.nodes && NodeFrom(w.nodes[n], w'.nodes[n])
  {
  }

  lemma CommitBlobs(cfg: Config, w: World, id: SessionId, info: Info, ok: bool, a: Answers)
    ensures
      var w' := CommitOnce(cfg, w, id, info, ok, a).world;
      && (forall s :: s in w'.store ==> s in w.store && w'.store[s].bytes == w.store[s].bytes)
      && (forall b :: b in w'.blobs ==> (b in w.blobs && w'.blobs[b] == w.blobs[b]) || (b in w.store && w'.blobs[b] == w.store[b].bytes))
  {
    if id in w.store {
      CommitTrace(cfg, w, id, info, ok, a);
    }
  }

  lemma CommitMeasured(cfg: Config, w: World, id: SessionId, info: Info, ok: bool, a: Answers)
    requires Measured(w)
    ensures Measured(CommitOnce(cfg, w, id, info, ok, a).world)
  {
    CommitLocal(cfg, w, id, info, ok, a);
    CommitNodes(cfg, w, id, info, ok, a);
    CommitBlobs(cfg, w, id, info, ok, a);
    TakingAwayMeasured(w, CommitOnce(cfg, w, id, info, ok, a).world, id);
  }

  lemma {:induction false} RetryMeasured(cfg: Config, w: World, id: SessionId, info: Info, k: nat, n: nat, a: Answers)
    requires Measured(w) && k < n
    ensures Measured(CommitRetry(cfg, w, id, info, k, n, a).world)
    decreases n - k
  {
    CommitMeasured(cfg, w, id, info, a.CommitOk(k), a);
    var r := CommitOnce(cfg, w, id, info, a.CommitOk(k), a);
    if !r.ok && k + 1 < n {
      RetryMeasured(cfg, r.world, id, info, k + 1, n, a);
    }
  }

  /** The session about to be prepared has received what it declared. */
  predicate Ripe(w: World, id: SessionId, info: Info) {
    id in w.store && id in w.minted && id !in w.blobs && |w.store[id].bytes| == info.size
  }

  lemma PreparedMeasured(w: World, id: SessionId, info: Info)
    requires Measured(w) && Ripe(w, id, info)
    ensures Measured(PrepareNode(w, id, info))
  {
    var n, w' := info.nodeId, PrepareNode(w, id, info);
    assert forall v :: Fits(w, v) ==> Fits(w', v);
    assert Fits(w', Version(Some(id), info.size));
    forall m | m in w'.nodes
      ensures Measures(w', w'.nodes[m])
    {
      assert m in w.nodes ==> Measures(w, w.nodes[m]);
    }
  }

  /** A record rewritten, its bytes kept. */
  lemma RewrittenMeasured(w: World, id: SessionId, info: Info)
    requires Measured(w) && id in w.store
    ensures Measured(w.(store := w.store[id := w.store[id].(info := info)]))
  {
    var w' := w.(store := w.store[id := w.store[id].(info := info)]);
    forall m | m in w'.nodes
      ensures Measures(w', w'.nodes[m])
    {
      assert Measures(w, w.nodes[m]);
    }
  }

  lemma PrepareMeasured(cfg: Config, w: World, id: SessionId, info: Info, a: Answers)
    requires Measured(w) && Ripe(w, id, info)
    ensures Measured(PrepareStage(cfg, w, id, info, a).world)
  {
    var creates := !info.existed && cfg.prepareCreatesNode;
    if a.prepare.Some? || (info.nodeId !in w.nodes && !creates) {
      TakingAwayMeasured(w, UnprepareNode(w, info).Drop(id), id);
    } else {
      var diff, w1 := NewDiff(w, info), PrepareNode(w, id, info);
      var info1 := info.WithOwner(a.preparedOwner).Record(diff, info.existed);
      PreparedMeasured(w, id, info);
      if a.persist {
        RewrittenMeasured(w1, id, info1);
      } else {
        UndoMeasured(w1, id, info1, diff, a);
      }
    }
  }

  lemma TouchMeasured(cfg: Config, w: World, id: SessionId, info: Info, a: Answers)
    requires Measured(w)
    ensures Measured(TouchNode(cfg, w, id, info, a).world)
  {
    var w' := TouchNode(cfg, w, id, info, a).world;
    forall n | n in w'.nodes
      ensures Measures(w', w'.nodes[n])
    {
      assert n in w.nodes ==> Measures(w, w.nodes[n]);
    }
  }

  lemma NoteMeasured(w: World, e: Entry)
    requires Measured(w)
    ensures Measured(w.Note(e))
  {
    forall n | n in w.nodes
      ensures Measures(w.Note(e), w.nodes[n])
    {
      assert Measures(w, w.nodes[n]);
    }
  }

  lemma StageMeasured(cfg: Config, w: World, id: SessionId, info: Info, a: Answers)
    requires Measured(w) && Ripe(w, id, info)
    ensures Measured(Stage(cfg, w, id, info, a).world)
  {
    var body := w.store[id].bytes;
    if RefusalOf(cfg, info, body, a).Some? {
      TakingAwayMeasured(w, w.Drop(id), id);
    } else {
      var e, info0 := Verified(id, body, info.checksum), info.(sums := Some(AllSums(cfg, body)));
      NoteMeasured(w, e);
      TouchMeasured(cfg, w.Note(e), id, info0, a);
      var r := TouchNode(cfg, w.Note(e), id, info0, a);
      if r.Done? {
        PrepareMeasured(cfg, r.world, id, r.info, a);
      }
    }
  }

  lemma HandOverMeasured(cfg: Config, w: World, id: SessionId, info: Info, a: Answers)
    requires Measured(w)
    ensures Measured(HandOver(cfg, w, id, info, a).world)
  {
    if Defers(cfg, info) {
      var e := BytesReceived(id, info.nodeId, a.publish);
      NoteMeasured(w, e);
      UndoMeasured(w.Note(e), id, info, info.SizeDiff(), a);
    } else {
      CommitMeasured(cfg, w, id, info, a.CommitOk(0), a);
      UndoMeasured(CommitOnce(cfg, w, id, info, a.CommitOk(0), a).world, id, info, info.SizeDiff(), a);
    }
  }

  lemma FinishMeasured(cfg: Config, w: World, id: SessionId, info: Info, a: Answers)
    requires Measured(w) && Ripe(w, id, info)
    ensures Measured(Finish(cfg, w, id, info, a).world)
  {
    StageMeasured(cfg, w, id, info, a);
    var r := Stage(cfg, w, id, info, a);
    if r.Done? {
      HandOverMeasured(cfg, r.world, id, r.info, a);
    }
  }

  lemma VerdictMeasured(cfg: Config, w: World, id: SessionId, verdict: Verdict, actor: string, a: Answers)
    requires Measured(w) && id in w.store
    ensures Measured(VerdictStep(cfg, w, id, verdict, actor, a))
  {
    var info := w.store[id].info;
    var e := Ready(NoticeOf(id, info, true, actor), a.ready);
    var undone := if verdict.Delete? then Discard(w, id, info, info.SizeDiff(), a) else Revert(w, id, info, a);
    UndoMeasured(w, id, info, info.SizeDiff(), a);
    if verdict.Continue? {
      if Attempts(cfg) > 0 {
        RetryMeasured(cfg, w, id, info, 0, Attempts(cfg), a);
        var r := FinishAsync(cfg, w, id, info, a);
        UndoMeasured(r.world, id, info, 0, a);
        NoteMeasured(Revert(r.world, id, info, a), e);
      }
    } else {
      NoteMeasured(undone, e);
    }
  }

  /** Bytes that arrive for an upload that was never prepared. */
  lemma AppendMeasured(w: World, id: SessionId, received: Bytes)
    requires Measured(w) && id in w.store && (received != [] ==> Recorded(w.trace, id).None?)
    ensures Measured(AppendTo(w, id, received))
  {
    var w' := AppendTo(w, id, received);
    assert received == [] ==> w'.store[id].bytes == w.store[id].bytes;
    forall n | n in w'.nodes
      ensures Measures(w', w'.nodes[n])
    {
      assert Measures(w, w.nodes[n]);
    }
  }

  lemma RegisteredMeasured(w: World, id: SessionId, info: Info)
    requires Measured(w) && Fresh(w, id, info)
    ensures Measured(Registered(w, id, info))
  {
    var w' := Registered(w, id, info);
    forall n | n in w'.nodes
      ensures Measures(w', w'.nodes[n])
    {
      assert Measures(w, w.nodes[n]);
    }
  }

  lemma NextMeasured(cfg: Config, w: World, step: Step)
    requires Measured(w) && Told(w, step.id) && Complete(w, step)
    ensures Measured(Next(cfg, w, step))
  {
    var id := step.id;
    if step.Initiate? {
      if Fresh(w, id, step.info) && step.a.register {
        RegisteredMeasured(w, id, step.info);
        if step.info.size == 0 {
          FinishMeasured(cfg, Registered(w, id, step.info), id, step.info, step.a);
        }
      }
    } else if id in w.store {
      var info := w.store[id].info;
      match step
      case Put(_, received, _, _, a) =>
        AppendMeasured(w, id, received);
        if Finishes(w, step) {
          FinishMeasured(cfg, AppendTo(w, id, received), id, info, a);
        }
      case Append(_, received) => AppendMeasured(w, id, received);
      case DeclareLength(_, size, _) => RewrittenMeasured(w, id, info.(size := size));
      case FinishTus(_, a) => FinishMeasured(cfg, w, id, info, a);
      case Terminate(_, a) => UndoMeasured(w, id, info, info.SizeDiff(), a);
      case PostprocessingFinished(_, _, verdict, actor, a) => VerdictMeasured(cfg, w, id, verdict, actor, a);
      case RestartPostprocessing(_, a) => NoteMeasured(w, BytesReceived(id, info.nodeId, a.publish));
      case CleanUpload(_, _, a) => UndoMeasured(w, id, info, info.SizeDiff(), a);
      case StepFinished(_, _, antivirus, a) =>
        if antivirus.Some? {
          ScanMeasured(w, id, antivirus.value, a);
        }
    }
  }

  lemma ScanMeasured(w: World, id: SessionId, r: AntivirusResult, a: Answers)
    requires Measured(w) && id in w.store
    ensures Measured(ScanStep(w, id, r, a))
  {
    var info := w.store[id].info.(scanResult := r.description, scanDate := Some(r.seconds));
    RewrittenMeasured(w, id, info);
    NoteMeasured(w.(store := w.store[id := w.store[id].(info := info)]), ScanSaved(id, Scan(r.description, Some(r.seconds))));
  }

  /** Over any run in which finished uploads have their declared length, every version accounts for the bytes it has. */
  lemma {:induction false} MeasuredRun(cfg: Config, w: World, steps: seq<Step>)
    requires Measured(w) && (forall y :: Told(w, y)) && CompleteRun(cfg, w, steps)
    ensures Measured(Run(cfg, w, steps))
  {
    if steps == [] {
    } else {
      var k := |steps| - 1;
      MeasuredRun(cfg, w, steps[..k]);
      OneVerdict(cfg, w, steps[..k], steps[k].id);
      NextMeasured(cfg, Run(cfg, w, steps[..k]), steps[k]);
    }
  }

  // ---------------------------------------------------------------- a body of another length

  lemma PutFinishes(cfg: Config, w: World, id: SessionId, received: Bytes, a: Answers)
    requires id in w.store && w.store[id].bytes == []
    ensures
      var w1 := AppendTo(w, id, received);
      && w1.store[id] == Stored(w.store[id].info, received)
      && Next(cfg, w, Put(id, received, true, |received|, a)) == Finish(cfg, w1, id, w.store[id].info, a).world
  {
    assert [] + received == received;
  }

  /**
   * A PUT whose body is as long as the request says is finished whatever length was declared
   * for the upload: the node reads as the body but accounts for the declared length, which
   * agree exactly when the body has that length.
   */
  lemma PutOfAnotherLength(cfg: Config, w: World, id: SessionId, received: Bytes, a: Answers)
    requires id in w.store && w.store[id].bytes == []
    requires CallsSucceed(cfg, AppendTo(w, id, received), id, w.store[id].info, a)
    requires !Defers(cfg, w.store[id].info) && a.CommitOk(0) && a.unmark
    ensures
      var info, w' := w.store[id].info, Next(cfg, w, Put(id, received, true, |received|, a));
      var n := TargetNode(cfg, info, a);
      && n in w'.nodes && w'.nodes[n].cur.size == info.size && Content(w', n) == Some(received)
      && (|Content(w', n).value| == w'.nodes[n].cur.size <==> |received| == info.size)
  {
    PutFinishes(cfg, w, id, received, a);
    FinishPublishes(cfg, AppendTo(w, id, received), id, w.store[id].info, a);
  }
}
