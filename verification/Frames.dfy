/**
 * What a request or event of one upload can reach.  Whatever it does and whatever fails, it
 * leaves the files of every other session alone, speaks only of its own upload, and takes
 * flags away from others but never gives them any.
 */
module Frames {
  import opened Base
  import opened Lifecycle

  // ---------------------------------------------------------------- traces

  function Subject(e: Entry): SessionId {
    if e.Ready? then e.notice.id else e.id
  }

  /** t' continues t, and all that was added is about id. */
  predicate Only(t: Trace, t': Trace, id: SessionId) {
    t' == t || (t'.Then? && Subject(t'.entry) == id && Only(t, t'.before, id))
  }

  lemma {:induction false} OnlyThen(t: Trace, t1: Trace, t2: Trace, id: SessionId)
    requires Only(t, t1, id) && Only(t1, t2, id)
    ensures Only(t, t2, id)
    decreases t2
  {
    if t1 != t2 {
      OnlyThen(t, t1, t2.before, id);
    }
  }

  /** t' continues t, and no antivirus verdict was saved in between. */
  predicate Unscanned(t: Trace, t': Trace) {
    t' == t || (t'.Then? && !t'.entry.ScanSaved? && Unscanned(t, t'.before))
  }

  lemma {:induction false} UnscannedThen(t: Trace, t1: Trace, t2: Trace)
    requires Unscanned(t, t1) && Unscanned(t1, t2)
    ensures Unscanned(t, t2)
    decreases t2
  {
    if t1 != t2 {
      UnscannedThen(t, t1, t2.before);
    }
  }

  // ---------------------------------------------------------------- other uploads

  ghost predicate Local(w: World, w': World, id: SessionId) {
    && w.minted <= w'.minted
    && w'.store - {id} == w.store - {id}
    && Only(w.trace, w'.trace, id)
    && forall n :: n in w'.nodes && w'.nodes[n].owner.Some? && w'.nodes[n].owner != Some(id) ==>
         n in w.nodes && w.nodes[n].owner == w'.nodes[n].owner
  }

  /** As all requests and events but an antivirus result: no verdict is saved either. */
  ghost predicate Discreet(w: World, w': World, id: SessionId) {
    Local(w, w', id) && Unscanned(w.trace, w'.trace)
  }

  lemma LocalThen(w: World, w1: World, w2: World, id: SessionId)
    requires Discreet(w, w1, id) && Discreet(w1, w2, id)
    ensures Discreet(w, w2, id)
  {
    OnlyThen(w.trace, w1.trace, w2.trace, id);
    UnscannedThen(w.trace, w1.trace, w2.trace);
  }

  lemma RollbackLocal(w: World, id: SessionId, info: Info, diff: int, ok: bool)
    ensures Discreet(w, RollbackUpload(w, id, info, diff, ok), id)
  {
  }

  lemma UnmarkLocal(w: World, id: SessionId, n: NodeId, ok: bool)
    ensures Discreet(w, UnmarkNode(w, id, n, ok), id)
  {
  }

  lemma UndoLocal(w: World, id: SessionId, info: Info, diff: int, a: Answers)
    ensures Discreet(w, Discard(w, id, info, diff, a), id) && Discreet(w, Revert(w, id, info, a), id)
  {
    forall d | d == diff || d == info.SizeDiff()
      ensures Discreet(w, UnmarkNode(RollbackUpload(w, id, info, d, a.rollback), id, info.nodeId, a.unmark), id)
      ensures Discreet(w, RollbackUpload(w, id, info, d, a.rollback), id)
    {
      var w1 := RollbackUpload(w, id, info, d, a.rollback);
      RollbackLocal(w, id, info, d, a.rollback);
      UnmarkLocal(w1, id, info.nodeId, a.unmark);
      LocalThen(w, w1, UnmarkNode(w1, id, info.nodeId, a.unmark), id);
    }
  }

  lemma CommitLocal(cfg: Config, w: World, id: SessionId, info: Info, ok: bool, a: Answers)
    ensures
      var r := CommitOnce(cfg, w, id, info, ok, a);
      Discreet(w, r.world, id) && (if r.ok then id !in r.world.store else r.world.store == w.store)
  {
    var r := CommitOnce(cfg, w, id, info, ok, a);
    if r.ok {
      var w1 := w.(blobs := w.blobs[id := w.store[id].bytes])
                 .Note(Commit(id, info.nodeId, w.store[id].bytes, info.size, info.ScanData(), true));
      var w2 := UnmarkNode(w1, id, info.nodeId, a.unmark);
      assert Discreet(w, w1, id);
      UnmarkLocal(w1, id, info.nodeId, a.unmark);
      LocalThen(w, w1, w2, id);
      assert Discreet(w2, r.world, id);
      LocalThen(w, w2, r.world, id);
    }
  }

  lemma {:induction false} RetryLocal(cfg: Config, w: World, id: SessionId, info: Info, k: nat, n: nat, a: Answers)
    requires k < n
    ensures
      var r := CommitRetry(cfg, w, id, info, k, n, a);
      Discreet(w, r.world, id) && (if r.ok then id !in r.world.store else r.world.store == w.store)
    decreases n - k
  {
    CommitLocal(cfg, w, id, info, a.CommitOk(k), a);
    var r := CommitOnce(cfg, w, id, info, a.CommitOk(k), a);
    if !r.ok && k + 1 < n {
      RetryLocal(cfg, r.world, id, info, k + 1, n, a);
      LocalThen(w, r.world, CommitRetry(cfg, r.world, id, info, k + 1, n, a).world, id);
    }
  }

  lemma PrepareLocal(cfg: Config, w: World, id: SessionId, info: Info, a: Answers)
    requires id in w.store
    ensures Discreet(w, PrepareStage(cfg, w, id, info, a).world, id)
  {
    var diff, w1 := NewDiff(w, info), PrepareNode(w, id, info);
    var info1 := info.WithOwner(a.preparedOwner).Record(diff, info.existed);
    assert Discreet(w, w1, id);
    UndoLocal(w1, id, info1, diff, a);
    LocalThen(w, w1, Discard(w1, id, info1, diff, a), id);
  }

  lemma StageLocal(cfg: Config, w: World, id: SessionId, info: Info, a: Answers)
    requires id in w.store
    ensures Discreet(w, Stage(cfg, w, id, info, a).world, id)
  {
    if RefusalOf(cfg, info, w.store[id].bytes, a).None? {
      var w0 := w.Note(Verified(id, w.store[id].bytes, info.checksum));
      var r := TouchNode(cfg, w0, id, info.(sums := Some(AllSums(cfg, w.store[id].bytes))), a);
      assert Discreet(w, r.world, id);
      if r.Done? {
        PrepareLocal(cfg, r.world, id, r.info, a);
        LocalThen(w, r.world, Stage(cfg, w, id, info, a).world, id);
      }
    }
  }

  lemma HandOverLocal(cfg: Config, w: World, id: SessionId, info: Info, a: Answers)
    ensures Discreet(w, HandOver(cfg, w, id, info, a).world, id)
  {
    var w1 := w.Note(BytesReceived(id, info.nodeId, a.publish));
    if !Defers(cfg, info) {
      CommitLocal(cfg, w, id, info, a.CommitOk(0), a);
      w1 := CommitOnce(cfg, w, id, info, a.CommitOk(0), a).world;
    }
    assert Discreet(w, w1, id);
    UndoLocal(w1, id, info, info.SizeDiff(), a);
    LocalThen(w, w1, Discard(w1, id, info, info.SizeDiff(), a), id);
  }

  lemma FinishLocal(cfg: Config, w: World, id: SessionId, info: Info, a: Answers)
    requires id in w.store
    ensures Discreet(w, Finish(cfg, w, id, info, a).world, id)
  {
    StageLocal(cfg, w, id, info, a);
    var r := Stage(cfg, w, id, info, a);
    if r.Done? {
      HandOverLocal(cfg, r.world, id, r.info, a);
      LocalThen(w, r.world, HandOver(cfg, r.world, id, r.info, a).world, id);
    }
  }

  lemma AnnounceLocal(cfg: Config, w: World, w': World, id: SessionId, info: Info, actor: string, ok: bool)
    requires Discreet(w, w', id)
    ensures Discreet(w, Announce(cfg, w', NoticeOf(id, info, true, actor), ok), id)
  {
  }

  lemma VerdictLocal(cfg: Config, w: World, id: SessionId, verdict: Verdict, actor: string, a: Answers)
    requires id in w.store
    ensures Discreet(w, VerdictStep(cfg, w, id, verdict, actor, a), id)
  {
    var info := w.store[id].info;
    UndoLocal(w, id, info, info.SizeDiff(), a);
    match verdict
    case Continue =>
      if Attempts(cfg) > 0 {
        RetryLocal(cfg, w, id, info, 0, Attempts(cfg), a);
        var r := FinishAsync(cfg, w, id, info, a);
        UndoLocal(r.world, id, info, 0, a);
        LocalThen(w, r.world, Revert(r.world, id, info, a), id);
        AnnounceLocal(cfg, w, Revert(r.world, id, info, a), id, info, actor, a.ready);
      }
    case Delete => AnnounceLocal(cfg, w, Discard(w, id, info, info.SizeDiff(), a), id, info, actor, a.ready);
    case _ => AnnounceLocal(cfg, w, Revert(w, id, info, a), id, info, actor, a.ready);
  }

  lemma InitiateLocal(cfg: Config, w: World, step: Step)
    requires step.Initiate?
    ensures Discreet(w, Next(cfg, w, step), step.id)
  {
    var id := step.id;
    if Fresh(w, id, step.info) && step.a.register {
      var w1 := Registered(w, id, step.info);
      assert Discreet(w, w1, id);
      FinishLocal(cfg, w1, id, step.info, step.a);
      LocalThen(w, w1, Finish(cfg, w1, id, step.info, step.a).world, id);
    }
  }

  lemma PutLocal(cfg: Config, w: World, step: Step)
    requires step.Put? && step.id in w.store
    ensures Discreet(w, Next(cfg, w, step), step.id)
  {
    var id, w1 := step.id, AppendTo(w, step.id, step.received);
    assert Discreet(w, w1, id);
    FinishLocal(cfg, w1, id, w1.store[id].info, step.a);
    LocalThen(w, w1, Finish(cfg, w1, id, w1.store[id].info, step.a).world, id);
  }

  /** Every step is local to its session, whatever fails. */
  lemma NextLocal(cfg: Config, w: World, step: Step)
    ensures Local(w, Next(cfg, w, step), step.id)
    ensures !step.StepFinished? ==> Unscanned(w.trace, Next(cfg, w, step).trace)
    ensures step.id in Next(cfg, w, step).store ==> step.id in w.store || step.id !in w.minted
  {
    var id := step.id;
    if step.Initiate? {
      InitiateLocal(cfg, w, step);
    } else if id in w.store {
      var info := w.store[id].info;
      if step.Put? {
        PutLocal(cfg, w, step);
      } else if step.FinishTus? {
        FinishLocal(cfg, w, id, info, step.a);
      } else if step.PostprocessingFinished? {
        VerdictLocal(cfg, w, id, step.verdict, step.actor, step.a);
      } else if step.Terminate? || step.CleanUpload? {
        UndoLocal(w, id, info, info.SizeDiff(), step.a);
      }
    }
  }

  /** The session of another upload is there as before. */
  lemma OtherSession(cfg: Config, w: World, step: Step, x: SessionId)
    requires x != step.id
    ensures
      var w' := Next(cfg, w, step);
      Local(w, w', step.id) && (x in w'.store <==> x in w.store) && (x in w.store ==> w'.store[x] == w.store[x])
  {
    var w' := Next(cfg, w, step);
    NextLocal(cfg, w, step);
    assert x in w'.store <==> x in w'.store - {step.id};
    assert x in w.store ==> (w.store - {step.id})[x] == w.store[x] == w'.store[x];
  }

  lemma OtherSessions(cfg: Config, w: World, step: Step)
    ensures
      var w' := Next(cfg, w, step);
      && Local(w, w', step.id)
      && (forall s :: s in w'.store && s != step.id ==> s in w.store && w'.store[s] == w.store[s])
  {
    NextLocal(cfg, w, step);
    var w' := Next(cfg, w, step);
    forall s | s in w'.store && s != step.id
      ensures s in w.store && w'.store[s] == w.store[s]
    {
      OtherSession(cfg, w, step, s);
    }
  }
}
