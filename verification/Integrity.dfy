/** End-to-end integrity: what reaches the driver is what was received and checked. */
module Integrity {
  import opened Base
  import opened Lifecycle
  import opened Frames
  import opened Checksums

  /** The body of x that finishUpload last verified. */
  function VerifiedBody(t: Trace, x: SessionId): Option<Bytes> {
    if t.Start? then None
    else if t.entry.Verified? && t.entry.id == x then Some(t.entry.body)
    else VerifiedBody(t.before, x)
  }

  /** A non-empty body was accepted for x. */
  predicate Accepted(t: Trace, x: SessionId) {
    VerifiedBody(t, x).Some? && VerifiedBody(t, x).value != []
  }

  /** Accepted bodies match the announced checksum, and every later commit hands over exactly that body. */
  predicate Faithful(cfg: Config, t: Trace, x: SessionId) {
    t.Then? ==>
      && Faithful(cfg, t.before, x)
      && (t.entry.Verified? && t.entry.id == x ==> Matches(cfg, t.entry.announced, t.entry.body))
      && (t.entry.Commit? && t.entry.id == x && Accepted(t.before, x) ==>
            t.entry.body == VerifiedBody(t.before, x).value)
  }

  ghost predicate Sound(cfg: Config, w: World, x: SessionId) {
    && Faithful(cfg, w.trace, x)
    && (x !in w.minted ==> x !in w.store && VerifiedBody(w.trace, x).None?)
    && (x in w.store && Accepted(w.trace, x) ==>
          w.store[x].bytes == VerifiedBody(w.trace, x).value && Matches(cfg, w.store[x].info.checksum, w.store[x].bytes))
  }

  /** A complete upload is not appended to; tusd answers such a request itself. */
  predicate Settled(w: World, step: Step, x: SessionId) {
    step.Append? && step.id == x ==> !Accepted(w.trace, x)
  }

  /** An entry that is neither a verification nor a commit of x, or an honest one. */
  lemma NoteSound(cfg: Config, w: World, e: Entry, x: SessionId)
    requires Sound(cfg, w, x)
    requires e.Verified? && e.id == x ==>
      x in w.store && e.body == w.store[x].bytes && e.announced == w.store[x].info.checksum && Matches(cfg, e.announced, e.body)
    requires e.Commit? && e.id == x ==> x in w.store && e.body == w.store[x].bytes
    ensures Sound(cfg, w.Note(e), x)
  {
  }

  lemma UndoSound(cfg: Config, w: World, id: SessionId, info: Info, diff: int, a: Answers, x: SessionId)
    requires Sound(cfg, w, x)
    ensures Sound(cfg, Discard(w, id, info, diff, a), x) && Sound(cfg, Revert(w, id, info, a), x)
  {
    var w1, w2 := RollbackUpload(w, id, info, diff, a.rollback), RollbackUpload(w, id, info, info.SizeDiff(), a.rollback);
    assert Faithful(cfg, w1.trace, x) && Faithful(cfg, w2.trace, x);
    var w3, w4 := UnmarkNode(w1, id, info.nodeId, a.unmark), UnmarkNode(w2, id, info.nodeId, a.unmark);
    assert Faithful(cfg, w3.trace, x) && Faithful(cfg, w4.trace, x);
    assert VerifiedBody(w3.trace, x) == VerifiedBody(w.trace, x) && VerifiedBody(w4.trace, x) == VerifiedBody(w.trace, x);
  }

  lemma CommitSound(cfg: Config, w: World, id: SessionId, info: Info, ok: bool, a: Answers, x: SessionId)
    requires Sound(cfg, w, x)
    ensures Sound(cfg, CommitOnce(cfg, w, id, info, ok, a).world, x)
  {
    var r := CommitOnce(cfg, w, id, info, ok, a);
    if id in w.store {
      var e := Commit(id, info.nodeId, w.store[id].bytes, info.size, info.ScanData(), ok && info.nodeId in w.nodes);
      NoteSound(cfg, w, e, x);
      if r.ok {
        var w1 := w.(blobs := w.blobs[id := w.store[id].bytes]).Note(e);
        var w2 := UnmarkNode(w1, id, info.nodeId, a.unmark);
        assert Faithful(cfg, w2.trace, x) && VerifiedBody(w2.trace, x) == VerifiedBody(w.trace, x);
        NoteSound(cfg, w2.Drop(id), Ready(NoticeOf(id, info, false, info.target.executant), a.ready), x);
      }
    }
  }

  lemma {:induction false} RetrySound(cfg: Config, w: World, id: SessionId, info: Info, k: nat, n: nat, a: Answers, x: SessionId)
    requires Sound(cfg, w, x) && k < n
    ensures Sound(cfg, CommitRetry(cfg, w, id, info, k, n, a).world, x)
    decreases n - k
  {
    CommitSound(cfg, w, id, info, a.CommitOk(k), a, x);
    var r := CommitOnce(cfg, w, id, info, a.CommitOk(k), a);
    if !r.ok && k + 1 < n {
      RetrySound(cfg, r.world, id, info, k + 1, n, a, x);
    }
  }

  lemma PrepareSound(cfg: Config, w: World, id: SessionId, info: Info, a: Answers, x: SessionId)
    requires Sound(cfg, w, x) && id in w.store && info.checksum == w.store[id].info.checksum
    ensures Sound(cfg, PrepareStage(cfg, w, id, info, a).world, x)
  {
    var w1, diff := PrepareNode(w, id, info), NewDiff(w, info);
    NoteSound(cfg, w, Prepare(id, info.nodeId, diff), x);
    assert Sound(cfg, w1, x);
    UndoSound(cfg, w1, id, info.WithOwner(a.preparedOwner).Record(diff, info.existed), diff, a, x);
  }

  lemma FinishSound(cfg: Config, w: World, id: SessionId, info: Info, a: Answers, x: SessionId)
    requires Sound(cfg, w, x) && id in w.store && info.checksum == w.store[id].info.checksum
    ensures Sound(cfg, Finish(cfg, w, id, info, a).world, x)
  {
    var body := w.store[id].bytes;
    if RefusalOf(cfg, info, body, a).None? {
      var e := Verified(id, body, info.checksum);
      RefusedExactlyWhen(cfg, info, body, a);
      NoteSound(cfg, w, e, x);
      var r := TouchNode(cfg, w.Note(e), id, info.(sums := Some(AllSums(cfg, body))), a);
      assert Sound(cfg, r.world, x);
      if r.Done? {
        PrepareSound(cfg, r.world, id, r.info, a, x);
        HandOverSound(cfg, w, id, info, a, x);
      }
    }
  }

  /** Past the refusals the verification is on record, and only then a node is touched. */
  lemma VerifiedFirst(cfg: Config, w: World, id: SessionId, info: Info, a: Answers)
    requires id in w.store && RefusalOf(cfg, info, w.store[id].bytes, a).None?
    ensures
      var body := w.store[id].bytes;
      var r := TouchNode(cfg, w.(trace := Then(w.trace, Verified(id, body, info.checksum))), id, info.(sums := Some(AllSums(cfg, body))), a);
      Stage(cfg, w, id, info, a) == if r.Fail? then r else PrepareStage(cfg, r.world, id, r.info, a)
  {
  }

  /** A finish that is not refused verifies the staged bytes against the checksum of the session, before anything else. */
  lemma StageVerifies(cfg: Config, w: World, id: SessionId, info: Info, a: Answers)
    requires id in w.store && RefusalOf(cfg, info, w.store[id].bytes, a).None?
    ensures Only(Then(w.trace, Verified(id, w.store[id].bytes, info.checksum)), Stage(cfg, w, id, info, a).world.trace, id)
    ensures Matches(cfg, info.checksum, w.store[id].bytes)
  {
    var body := w.store[id].bytes;
    RefusedExactlyWhen(cfg, info, body, a);
    VerifiedFirst(cfg, w, id, info, a);
    var w0 := w.Note(Verified(id, body, info.checksum));
    var r := TouchNode(cfg, w0, id, info.(sums := Some(AllSums(cfg, body))), a);
    if r.Done? {
      PrepareLocal(cfg, r.world, id, r.info, a);
    }
  }

  lemma HandOverSound(cfg: Config, w: World, id: SessionId, info: Info, a: Answers, x: SessionId)
    requires id in w.store && Sound(cfg, Stage(cfg, w, id, info, a).world, x)
    ensures Sound(cfg, Finish(cfg, w, id, info, a).world, x)
  {
    var r := Stage(cfg, w, id, info, a);
    if r.Done? {
      if Defers(cfg, r.info) {
        NoteSound(cfg, r.world, BytesReceived(id, r.info.nodeId, a.publish), x);
        UndoSound(cfg, r.world.Note(BytesReceived(id, r.info.nodeId, a.publish)), id, r.info, r.info.SizeDiff(), a, x);
      } else {
        CommitSound(cfg, r.world, id, r.info, a.CommitOk(0), a, x);
        UndoSound(cfg, CommitOnce(cfg, r.world, id, r.info, a.CommitOk(0), a).world, id, r.info, r.info.SizeDiff(), a, x);
      }
    }
  }

  lemma VerdictSound(cfg: Config, w: World, id: SessionId, verdict: Verdict, actor: string, a: Answers, x: SessionId)
    requires Sound(cfg, w, x) && id in w.store
    ensures Sound(cfg, VerdictStep(cfg, w, id, verdict, actor, a), x)
  {
    var info := w.store[id].info;
    var e := Ready(NoticeOf(id, info, true, actor), a.ready);
    UndoSound(cfg, w, id, info, info.SizeDiff(), a, x);
    NoteSound(cfg, Discard(w, id, info, info.SizeDiff(), a), e, x);
    NoteSound(cfg, Revert(w, id, info, a), e, x);
    if verdict.Continue? && Attempts(cfg) > 0 {
      RetrySound(cfg, w, id, info, 0, Attempts(cfg), a, x);
      var r := FinishAsync(cfg, w, id, info, a);
      UndoSound(cfg, r.world, id, info, 0, a, x);
      NoteSound(cfg, Revert(r.world, id, info, a), e, x);
    }
  }

  lemma NextSound(cfg: Config, w: World, step: Step, x: SessionId)
    requires Sound(cfg, w, x) && Settled(w, step, x)
    ensures Sound(cfg, Next(cfg, w, step), x)
  {
    if step.Initiate? {
      if Fresh(w, step.id, step.info) && step.a.register {
        var w1 := Registered(w, step.id, step.info);
        assert Sound(cfg, w1, x);
        FinishSound(cfg, w1, step.id, step.info, step.a, x);
      }
    } else if step.id in w.store {
      var info := w.store[step.id].info;
      match step
      case Put(id, received, complete, length, a) =>
        if w.store[id].bytes == [] {
          var w1 := AppendTo(w, id, received);
          assert Sound(cfg, w1, x);
          FinishSound(cfg, w1, id, w1.store[id].info, a, x);
        }
      case FinishTus(id, a) => FinishSound(cfg, w, id, info, a, x);
      case Terminate(id, a) => UndoSound(cfg, w, id, info, info.SizeDiff(), a, x);
      case PostprocessingFinished(id, _, verdict, actor, a) => VerdictSound(cfg, w, id, verdict, actor, a, x);
      case RestartPostprocessing(id, a) => NoteSound(cfg, w, BytesReceived(id, info.nodeId, a.publish), x);
      case CleanUpload(id, keep, a) => UndoSound(cfg, w, id, info, info.SizeDiff(), a, x);
      case StepFinished(id, _, antivirus, a) =>
        if antivirus.Some? && a.persist {
          var info' := info.(scanResult := antivirus.value.description, scanDate := Some(antivirus.value.seconds));
          NoteSound(cfg, w.(store := w.store[id := w.store[id].(info := info')]), ScanSaved(id, Scan(antivirus.value.description, Some(antivirus.value.seconds))), x);
        }
      case _ =>
    }
  }

  /** Over any run that does not append to the complete upload x, its commits are faithful. */
  lemma {:induction false} EndToEnd(cfg: Config, w: World, steps: seq<Step>, x: SessionId)
    requires Sound(cfg, w, x)
    requires forall k :: 0 <= k < |steps| ==> Settled(Run(cfg, w, steps[..k]), steps[k], x)
    ensures Sound(cfg, Run(cfg, w, steps), x)
  {
    if steps == [] {
    } else {
      var k := |steps| - 1;
      assert forall j :: 0 <= j < k ==> steps[..k][..j] == steps[..j];
      EndToEnd(cfg, w, steps[..k], x);
      NextSound(cfg, Run(cfg, w, steps[..k]), steps[k], x);
    }
  }
}
