/**
 * A finish that reports an error has left nothing behind, and deferring the commit to
 * postprocessing ends where committing inline would have.
 */
module AllOrNothing {
  import opened Base
  import opened Lifecycle
  import opened Success

  /** Driver state and session store are as before, but for the session that is gone. */
  predicate Restored(w: World, w': World, id: SessionId) {
    w'.nodes == w.nodes && w'.used == w.used && w'.blobs == w.blobs && w'.store == w.store - {id}
  }

  /** As Restored, but for the flag of the session that is gone, which could not be cleared. */
  predicate FlagLeft(w: World, w': World, id: SessionId, n: NodeId) {
    && n in w.nodes && w'.nodes == w.nodes[n := w.nodes[n].(owner := Some(id))]
    && w'.used == w.used && w'.blobs == w.blobs && w'.store == w.store - {id}
  }

  /** The rollback was refused: the session stays, bytes and all, as the record of what to undo. */
  predicate KeptForRetry(w: World, w': World, id: SessionId) {
    && id in w'.store && id in w.store
    && w'.store[id].bytes == w.store[id].bytes
    && w'.store - {id} == w.store - {id}
    && w'.blobs == w.blobs
    && w'.trace.Then? && w'.trace.entry.Rollback? && w'.trace.entry.id == id && !w'.trace.entry.ok
  }

  /** No other upload is processing the target, and a new file's node is not there yet. */
  predicate Undisturbed(cfg: Config, w: World, info: Info) {
    if info.existed then info.nodeId in w.nodes ==> w.nodes[info.nodeId].owner.None?
    else cfg.prepareCreatesNode ==> info.nodeId !in w.nodes
  }

  /** The state right after prepare has persisted the session: PrepareUpload undone would give base. */
  predicate Undoable(base: World, w: World, id: SessionId, info: Info, diff: int) {
    && id in w.store && id in base.store
    && w.store[id].bytes == base.store[id].bytes
    && w.store - {id} == base.store - {id}
    && w.blobs == base.blobs
    && id !in w.blobs
    && w.Owns(id, info.nodeId)
    && w.used - diff == base.used
    && var node := w.nodes[info.nodeId];
       if info.existed then
         && node.history != []
         && base.nodes == w.nodes[info.nodeId :=
              Node(node.history[|node.history| - 1], node.history[..|node.history| - 1], None)]
       else
         base.nodes == w.nodes - {info.nodeId}
  }

  /** What a rollback reached: everything as before, the flag left, or the session kept. */
  predicate Undone(base: World, w': World, id: SessionId, info: Info, a: Answers) {
    if !a.rollback then KeptForRetry(base, w', id)
    else if a.unmark || !info.existed then Restored(base, w', id)
    else FlagLeft(base, w', id, info.nodeId)
  }

  /** The kept session still knows how to undo the upload. */
  predicate Retryable(base: World, w': World, id: SessionId) {
    id in w'.store && Undoable(base, w', id, w'.store[id].info, w'.store[id].info.SizeDiff())
  }

  lemma DiscardUndoes(base: World, w: World, id: SessionId, info: Info, diff: int, a: Answers)
    requires Undoable(base, w, id, info, diff)
    ensures
      var w' := Discard(w, id, info, diff, a);
      Undone(base, w', id, info, a) && (!a.rollback ==> w' == w.(trace := w'.trace))
  {
    if a.rollback && info.existed {
      var n := info.nodeId;
      assert base.nodes == w.nodes[n := base.nodes[n]];
    }
  }

  lemma HandOverUndoes(cfg: Config, base: World, w: World, id: SessionId, info: Info, a: Answers)
    requires Undoable(base, w, id, info, info.SizeDiff()) && w.store[id].info == info
    ensures
      var r := HandOver(cfg, w, id, info, a);
      r.Fail? ==> Undone(base, r.world, id, info, a) && (!a.rollback ==> Retryable(base, r.world, id))
  {
    var w1 := w.Note(BytesReceived(id, info.nodeId, a.publish));
    if !Defers(cfg, info) {
      w1 := CommitOnce(cfg, w, id, info, a.CommitOk(0), a).world;
      assert id !in w.blobs ==> w.blobs - {id} == w.blobs;
    }
    if HandOver(cfg, w, id, info, a).Fail? {
      assert Undoable(base, w1, id, info, info.SizeDiff()) && w1.store == w.store;
      DiscardUndoes(base, w1, id, info, info.SizeDiff(), a);
    }
  }

  /** base is the world before the finish, w the world touchNode left. */
  predicate Touched(cfg: Config, base: World, w: World, id: SessionId, info: Info) {
    && w.store == base.store && w.blobs == base.blobs && w.used == base.used && id in w.store && id !in w.blobs
    && (if TouchesFirst(cfg, info) then
          && info.nodeId in w.nodes && w.nodes[info.nodeId].history == []
          && w.nodes - {info.nodeId} == base.nodes
        else
          && w.nodes == base.nodes && Undisturbed(cfg, base, info))
  }

  lemma TouchedAfter(cfg: Config, w: World, id: SessionId, info: Info, a: Answers)
    requires id in w.store && id !in w.blobs && Undisturbed(cfg, w, info)
    ensures
      var r := TouchNode(cfg, w, id, info, a);
      if r.Fail? then Restored(w, r.world, id) else Touched(cfg, w, r.world, id, r.info)
  {
  }

  /** A prepared node whose session was persisted can be undone exactly. */
  lemma UndoableAfterPrepare(cfg: Config, base: World, w: World, id: SessionId, info: Info, a: Answers)
    requires Touched(cfg, base, w, id, info)
    requires info.nodeId in w.nodes || (!info.existed && cfg.prepareCreatesNode)
    ensures
      var diff := NewDiff(w, info);
      var info1 := info.WithOwner(a.preparedOwner).Record(diff, info.existed);
      var w1 := PrepareNode(w, id, info);
      Undoable(base, w1, id, info1, diff) && Undoable(base, w1.(store := w1.store[id := w1.store[id].(info := info1)]), id, info1, diff)
  {
    var n := info.nodeId;
    var w1 := PrepareNode(w, id, info);
    var node := w1.nodes[n];
    if info.existed {
      assert node.history[..|node.history| - 1] == w.nodes[n].history;
      assert base.nodes == w1.nodes[n := w.nodes[n]];
    } else {
      assert base.nodes == w1.nodes - {n};
    }
  }

  lemma PrepareUndoes(cfg: Config, base: World, w: World, id: SessionId, info: Info, a: Answers)
    requires Touched(cfg, base, w, id, info)
    ensures
      var r := PrepareStage(cfg, w, id, info, a);
      if r.Done? then Undoable(base, r.world, id, r.info, r.info.SizeDiff()) && r.info.existed == info.existed && r.info.nodeId == info.nodeId
      else Restored(base, r.world, id) || (!a.persist && Undone(base, r.world, id, info, a))
  {
    var creates := !info.existed && cfg.prepareCreatesNode;
    if a.prepare.Some? || (info.nodeId !in w.nodes && !creates) {
      assert UnprepareNode(w, info).nodes == base.nodes;
    } else {
      UndoableAfterPrepare(cfg, base, w, id, info, a);
      var info1 := info.WithOwner(a.preparedOwner).Record(NewDiff(w, info), info.existed);
      if !a.persist {
        DiscardUndoes(base, PrepareNode(w, id, info), id, info1, NewDiff(w, info), a);
      }
    }
  }

  /** What an error may leave: nothing, the flag on an overwritten node, or the session kept. */
  predicate NothingLeft(w: World, w': World, id: SessionId, info: Info, a: Answers) {
    || Restored(w, w', id)
    || (!a.unmark && a.rollback && info.existed && FlagLeft(w, w', id, info.nodeId))
    || (!a.rollback && KeptForRetry(w, w', id) && (a.persist ==> Retryable(w, w', id)))
  }

  lemma StageUndoes(cfg: Config, w: World, id: SessionId, info: Info, a: Answers)
    requires id in w.store && id !in w.blobs && Undisturbed(cfg, w, info)
    ensures
      var r := Stage(cfg, w, id, info, a);
      if r.Fail? then NothingLeft(w, r.world, id, info, a)
      else
        && Undoable(w, r.world, id, r.info, r.info.SizeDiff())
        && r.info.existed == info.existed && (info.existed ==> r.info.nodeId == info.nodeId)
  {
    var body := w.store[id].bytes;
    if RefusalOf(cfg, info, body, a).None? {
      var w0 := w.Note(Verified(id, body, info.checksum));
      var info0 := info.(sums := Some(AllSums(cfg, body)));
      TouchedAfter(cfg, w0, id, info0, a);
      var r1 := TouchNode(cfg, w0, id, info0, a);
      if r1.Done? {
        PrepareUndoes(cfg, w0, r1.world, id, r1.info, a);
      }
    }
  }

  /**
   * All-or-nothing: whatever fails, an error leaves driver and store as before with the
   * session gone.  The exceptions are an overwritten node whose flag could not be cleared,
   * which differs in the flag alone, and a rollback that was itself refused: then the
   * session is kept and, if it could be persisted, still knows how to undo the upload.
   */
  lemma FinishAllOrNothing(cfg: Config, w: World, id: SessionId, info: Info, a: Answers)
    requires id in w.store && id !in w.blobs && Undisturbed(cfg, w, info)
    ensures
      var r := Finish(cfg, w, id, info, a);
      r.Fail? ==> NothingLeft(w, r.world, id, info, a)
  {
    StageUndoes(cfg, w, id, info, a);
    var r := Stage(cfg, w, id, info, a);
    if r.Done? {
      HandOverUndoes(cfg, w, r.world, id, r.info, a);
    }
  }

  // ---------------------------------------------------------------- retrying the rollback

  /** The requests and events that roll the upload back and discard it. */
  predicate Discards(cfg: Config, step: Step) {
    match step
    case Terminate(_, _) => true
    case CleanUpload(_, keep, _) => !keep
    case PostprocessingFinished(_, storage, verdict, _, _) => verdict.Delete? && Serves(cfg, storage)
    case _ => false
  }

  lemma DiscardStep(cfg: Config, base: World, w: World, step: Step)
    requires Retryable(base, w, step.id) && Discards(cfg, step)
    ensures
      var w' := Next(cfg, w, step);
      if step.a.rollback then Undone(base, w', step.id, w.store[step.id].info, step.a)
      else Retryable(base, w', step.id) && w'.store == w.store
  {
    DiscardUndoes(base, w, step.id, w.store[step.id].info, w.store[step.id].info.SizeDiff(), step.a);
  }

  /** However often the rollback of a kept session fails, the first one to succeed brings back the state before the upload. */
  lemma {:induction false} FirstRollbackRestores(cfg: Config, base: World, w: World, tries: seq<Step>, last: Step)
    requires Retryable(base, w, last.id) && Discards(cfg, last) && last.a.rollback && last.a.unmark
    requires forall k :: 0 <= k < |tries| ==> tries[k].id == last.id && Discards(cfg, tries[k]) && !tries[k].a.rollback
    ensures
      var w1 := Run(cfg, w, tries);
      Retryable(base, w1, last.id) && Restored(base, Next(cfg, w1, last), last.id)
  {
    if tries == [] {
      DiscardStep(cfg, base, w, last);
    } else {
      var k := |tries| - 1;
      FirstRollbackRestores(cfg, base, w, tries[..k], last);
      DiscardStep(cfg, base, Run(cfg, w, tries[..k]), tries[k]);
      DiscardStep(cfg, base, Run(cfg, w, tries), last);
    }
  }

  // ---------------------------------------------------------------- exactly when

  predicate FailRestores(cfg: Config, w: World, id: SessionId, info: Info, a: Answers)
    requires id in w.store
  {
    var r := Finish(cfg, w, id, info, a);
    r.Fail? ==> Restored(w, r.world, id)
  }

  function PersistFails(): Answers {
    Answers(true, None, 0, "", None, None, None, true, false, true, [], true, true, true)
  }

  /** Another upload's flag, or a node already there, is not put back. */
  lemma DisturbedIsNotRestored(cfg: Config, w: World, id: SessionId, info: Info)
    requires id in w.store && !Undisturbed(cfg, w, info)
    requires RefusalOf(cfg, info, w.store[id].bytes, PersistFails()).None?
    ensures !FailRestores(cfg, w, id, info, PersistFails())
  {
  }

  /**
   * With rollbacks working, a failed finish restores the state for all answers exactly
   * when the target is undisturbed, or the upload is refused before the driver is called.
   */
  lemma RestoresExactlyWhen(cfg: Config, w: World, id: SessionId, info: Info)
    requires id in w.store && id !in w.blobs
    ensures
      (forall a: Answers | a.rollback && a.unmark :: FailRestores(cfg, w, id, info, a)) <==>
      (Undisturbed(cfg, w, info) || RefusalOf(cfg, info, w.store[id].bytes, PersistFails()).Some?)
  {
    if Undisturbed(cfg, w, info) || RefusalOf(cfg, info, w.store[id].bytes, PersistFails()).Some? {
      forall a: Answers | a.rollback && a.unmark
        ensures FailRestores(cfg, w, id, info, a)
      {
        if Undisturbed(cfg, w, info) {
          FinishAllOrNothing(cfg, w, id, info, a);
        }
      }
    } else {
      DisturbedIsNotRestored(cfg, w, id, info);
    }
  }

  // ---------------------------------------------------------------- async refines sync

  /** The same state, the trace aside. */
  predicate SameState(w: World, w': World) {
    w' == w.(trace := w'.trace)
  }

  /** Failed attempts leave no mark: an eventual success ends where an immediate one does. */
  lemma {:induction false} RetryRefines(cfg: Config, w: World, id: SessionId, info: Info, k: nat, n: nat, a: Answers)
    requires k < n && id in w.store && info.nodeId in w.nodes
    requires exists j :: k <= j < n && a.CommitOk(j)
    ensures
      var r, once := CommitRetry(cfg, w, id, info, k, n, a), CommitOnce(cfg, w, id, info, true, a);
      && r.ok && SameState(once.world, r.world)
      && r.world.trace.Then? && once.world.trace.Then? && r.world.trace.entry == once.world.trace.entry
      && (cfg.publisher ==> r.world.trace.entry == Ready(NoticeOf(id, info, false, info.target.executant), a.ready))
    decreases n - k
  {
    if !a.CommitOk(k) {
      var r := CommitOnce(cfg, w, id, info, false, a);
      RetryRefines(cfg, r.world, id, info, k + 1, n, a);
      assert r.world.blobs[id := w.store[id].bytes] == w.blobs[id := w.store[id].bytes];
    }
  }

  lemma StageIgnoresAsync(cfg: Config, w: World, id: SessionId, info: Info, a: Answers)
    requires id in w.store
    ensures Stage(cfg.(async := false), w, id, info, a) == Stage(cfg, w, id, info, a)
  {
    var inline, body := cfg.(async := false), w.store[id].bytes;
    assert RefusalOf(inline, info, body, a) == RefusalOf(cfg, info, body, a);
    var w0, info0 := w.Note(Verified(id, body, info.checksum)), info.(sums := Some(AllSums(cfg, body)));
    assert AllSums(inline, body) == AllSums(cfg, body);
    assert TouchNode(inline, w0, id, info0, a) == TouchNode(cfg, w0, id, info0, a);
    var r := TouchNode(cfg, w0, id, info0, a);
    if r.Done? {
      PrepareIgnoresAsync(cfg, r.world, id, r.info, a);
    }
  }

  lemma PrepareIgnoresAsync(cfg: Config, w: World, id: SessionId, info: Info, a: Answers)
    requires id in w.store
    ensures PrepareStage(cfg.(async := false), w, id, info, a) == PrepareStage(cfg, w, id, info, a)
  {
  }

  /** A successful commit does not depend on the mode or on what was published before. */
  lemma CommitIgnores(cfg: Config, w: World, w': World, id: SessionId, info: Info, a: Answers, b: Answers)
    requires SameState(w, w') && id in w.store && info.nodeId in w.nodes
    requires b.unmark == a.unmark && b.ready == a.ready
    ensures
      var once := CommitOnce(cfg.(async := false), w, id, info, true, a);
      var late := CommitOnce(cfg, w', id, info, true, b);
      SameState(once.world, late.world) && (cfg.publisher ==> once.world.trace.Then? && late.world.trace.Then? && once.world.trace.entry == late.world.trace.entry)
  {
  }

  /**
   * Asynchronous refines synchronous: staging the upload, reloading its session and
   * continuing after postprocessing ends in the same driver state and session store, and
   * with the same announcement, as the inline finish of the same upload.
   */
  lemma AsyncRefinesSync(cfg: Config, w: World, id: SessionId, a: Answers, b: Answers, actor: string)
    requires id in w.store && w.store[id].info.size > 0
    requires cfg.async && cfg.publisher && a.publish
    requires b.unmark == a.unmark && b.ready == a.ready
    requires exists k :: 0 <= k < Attempts(cfg) && b.CommitOk(k)
    requires Finish(cfg.(async := false), w, id, w.store[id].info, a).Done?
    ensures
      var info := w.store[id].info;
      var sync := Finish(cfg.(async := false), w, id, info, a);
      var staged := Finish(cfg, w, id, info, a);
      && staged.Done?
      && id in staged.world.store
      && var async := VerdictStep(cfg, staged.world, id, Continue, actor, b);
         && SameState(sync.world, async)
         && sync.world.trace.Then? && async.trace.Then? && sync.world.trace.entry == async.trace.entry
         && async.trace.entry.Ready? && !async.trace.entry.notice.failed
  {
    var info, inline := w.store[id].info, cfg.(async := false);
    StageIgnoresAsync(cfg, w, id, info, a);
    var r := Stage(cfg, w, id, info, a);
    var staged := r.world.Note(BytesReceived(id, r.info.nodeId, true));
    RetryRefines(cfg, staged, id, r.info, 0, Attempts(cfg), b);
    CommitIgnores(cfg, r.world, staged, id, r.info, a, b);
  }

  // ---------------------------------------------------------------- a staged upload undone

  lemma {:induction false} RetryFails(cfg: Config, w: World, id: SessionId, info: Info, k: nat, n: nat, a: Answers)
    requires k < n && id in w.store && id !in w.blobs
    requires forall j :: k <= j < n ==> !a.CommitOk(j)
    ensures
      var r := CommitRetry(cfg, w, id, info, k, n, a);
      !r.ok && SameState(w, r.world)
    decreases n - k
  {
    var r := CommitOnce(cfg, w, id, info, a.CommitOk(k), a);
    assert r.world.blobs == w.blobs;
    if k + 1 < n {
      RetryFails(cfg, r.world, id, info, k + 1, n, a);
    }
  }

  /** The nodes after a rollback: as before, up to the flag of an overwritten node that could not be cleared. */
  function UndoneNodes(base: World, id: SessionId, info: Info, unmark: bool): map<NodeId, Node> {
    if unmark || !info.existed || info.nodeId !in base.nodes then base.nodes
    else base.nodes[info.nodeId := base.nodes[info.nodeId].(owner := Some(id))]
  }

  lemma RevertUndoes(base: World, w: World, id: SessionId, info: Info, a: Answers)
    requires Undoable(base, w, id, info, info.SizeDiff()) && a.rollback
    ensures
      var w' := Revert(w, id, info, a);
      w'.nodes == UndoneNodes(base, id, info, a.unmark) && w'.used == base.used && w'.blobs == base.blobs && w'.store == w.store
  {
  }

  /**
   * All-or-nothing across the hand-over: whatever postprocessing decides short of a
   * successful commit, nodes, blobs and used bytes return to what they were before the
   * upload was finished, up to the flag of an overwritten node that could not be cleared;
   * the session stays with its bytes, unless the upload is deleted.
   */
  lemma StagedAllOrNothing(cfg: Config, w: World, id: SessionId, a: Answers, verdict: Verdict, actor: string, b: Answers)
    requires id in w.store && id !in w.blobs && Undisturbed(cfg, w, w.store[id].info)
    requires CallsSucceed(cfg, w, id, w.store[id].info, a) && Defers(cfg, w.store[id].info) && a.publish
    requires b.rollback && Attempts(cfg) > 0
    requires verdict.Continue? ==> forall k :: 0 <= k < Attempts(cfg) ==> !b.CommitOk(k)
    ensures
      var staged := Finish(cfg, w, id, w.store[id].info, a);
      && staged.Done? && id in staged.world.store &&
      var w' := VerdictStep(cfg, staged.world, id, verdict, actor, b);
      && w'.nodes == UndoneNodes(w, id, w.store[id].info, b.unmark) && w'.used == w.used && w'.blobs == w.blobs
      && (if verdict.Delete? then w'.store == w.store - {id}
          else id in w'.store && w'.store[id].bytes == w.store[id].bytes && w'.store - {id} == w.store - {id})
  {
    StageSucceeds(cfg, w, id, w.store[id].info, a);
    StageUndoes(cfg, w, id, w.store[id].info, a);
    var r := Stage(cfg, w, id, w.store[id].info, a);
    VerdictUndoes(cfg, w, r.world.Note(BytesReceived(id, r.info.nodeId, true)), id, verdict, actor, b);
  }

  lemma VerdictUndoes(cfg: Config, base: World, w: World, id: SessionId, verdict: Verdict, actor: string, b: Answers)
    requires id in w.store && Undoable(base, w, id, w.store[id].info, w.store[id].info.SizeDiff())
    requires b.rollback && Attempts(cfg) > 0
    requires verdict.Continue? ==> forall k :: 0 <= k < Attempts(cfg) ==> !b.CommitOk(k)
    ensures
      var w' := VerdictStep(cfg, w, id, verdict, actor, b);
      && w'.nodes == UndoneNodes(base, id, w.store[id].info, b.unmark) && w'.used == base.used && w'.blobs == base.blobs
      && w'.store == (if verdict.Delete? then base.store - {id} else w.store)
  {
    var info := w.store[id].info;
    match verdict
    case Delete => DiscardUndoes(base, w, id, info, info.SizeDiff(), b);
    case Continue =>
      RetryFails(cfg, w, id, info, 0, Attempts(cfg), b);
      RevertUndoes(base, FinishAsync(cfg, w, id, info, b).world, id, info, b);
    case _ => RevertUndoes(base, w, id, info, b);
  }
}
