/**
 * All-or-nothing and the refinement of synchronous by asynchronous finishing, while other
 * uploads go on in between: what one upload did to its node and to the used bytes is undone,
 * or completed, whatever the others did meanwhile, as long as none was finished over its node.
 */
module Interleaved {
  import opened Base
  import opened Lifecycle
  import opened Success
  import opened AllOrNothing
  import opened Bystanders

  /** From w to w' the node goes back to what base has and the size change is released, and nothing else. */
  predicate NodeRestored(base: World, w: World, w': World, n: NodeId, diff: int) {
    && w'.used == w.used - diff && w'.blobs == w.blobs && w'.nodes - {n} == w.nodes - {n}
    && (n in w'.nodes <==> n in base.nodes) && (n in base.nodes ==> w'.nodes[n] == base.nodes[n])
  }

  /** What an upload in flight replaced, as a rollback brings it back. */
  function Previous(node: Node, existed: bool): Option<Node> {
    if existed && node.history != []
    then Some(Node(node.history[|node.history| - 1], node.history[..|node.history| - 1], None))
    else None
  }

  /** The node of the upload is, in base, what it replaced. */
  predicate Replaced(base: World, node: Node, info: Info) {
    var n, p := info.nodeId, Previous(node, info.existed);
    (n in base.nodes <==> p.Some?) && (p.Some? ==> base.nodes[n] == p.value)
  }

  /** An upload that can be undone is in flight, over what base has. */
  lemma UndoableInFlight(base: World, w: World, id: SessionId)
    requires Retryable(base, w, id)
    ensures
      var stored := w.store[id];
      var node := w.nodes[stored.info.nodeId];
      InFlight(w, id, stored, node) && Replaced(base, node, stored.info) && w.used - stored.info.SizeDiff() == base.used
  {
  }

  lemma UndoRestores(base: World, w: World, id: SessionId, stored: Stored, node: Node, a: Answers)
    requires InFlight(w, id, stored, node) && Replaced(base, node, stored.info)
    requires a.rollback && (a.unmark || !stored.info.existed)
    ensures
      var info, n, diff := w.store[id].info, stored.info.nodeId, stored.info.SizeDiff();
      var w1, w2 := Discard(w, id, info, diff, a), Revert(w, id, info, a);
      && info.SizeDiff() == diff && info.nodeId == n
      && NodeRestored(base, w, w1, n, diff) && w1.store == w.store - {id}
      && NodeRestored(base, w, w2, n, diff) && w2.store == w.store
  {
  }

  /**
   * However often the rollback of a kept session fails and whatever other uploads do
   * meanwhile, the first one to succeed restores the node and releases the size change.
   */
  lemma FirstRollbackRestores(cfg: Config, base: World, w: World, steps: seq<Step>, last: Step)
    requires Retryable(base, w, last.id) && BystandersRun(cfg, w, steps, last.id, w.store[last.id].info.nodeId)
    requires Discards(cfg, last) && last.a.rollback && (last.a.unmark || !w.store[last.id].info.existed)
    ensures
      var info, w1 := w.store[last.id].info, Run(cfg, w, steps);
      var w2 := Next(cfg, w1, last);
      && w.used - info.SizeDiff() == base.used
      && NodeRestored(base, w1, w2, info.nodeId, info.SizeDiff()) && w2.store == w1.store - {last.id}
  {
    var id := last.id;
    var stored := w.store[id];
    var node := w.nodes[stored.info.nodeId];
    UndoableInFlight(base, w, id);
    StaysInFlight(cfg, w, steps, id, stored, node);
    DiscardIs(cfg, Run(cfg, w, steps), last);
    UndoRestores(base, Run(cfg, w, steps), id, stored, node, last.a);
  }

  lemma DiscardIs(cfg: Config, w: World, step: Step)
    requires Discards(cfg, step) && step.id in w.store
    ensures SameState(Discard(w, step.id, w.store[step.id].info, w.store[step.id].info.SizeDiff(), step.a), Next(cfg, w, step))
  {
  }

  // ---------------------------------------------------------------- a staged upload undone

  lemma VerdictRestores(cfg: Config, base: World, w: World, id: SessionId, stored: Stored, node: Node, verdict: Verdict, actor: string, b: Answers)
    requires InFlight(w, id, stored, node) && Replaced(base, node, stored.info)
    requires b.rollback && (b.unmark || !stored.info.existed) && Attempts(cfg) > 0
    requires verdict.Continue? ==> forall k :: 0 <= k < Attempts(cfg) ==> !b.CommitOk(k)
    ensures
      var w' := VerdictStep(cfg, w, id, verdict, actor, b);
      && NodeRestored(base, w, w', stored.info.nodeId, stored.info.SizeDiff())
      && w'.store == (if verdict.Delete? then w.store - {id} else w.store)
  {
    var info := w.store[id].info;
    if verdict.Continue? {
      RetryFails(cfg, w, id, info, 0, Attempts(cfg), b);
      UndoRestores(base, FinishAsync(cfg, w, id, info, b).world, id, stored, node, b);
    } else {
      UndoRestores(base, w, id, stored, node, b);
    }
  }

  /** The staged upload and its record, right after an asynchronous finish. */
  lemma StagedRetryable(cfg: Config, w: World, id: SessionId, a: Answers)
    requires id in w.store && id !in w.blobs && Undisturbed(cfg, w, w.store[id].info)
    requires CallsSucceed(cfg, w, id, w.store[id].info, a) && Defers(cfg, w.store[id].info) && a.publish
    ensures
      var staged := Finish(cfg, w, id, w.store[id].info, a);
      && staged.Done? && Retryable(w, staged.world, id)
      && staged.world.store[id].info == staged.info && staged.info.existed == w.store[id].info.existed
  {
    StageSucceeds(cfg, w, id, w.store[id].info, a);
    StageUndoes(cfg, w, id, w.store[id].info, a);
  }

  /**
   * All-or-nothing across the hand-over: whatever other uploads do meanwhile and whatever
   * postprocessing decides short of a successful commit, the node is as it was before the
   * upload was finished, and exactly what the finish charged is released.
   */
  lemma StagedAllOrNothing(cfg: Config, w: World, id: SessionId, a: Answers, steps: seq<Step>, verdict: Verdict, actor: string, b: Answers)
    requires id in w.store && id !in w.blobs && Undisturbed(cfg, w, w.store[id].info)
    requires CallsSucceed(cfg, w, id, w.store[id].info, a) && Defers(cfg, w.store[id].info) && a.publish
    requires
      var staged := Finish(cfg, w, id, w.store[id].info, a);
      BystandersRun(cfg, staged.world, steps, id, staged.info.nodeId)
    requires b.rollback && (b.unmark || !w.store[id].info.existed) && Attempts(cfg) > 0
    requires verdict.Continue? ==> forall k :: 0 <= k < Attempts(cfg) ==> !b.CommitOk(k)
    ensures
      var staged := Finish(cfg, w, id, w.store[id].info, a);
      var w1 := Run(cfg, staged.world, steps);
      && id in w1.store && w1.store[id].bytes == w.store[id].bytes
      && var w2 := VerdictStep(cfg, w1, id, verdict, actor, b);
         && NodeRestored(w, w1, w2, staged.info.nodeId, staged.world.used - w.used)
         && w2.store == (if verdict.Delete? then w1.store - {id} else w1.store)
  {
    var staged := Finish(cfg, w, id, w.store[id].info, a).world;
    StagedRetryable(cfg, w, id, a);
    UndoableInFlight(w, staged, id);
    var stored := staged.store[id];
    var node := staged.nodes[stored.info.nodeId];
    StaysInFlight(cfg, staged, steps, id, stored, node);
    VerdictRestores(cfg, w, Run(cfg, staged, steps), id, stored, node, verdict, actor, b);
  }

  // ---------------------------------------------------------------- a staged upload committed

  /** A successful commit of an upload in flight: blob and node are its own business alone. */
  predicate NodeCommitted(w: World, w': World, id: SessionId, n: NodeId, body: Bytes, unmark: bool) {
    && w'.used == w.used && w'.blobs == w.blobs[id := body] && w'.store == w.store - {id}
    && n in w.nodes && w'.nodes == (if unmark then w.nodes[n := w.nodes[n].(owner := None)] else w.nodes)
  }

  lemma CommitOfInFlight(cfg: Config, w: World, id: SessionId, info: Info, a: Answers)
    requires id in w.store && w.Owns(id, info.nodeId)
    ensures
      var r := CommitOnce(cfg, w, id, info, true, a);
      r.ok && NodeCommitted(w, r.world, id, info.nodeId, w.store[id].bytes, a.unmark)
  {
  }

  lemma ContinueOfInFlight(cfg: Config, w: World, id: SessionId, actor: string, b: Answers)
    requires id in w.store && w.Owns(id, w.store[id].info.nodeId) && cfg.publisher
    requires exists k :: 0 <= k < Attempts(cfg) && b.CommitOk(k)
    ensures
      var info, w' := w.store[id].info, VerdictStep(cfg, w, id, Continue, actor, b);
      && NodeCommitted(w, w', id, info.nodeId, w.store[id].bytes, b.unmark)
      && w'.trace.Then? && w'.trace.entry == Ready(NoticeOf(id, info, false, info.target.executant), b.ready)
  {
    var info := w.store[id].info;
    RetryRefines(cfg, w, id, info, 0, Attempts(cfg), b);
    CommitOfInFlight(cfg, w, id, info, b);
  }

  lemma InlineOfStaged(cfg: Config, w: World, id: SessionId, a: Answers)
    requires id in w.store && w.store[id].info.size > 0 && cfg.async && cfg.publisher && a.publish
    requires Finish(cfg.(async := false), w, id, w.store[id].info, a).Done?
    ensures
      var info := w.store[id].info;
      var sync, staged := Finish(cfg.(async := false), w, id, info, a), Finish(cfg, w, id, info, a);
      && staged.Done? && id in staged.world.store && staged.world.store[id] == Stored(staged.info, w.store[id].bytes)
      && staged.world.Owns(id, staged.info.nodeId) && sync.info == staged.info
      && NodeCommitted(staged.world, sync.world, id, staged.info.nodeId, w.store[id].bytes, a.unmark)
      && sync.world.trace.Then?
      && sync.world.trace.entry == Ready(NoticeOf(id, staged.info, false, staged.info.target.executant), a.ready)
  {
    var info, inline := w.store[id].info, cfg.(async := false);
    StageIgnoresAsync(cfg, w, id, info, a);
    var r := Stage(cfg, w, id, info, a);
    CommitOfInFlight(inline, r.world, id, r.info, a);
  }

  /** From w1 to w2 the node and the blob end as in sync, and nothing else changes. */
  predicate EndsAs(sync: World, w1: World, w2: World, id: SessionId, n: NodeId) {
    && n in sync.nodes && n in w2.nodes && w2.nodes[n] == sync.nodes[n] && w2.nodes - {n} == w1.nodes - {n}
    && id in sync.blobs && w2.blobs == w1.blobs[id := sync.blobs[id]]
    && w2.used == w1.used && w2.store == w1.store - {id}
  }

  lemma CommitsEndAlike(staged: World, sync: World, w1: World, w2: World, id: SessionId, n: NodeId, body: Bytes, unmark: bool)
    requires NodeCommitted(staged, sync, id, n, body, unmark) && NodeCommitted(w1, w2, id, n, body, unmark)
    requires w1.nodes[n] == staged.nodes[n]
    ensures EndsAs(sync, w1, w2, id, n)
  {
  }

  /**
   * Asynchronous refines synchronous while other uploads go on: continuing the staged upload
   * later leaves its node, its blob and its announcement as the inline finish would have,
   * charges nothing more than the finish did, and changes nothing the others did meanwhile.
   */
  lemma AsyncRefinesSync(cfg: Config, w: World, id: SessionId, a: Answers, steps: seq<Step>, b: Answers, actor: string)
    requires id in w.store && id !in w.blobs && w.store[id].info.size > 0
    requires cfg.async && cfg.publisher && a.publish && b.unmark == a.unmark && b.ready == a.ready
    requires exists k :: 0 <= k < Attempts(cfg) && b.CommitOk(k)
    requires Finish(cfg.(async := false), w, id, w.store[id].info, a).Done?
    requires
      var staged := Finish(cfg, w, id, w.store[id].info, a);
      BystandersRun(cfg, staged.world, steps, id, staged.info.nodeId)
    ensures
      var info := w.store[id].info;
      var sync, staged := Finish(cfg.(async := false), w, id, info, a), Finish(cfg, w, id, info, a);
      var n, w1 := staged.info.nodeId, Run(cfg, staged.world, steps);
      && id in w1.store
      && var w2 := VerdictStep(cfg, w1, id, Continue, actor, b);
         && EndsAs(sync.world, w1, w2, id, n) && sync.world.used == staged.world.used
         && sync.world.trace.Then? && w2.trace.Then? && w2.trace.entry == sync.world.trace.entry
  {
    var staged := Finish(cfg, w, id, w.store[id].info, a);
    InlineOfStaged(cfg, w, id, a);
    var n, stored := staged.info.nodeId, staged.world.store[id];
    var node := staged.world.nodes[n];
    StagedWritesNothing(cfg, w, id, a);
    StaysInFlight(cfg, staged.world, steps, id, stored, node);
    var w1 := Run(cfg, staged.world, steps);
    ContinueOfInFlight(cfg, w1, id, actor, b);
    var sync := Finish(cfg.(async := false), w, id, w.store[id].info, a).world;
    CommitsEndAlike(staged.world, sync, w1, VerdictStep(cfg, w1, id, Continue, actor, b), id, n, w.store[id].bytes, a.unmark);
  }

  lemma StagedWritesNothing(cfg: Config, w: World, id: SessionId, a: Answers)
    requires id in w.store && Finish(cfg, w, id, w.store[id].info, a).Done? && Defers(cfg, w.store[id].info)
    ensures Finish(cfg, w, id, w.store[id].info, a).world.blobs == w.blobs
  {
  }
}
