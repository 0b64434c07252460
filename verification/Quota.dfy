/**
 * Quota conservation: the used bytes are, in every reachable state, exactly what the
 * nodes account for, and every size change still outstanding has a stored session that
 * knows how to undo it.
 */
module Quota {
  import opened Base
  import opened Lifecycle

  // ---------------------------------------------------------------- sums over nodes

  /** What all nodes account for. */
  ghost function Total(m: map<NodeId, Node>): int {
    if m == map[] then 0 else var k :| k in m; m[k].cur.size + Total(m - {k})
  }

  lemma {:induction false} TotalRemove(m: map<NodeId, Node>, k: NodeId)
    requires k in m
    ensures Total(m) == m[k].cur.size + Total(m - {k})
    decreases |m|
  {
    var j :| j in m && Total(m) == m[j].cur.size + Total(m - {j});
    if j != k {
      TotalRemove(m - {j}, k);
      TotalRemove(m - {k}, j);
      assert m - {j} - {k} == m - {k} - {j};
    }
  }

  lemma TotalSet(m: map<NodeId, Node>, k: NodeId, v: Node)
    ensures Total(m[k := v]) == Total(m) - (if k in m then m[k].cur.size else 0) + v.cur.size
  {
    TotalRemove(m[k := v], k);
    if k in m {
      TotalRemove(m, k);
    }
    assert m[k := v] - {k} == m - {k};
    if k !in m {
      assert m - {k} == m;
    }
  }

  // ---------------------------------------------------------------- the invariant

  /** The version a rollback of the flagged upload would restore. */
  function Before(node: Node): int {
    if node.history == [] then 0 else node.history[|node.history| - 1].size
  }

  /** A flagged node is backed by a stored session that addresses it and recorded its size change. */
  predicate Backed(w: World, n: NodeId, s: SessionId)
    requires n in w.nodes
  {
    && s in w.store
    && w.store[s].info.Prepared()
    && w.store[s].info.nodeId == n
    && w.store[s].info.existed == (w.nodes[n].history != [])
    && w.store[s].info.SizeDiff() == w.nodes[n].cur.size - Before(w.nodes[n])
  }

  ghost predicate AllBacked(w: World) {
    forall n :: n in w.nodes && w.nodes[n].owner.Some? ==> Backed(w, n, w.nodes[n].owner.value)
  }

  /** A new file's session that has not been finished is alone in using its placeholder id. */
  predicate Alone(w: World, s: SessionId)
    requires s in w.store
  {
    var n := w.store[s].info.nodeId;
    n !in w.nodes && forall t :: t in w.store && t != s ==> w.store[t].info.nodeId != n
  }

  ghost predicate Placeholders(w: World) {
    && (forall n :: n in w.nodes ==> n in w.minted)
    && (forall s :: s in w.store ==> s in w.minted && w.store[s].info.nodeId in w.minted)
    && (forall s :: s in w.store && !w.store[s].info.Prepared() && !w.store[s].info.existed ==> Alone(w, s))
  }

  ghost predicate Accounted(w: World) {
    w.used == Total(w.nodes) && AllBacked(w) && Placeholders(w)
  }

  // ---------------------------------------------------------------- what a step may assume

  function AnswersOf(step: Step): Option<Answers> {
    if step.Append? then None else Some(step.a)
  }

  /** The step runs finishUpload on a session that was there before. */
  predicate Finishes(w: World, step: Step) {
    && step.id in w.store
    && (|| step.FinishTus?
        || (step.Put? && w.store[step.id].bytes == [] && step.complete && |step.received| == step.length))
  }

  /** The step initiates a zero-length upload, which is finished on the spot. */
  predicate FinishesAtOnce(step: Step) {
    step.Initiate? && step.info.size == 0
  }

  /**
   * A flag on a live node can be cleared, Persist and the rollback after it do not both
   * fail, and no session is finished a second time.
   */
  predicate Benign(w: World, step: Step) {
    && (AnswersOf(step).Some? ==> step.a.unmark)
    && (Finishes(w, step) || FinishesAtOnce(step) ==> step.a.persist || step.a.rollback)
    && (Finishes(w, step) ==> !w.store[step.id].info.Prepared())
  }

  predicate BenignRun(cfg: Config, w: World, steps: seq<Step>) {
    steps != [] ==>
      var k := |steps| - 1;
      BenignRun(cfg, w, steps[..k]) && Benign(Run(cfg, w, steps[..k]), steps[k])
  }

  lemma {:induction false} BenignAt(cfg: Config, w: World, steps: seq<Step>, k: nat)
    requires BenignRun(cfg, w, steps) && k < |steps|
    ensures Benign(Run(cfg, w, steps[..k]), steps[k])
  {
    var last := |steps| - 1;
    if k < last {
      BenignAt(cfg, w, steps[..last], k);
      assert steps[..last][..k] == steps[..k];
    }
  }

  // ---------------------------------------------------------------- each transition

  /** Blobs and trace play no part in the accounts. */
  lemma SameAccounts(w: World, w': World)
    requires Accounted(w)
    requires w'.nodes == w.nodes && w'.used == w.used && w'.store == w.store && w'.minted == w.minted
    ensures Accounted(w')
  {
  }

  /** Removing a session that flags nothing. */
  lemma DropKeeps(w: World, id: SessionId)
    requires Accounted(w)
    requires id in w.store ==> !w.Owns(id, w.store[id].info.nodeId)
    ensures Accounted(w.Drop(id))
  {
  }

  /** Rolling back and clearing the flag, as a session that is up to date with the node does it. */
  lemma UndoKeeps(w: World, id: SessionId, info: Info, diff: int)
    requires Accounted(w)
    requires w.Owns(id, info.nodeId) ==>
      id in w.store && info.existed == w.store[id].info.existed && diff == w.store[id].info.SizeDiff()
    ensures
      var w' := UnmarkNode(RollbackUpload(w, id, info, diff, true), id, info.nodeId, true);
      Accounted(w') && !w'.Owns(id, info.nodeId) && w'.store == w.store
  {
    var n := info.nodeId;
    var w1 := RollbackUpload(w, id, info, diff, true);
    var w' := UnmarkNode(w1, id, n, true);
    if w.Owns(id, n) {
      var node := w.nodes[n];
      assert Backed(w, n, id);
      if info.existed {
        var last := |node.history| - 1;
        var back := Node(node.history[last], node.history[..last], None);
        assert w'.nodes == w.nodes[n := back];
        TotalSet(w.nodes, n, back);
      } else {
        TotalRemove(w.nodes, n);
        assert w'.nodes == w.nodes - {n};
      }
      forall m | m in w'.nodes && w'.nodes[m].owner.Some?
        ensures Backed(w', m, w'.nodes[m].owner.value)
      {
        assert Backed(w, m, w.nodes[m].owner.value);
      }
      forall s | s in w'.store && !w'.store[s].info.Prepared() && !w'.store[s].info.existed
        ensures Alone(w', s)
      {
        assert Alone(w, s);
      }
    }
  }

  /** The session in hand agrees with the stored one about what there is to undo. */
  predicate UpToDate(w: World, id: SessionId, info: Info, diff: int) {
    && id in w.store
    && w.store[id].info.nodeId == info.nodeId
    && w.store[id].info.existed == info.existed
    && w.store[id].info.SizeDiff() == diff
  }

  lemma DiscardKeeps(w: World, id: SessionId, info: Info, diff: int, a: Answers)
    requires Accounted(w) && UpToDate(w, id, info, diff) && a.unmark
    ensures Accounted(Discard(w, id, info, diff, a))
  {
    if a.rollback {
      UndoKeeps(w, id, info, diff);
      DropKeeps(UnmarkNode(RollbackUpload(w, id, info, diff, true), id, info.nodeId, true), id);
    }
  }

  lemma RevertKeeps(w: World, id: SessionId, info: Info, a: Answers)
    requires Accounted(w) && UpToDate(w, id, info, info.SizeDiff()) && a.unmark
    ensures Accounted(Revert(w, id, info, a))
  {
    if a.rollback {
      UndoKeeps(w, id, info, info.SizeDiff());
    }
  }

  /** Clearing the flag alone. */
  lemma UnmarkKeeps(w: World, id: SessionId, n: NodeId, ok: bool)
    requires Accounted(w)
    ensures Accounted(UnmarkNode(w, id, n, ok))
  {
    var w' := UnmarkNode(w, id, n, ok);
    if ok && w.Owns(id, n) {
      TotalSet(w.nodes, n, w.nodes[n].(owner := None));
      forall m | m in w'.nodes && w'.nodes[m].owner.Some?
        ensures Backed(w', m, w'.nodes[m].owner.value)
      {
        assert Backed(w, m, w.nodes[m].owner.value);
      }
      forall s | s in w'.store && !w'.store[s].info.Prepared() && !w'.store[s].info.existed
        ensures Alone(w', s)
      {
        assert Alone(w, s);
      }
    }
  }

  lemma CommitKeeps(cfg: Config, w: World, id: SessionId, info: Info, ok: bool, a: Answers)
    requires Accounted(w) && a.unmark
    requires id in w.store ==> w.store[id].info.nodeId == info.nodeId
    ensures
      var r := CommitOnce(cfg, w, id, info, ok, a);
      Accounted(r.world) && (!r.ok ==> r.world.store == w.store && r.world.nodes == w.nodes)
  {
    var r := CommitOnce(cfg, w, id, info, ok, a);
    if !r.ok {
      SameAccounts(w, r.world);
    } else {
      var w1 := w.(blobs := w.blobs[id := w.store[id].bytes])
                 .Note(Commit(id, info.nodeId, w.store[id].bytes, info.size, info.ScanData(), true));
      SameAccounts(w, w1);
      UnmarkKeeps(w1, id, info.nodeId, true);
      var w2 := UnmarkNode(w1, id, info.nodeId, true);
      DropKeeps(w2, id);
      SameAccounts(w2.Drop(id), r.world);
    }
  }

  lemma {:induction false} RetryKeeps(cfg: Config, w: World, id: SessionId, info: Info, k: nat, n: nat, a: Answers)
    requires Accounted(w) && a.unmark && k < n
    requires id in w.store ==> w.store[id].info.nodeId == info.nodeId
    ensures
      var r := CommitRetry(cfg, w, id, info, k, n, a);
      Accounted(r.world) && (!r.ok ==> r.world.store == w.store && r.world.nodes == w.nodes)
    decreases n - k
  {
    CommitKeeps(cfg, w, id, info, a.CommitOk(k), a);
    var r := CommitOnce(cfg, w, id, info, a.CommitOk(k), a);
    if !r.ok && k + 1 < n {
      RetryKeeps(cfg, r.world, id, info, k + 1, n, a);
    }
  }

  // ---------------------------------------------------------------- finishing an upload

  /** The session about to be finished flags nothing, and a new file's placeholder is still free. */
  ghost predicate Finishable(w: World, id: SessionId) {
    Accounted(w) && id in w.store && !w.store[id].info.Prepared()
  }

  lemma TouchKeeps(cfg: Config, w: World, id: SessionId, info: Info, a: Answers)
    requires Finishable(w, id)
    ensures Accounted(TouchNode(cfg, w, id, info, a).world)
  {
    var r := TouchNode(cfg, w, id, info, a);
    if r.Fail? {
      assert forall m :: m in w.nodes && w.Owns(id, m) ==> Backed(w, m, id);
      DropKeeps(w, id);
    } else if TouchesFirst(cfg, info) {
      var w' := r.world;
      TotalSet(w.nodes, a.touchedNode, Node(Version(None, 0), [], None));
      forall m | m in w'.nodes && w'.nodes[m].owner.Some?
        ensures Backed(w', m, w'.nodes[m].owner.value)
      {
        assert Backed(w, m, w.nodes[m].owner.value);
      }
      forall s | s in w'.store && !w'.store[s].info.Prepared() && !w'.store[s].info.existed
        ensures Alone(w', s)
      {
        assert Alone(w, s);
      }
    }
  }

  /** What the session in hand knows of its node when PrepareUpload is called. */
  ghost predicate Aimed(w: World, id: SessionId, info: Info) {
    && Finishable(w, id)
    && info.existed == w.store[id].info.existed
    && (info.existed ==> info.nodeId == w.store[id].info.nodeId)
    && (!info.existed ==>
          && (info.nodeId in w.nodes ==> w.nodes[info.nodeId] == Node(Version(None, 0), [], None))
          && forall t :: t in w.store && t != id ==> w.store[t].info.nodeId != info.nodeId)
  }

  lemma AimedAfterTouch(cfg: Config, w: World, id: SessionId, info: Info, a: Answers)
    requires Finishable(w, id)
    requires info.nodeId == w.store[id].info.nodeId && info.existed == w.store[id].info.existed
    ensures
      var r := TouchNode(cfg, w, id, info, a);
      r.Done? ==> Aimed(r.world, id, r.info)
  {
    TouchKeeps(cfg, w, id, info, a);
    assert !info.existed ==> Alone(w, id);
  }

  /** The world once prepare has also persisted the session. */
  function PreparedWorld(w: World, id: SessionId, info: Info, a: Answers): World
    requires id in w.store
  {
    var w1 := PrepareNode(w, id, info);
    var info1 := info.WithOwner(a.preparedOwner).Record(NewDiff(w, info), info.existed);
    w1.(store := w1.store[id := w1.store[id].(info := info1)])
  }

  lemma PreparedKeeps(w: World, id: SessionId, info: Info, a: Answers)
    requires Aimed(w, id, info)
    requires info.existed ==> info.nodeId in w.nodes
    ensures Accounted(PreparedWorld(w, id, info, a))
  {
    var n := info.nodeId;
    var w' := PreparedWorld(w, id, info, a);
    TotalSet(w.nodes, n, w'.nodes[n]);
    forall m | m in w'.nodes && w'.nodes[m].owner.Some?
      ensures Backed(w', m, w'.nodes[m].owner.value)
    {
      if m != n {
        assert Backed(w, m, w.nodes[m].owner.value);
      }
    }
    forall s | s in w'.store && !w'.store[s].info.Prepared() && !w'.store[s].info.existed
      ensures Alone(w', s)
    {
      assert Alone(w, s);
    }
  }

  lemma UnprepareKeeps(w: World, id: SessionId, info: Info)
    requires Aimed(w, id, info)
    ensures Accounted(UnprepareNode(w, info).Drop(id))
  {
    var w' := UnprepareNode(w, info);
    if !info.existed {
      if info.nodeId in w.nodes {
        TotalRemove(w.nodes, info.nodeId);
      } else {
        assert w'.nodes == w.nodes;
      }
      forall m | m in w'.nodes && w'.nodes[m].owner.Some?
        ensures Backed(w', m, w'.nodes[m].owner.value)
      {
        assert Backed(w, m, w.nodes[m].owner.value);
      }
      forall s | s in w'.store && !w'.store[s].info.Prepared() && !w'.store[s].info.existed
        ensures Alone(w', s)
      {
        assert Alone(w, s);
      }
    }
    assert forall m :: m in w'.nodes && w'.Owns(id, m) ==> Backed(w', m, id);
    DropKeeps(w', id);
  }

  /** A completed discard does not depend on the session record it removes. */
  lemma DiscardForgets(w: World, w': World, id: SessionId, info: Info, diff: int, a: Answers)
    requires w.store - {id} == w'.store - {id} && w' == w.(store := w'.store) && a.rollback
    ensures Discard(w, id, info, diff, a) == Discard(w', id, info, diff, a)
  {
    var w1, w1' := RollbackUpload(w, id, info, diff, true), RollbackUpload(w', id, info, diff, true);
    assert w1' == w1.(store := w'.store);
    var w2, w2' := UnmarkNode(w1, id, info.nodeId, a.unmark), UnmarkNode(w1', id, info.nodeId, a.unmark);
    assert w2' == w2.(store := w'.store);
  }

  /** Discarding an upload that could not be persisted is discarding it as if it had been. */
  lemma UnpersistedDiscard(w: World, id: SessionId, info: Info, a: Answers)
    requires id in w.store && a.rollback
    ensures
      var wp, diff := PreparedWorld(w, id, info, a), NewDiff(w, info);
      Discard(PrepareNode(w, id, info), id, wp.store[id].info, diff, a) == Discard(wp, id, wp.store[id].info, diff, a)
  {
    var w1, wp := PrepareNode(w, id, info), PreparedWorld(w, id, info, a);
    assert w1.store - {id} == wp.store - {id};
    DiscardForgets(w1, wp, id, wp.store[id].info, NewDiff(w, info), a);
  }

  lemma PrepareKeeps(cfg: Config, w: World, id: SessionId, info: Info, a: Answers)
    requires Aimed(w, id, info) && a.unmark && (a.persist || a.rollback)
    ensures
      var r := PrepareStage(cfg, w, id, info, a);
      Accounted(r.world) && (r.Done? ==> r.world == PreparedWorld(w, id, info, a) && r.world.store[id].info == r.info)
  {
    var creates := !info.existed && cfg.prepareCreatesNode;
    if a.prepare.Some? || (info.nodeId !in w.nodes && !creates) {
      UnprepareKeeps(w, id, info);
    } else {
      var wp := PreparedWorld(w, id, info, a);
      PreparedKeeps(w, id, info, a);
      if !a.persist {
        DiscardKeeps(wp, id, wp.store[id].info, NewDiff(w, info), a);
        UnpersistedDiscard(w, id, info, a);
      }
    }
  }

  lemma HandOverKeeps(cfg: Config, w: World, id: SessionId, info: Info, a: Answers)
    requires Accounted(w) && id in w.store && w.store[id].info == info && a.unmark
    ensures Accounted(HandOver(cfg, w, id, info, a).world)
  {
    if Defers(cfg, info) {
      var w1 := w.Note(BytesReceived(id, info.nodeId, a.publish));
      assert Accounted(w1);
      DiscardKeeps(w1, id, info, info.SizeDiff(), a);
    } else {
      CommitKeeps(cfg, w, id, info, a.CommitOk(0), a);
      var r := CommitOnce(cfg, w, id, info, a.CommitOk(0), a);
      if !r.ok {
        DiscardKeeps(r.world, id, info, info.SizeDiff(), a);
      }
    }
  }

  lemma StageKeeps(cfg: Config, w: World, id: SessionId, a: Answers)
    requires Finishable(w, id) && a.unmark && (a.persist || a.rollback)
    ensures Accounted(Stage(cfg, w, id, w.store[id].info, a).world)
  {
    var info, body := w.store[id].info, w.store[id].bytes;
    if RefusalOf(cfg, info, body, a).Some? {
      assert forall m :: m in w.nodes && w.Owns(id, m) ==> Backed(w, m, id);
      DropKeeps(w, id);
    } else {
      var w0 := w.Note(Verified(id, body, info.checksum));
      var info0 := info.(sums := Some(AllSums(cfg, body)));
      assert Accounted(w0);
      TouchKeeps(cfg, w0, id, info0, a);
      var r := TouchNode(cfg, w0, id, info0, a);
      if r.Done? {
        AimedAfterTouch(cfg, w0, id, info0, a);
        PrepareKeeps(cfg, r.world, id, r.info, a);
      }
    }
  }

  lemma FinishKeeps(cfg: Config, w: World, id: SessionId, a: Answers)
    requires Finishable(w, id) && a.unmark && (a.persist || a.rollback)
    ensures Accounted(Finish(cfg, w, id, w.store[id].info, a).world)
  {
    StageKeeps(cfg, w, id, a);
    var r := Stage(cfg, w, id, w.store[id].info, a);
    if r.Done? {
      HandOverKeeps(cfg, r.world, id, r.info, a);
    }
  }

  // ---------------------------------------------------------------- whole runs

  lemma RegisterKeeps(w: World, id: SessionId, info: Info)
    requires Accounted(w) && Fresh(w, id, info)
    ensures Accounted(Registered(w, id, info))
  {
  }

  lemma InitiateKeeps(cfg: Config, w: World, id: SessionId, info: Info, a: Answers)
    requires Accounted(w) && a.unmark && (info.size == 0 ==> a.persist || a.rollback)
    ensures Accounted(InitiateStep(cfg, w, id, info, a))
  {
    if Fresh(w, id, info) && a.register {
      RegisterKeeps(w, id, info);
      if info.size == 0 {
        FinishKeeps(cfg, Registered(w, id, info), id, a);
      }
    }
  }

  /** Rewriting a session's record or bytes without touching what accounts depend on. */
  lemma RewriteKeeps(w: World, id: SessionId, stored: Stored)
    requires Accounted(w) && id in w.store
    requires stored.info.nodeId == w.store[id].info.nodeId && stored.info.existed == w.store[id].info.existed
    requires stored.info.sizeDiff == w.store[id].info.sizeDiff
    ensures Accounted(w.(store := w.store[id := stored]))
  {
  }

  lemma ScanKeeps(w: World, id: SessionId, r: AntivirusResult, a: Answers)
    requires Accounted(w) && id in w.store
    ensures Accounted(ScanStep(w, id, r, a))
  {
  }

  lemma VerdictKeeps(cfg: Config, w: World, id: SessionId, verdict: Verdict, actor: string, a: Answers)
    requires Accounted(w) && id in w.store && a.unmark
    ensures Accounted(VerdictStep(cfg, w, id, verdict, actor, a))
  {
    var info := w.store[id].info;
    match verdict
    case Continue =>
      if Attempts(cfg) > 0 {
        RetryKeeps(cfg, w, id, info, 0, Attempts(cfg), a);
        var r := FinishAsync(cfg, w, id, info, a);
        if !r.ok {
          RevertKeeps(r.world, id, info, a);
          SameAccounts(Revert(r.world, id, info, a), VerdictStep(cfg, w, id, verdict, actor, a));
        }
      }
    case Delete =>
      DiscardKeeps(w, id, info, info.SizeDiff(), a);
      SameAccounts(Discard(w, id, info, info.SizeDiff(), a), VerdictStep(cfg, w, id, verdict, actor, a));
    case _ =>
      RevertKeeps(w, id, info, a);
      SameAccounts(Revert(w, id, info, a), VerdictStep(cfg, w, id, verdict, actor, a));
  }

  lemma PutKeeps(cfg: Config, w: World, step: Step)
    requires Accounted(w) && Benign(w, step) && step.Put? && step.id in w.store
    ensures Accounted(Next(cfg, w, step))
  {
    if w.store[step.id].bytes == [] {
      RewriteKeeps(w, step.id, w.store[step.id].(bytes := w.store[step.id].bytes + step.received));
      if step.complete && |step.received| == step.length {
        FinishKeeps(cfg, AppendTo(w, step.id, step.received), step.id, step.a);
      }
    }
  }

  /** Steps that change no more than the record or the bytes of the session. */
  lemma RecordKeeps(cfg: Config, w: World, step: Step)
    requires Accounted(w) && step.id in w.store && (step.Append? || step.DeclareLength? || step.StepFinished?)
    ensures Accounted(Next(cfg, w, step))
  {
    var stored := w.store[step.id];
    match step
    case Append(_, received) => RewriteKeeps(w, step.id, stored.(bytes := stored.bytes + received));
    case DeclareLength(_, size, _) => RewriteKeeps(w, step.id, stored.(info := stored.info.(size := size)));
    case StepFinished(_, _, antivirus, a) =>
      if antivirus.Some? {
        ScanKeeps(w, step.id, antivirus.value, a);
      }
  }

  /** Every benign request and event keeps the accounts. */
  lemma NextKeeps(cfg: Config, w: World, step: Step)
    requires Accounted(w) && Benign(w, step)
    ensures Accounted(Next(cfg, w, step))
  {
    if step.Initiate? {
      InitiateKeeps(cfg, w, step.id, step.info, step.a);
    } else if step.id in w.store {
      var stored := w.store[step.id];
      match step
      case Put(_, _, _, _, _) => PutKeeps(cfg, w, step);
      case FinishTus(_, a) => FinishKeeps(cfg, w, step.id, a);
      case Terminate(_, a) => DiscardKeeps(w, step.id, stored.info, stored.info.SizeDiff(), a);
      case PostprocessingFinished(_, _, verdict, actor, a) => VerdictKeeps(cfg, w, step.id, verdict, actor, a);
      case RestartPostprocessing(_, _) => SameAccounts(w, Next(cfg, w, step));
      case CleanUpload(_, keep, a) =>
        if keep {
          RevertKeeps(w, step.id, stored.info, a);
        } else {
          DiscardKeeps(w, step.id, stored.info, stored.info.SizeDiff(), a);
        }
      case _ => RecordKeeps(cfg, w, step);
    }
  }

  /** Conservation over whole runs. */
  lemma {:induction false} Conservation(cfg: Config, w: World, steps: seq<Step>)
    requires Accounted(w) && BenignRun(cfg, w, steps)
    ensures Accounted(Run(cfg, w, steps))
  {
    if steps == [] {
    } else {
      var k := |steps| - 1;
      Conservation(cfg, w, steps[..k]);
      NextKeeps(cfg, Run(cfg, w, steps[..k]), steps[k]);
    }
  }

  // ---------------------------------------------------------------- settled plus outstanding

  /** The nodes with each flagged one a version back; Committed.dfy says when that is the committed content. */
  function Settle(m: map<NodeId, Node>): map<NodeId, Node> {
    map n | n in m :: if m[n].owner.None? then m[n] else SettleNode(m[n])
  }

  function SettleNode(node: Node): Node {
    if node.history == [] then Node(Version(None, 0), [], None)
    else node.(cur := node.history[|node.history| - 1], owner := None)
  }

  /** What a stored session would release: its recorded size change, while the node is flagged for it. */
  function Owed(nodes: map<NodeId, Node>, s: SessionId, info: Info): int {
    if info.nodeId in nodes && nodes[info.nodeId].owner == Some(s) then info.SizeDiff() else 0
  }

  ghost function Outstanding(nodes: map<NodeId, Node>, store: map<SessionId, Stored>): int {
    if store == map[] then 0
    else var s :| s in store; Owed(nodes, s, store[s].info) + Outstanding(nodes, store - {s})
  }

  lemma {:induction false} OutstandingRemove(nodes: map<NodeId, Node>, store: map<SessionId, Stored>, s: SessionId)
    requires s in store
    ensures Outstanding(nodes, store) == Owed(nodes, s, store[s].info) + Outstanding(nodes, store - {s})
    decreases |store|
  {
    var t :| t in store && Outstanding(nodes, store) == Owed(nodes, t, store[t].info) + Outstanding(nodes, store - {t});
    if t != s {
      OutstandingRemove(nodes, store - {t}, s);
      OutstandingRemove(nodes, store - {s}, t);
      assert store - {t} - {s} == store - {s} - {t};
    }
  }

  lemma {:induction false} OutstandingSame(nodes: map<NodeId, Node>, nodes': map<NodeId, Node>, store: map<SessionId, Stored>)
    requires forall s :: s in store ==> Owed(nodes, s, store[s].info) == Owed(nodes', s, store[s].info)
    ensures Outstanding(nodes, store) == Outstanding(nodes', store)
    decreases |store|
  {
    if store != map[] {
      var s :| s in store;
      OutstandingRemove(nodes, store, s);
      OutstandingRemove(nodes', store, s);
      OutstandingSame(nodes, nodes', store - {s});
    }
  }

  /** The upload of one session taken back, and the session with it. */
  function TakeBack(w: World, s: SessionId): World
    requires s in w.store
  {
    var n := w.store[s].info.nodeId;
    (if w.Owns(s, n) then w.(nodes := w.nodes[n := SettleNode(w.nodes[n])]) else w).Drop(s)
  }

  lemma TakeBackBalances(w: World, s: SessionId)
    requires AllBacked(w) && s in w.store
    ensures
      var w' := TakeBack(w, s);
      && AllBacked(w') && Settle(w'.nodes) == Settle(w.nodes)
      && Total(w.nodes) == Total(w'.nodes) + Owed(w.nodes, s, w.store[s].info)
  {
    var n, w' := w.store[s].info.nodeId, TakeBack(w, s);
    forall m | m in w'.nodes && w'.nodes[m].owner.Some?
      ensures Backed(w', m, w'.nodes[m].owner.value)
    {
      assert Backed(w, m, w.nodes[m].owner.value);
    }
    if w.Owns(s, n) {
      assert Backed(w, n, s);
      TotalSet(w.nodes, n, SettleNode(w.nodes[n]));
    }
  }

  lemma TakeBackOwed(w: World, s: SessionId)
    requires s in w.store
    ensures
      var w' := TakeBack(w, s);
      Outstanding(w.nodes, w.store) == Owed(w.nodes, s, w.store[s].info) + Outstanding(w'.nodes, w'.store)
  {
    OutstandingRemove(w.nodes, w.store, s);
    OutstandingSame(w.nodes, TakeBack(w, s).nodes, w.store - {s});
  }

  /** Flagged nodes and the sessions that own them pair up, so both sums see the same differences. */
  lemma {:induction false} SettledPlusOutstanding(w: World)
    requires AllBacked(w)
    ensures Total(w.nodes) == Total(Settle(w.nodes)) + Outstanding(w.nodes, w.store)
    decreases |w.store|
  {
    if w.store == map[] {
      forall n | n in w.nodes
        ensures w.nodes[n].owner.None?
      {
        assert w.nodes[n].owner.Some? ==> Backed(w, n, w.nodes[n].owner.value);
      }
      assert Settle(w.nodes) == w.nodes;
    } else {
      var s :| s in w.store;
      TakeBackBalances(w, s);
      TakeBackOwed(w, s);
      SettledPlusOutstanding(TakeBack(w, s));
    }
  }
}
