/**
 * What one upload may do to its node, whatever happens to other uploads: its size change is
 * released at most once, and every driver call and event addresses the node that was
 * prepared and carries the size difference PrepareUpload reported.  Both are assumptions
 * about the upload's own steps only; steps of other uploads may fail in any way.
 */
module Rollbacks {
  import opened Base
  import opened Lifecycle
  import opened Frames
  import opened Quota

  // ---------------------------------------------------------------- reading a trace

  /** Rollbacks of x that reverted a node. */
  function Releases(t: Trace, x: SessionId): nat {
    if t.Start? then 0
    else Releases(t.before, x) + if t.entry.Rollback? && t.entry.id == x && t.entry.released then 1 else 0
  }

  datatype Prepared = Prepared(node: NodeId, diff: int)

  /** What PrepareUpload last did for x. */
  function Recorded(t: Trace, x: SessionId): Option<Prepared> {
    if t.Start? then None
    else if t.entry.Prepare? && t.entry.id == x then Some(Prepared(t.entry.node, t.entry.diff))
    else Recorded(t.before, x)
  }

  predicate Addresses(e: Entry, x: SessionId, p: Prepared) {
    && (e.Commit? && e.id == x ==> e.node == p.node)
    && (e.Unmark? && e.id == x ==> e.node == p.node)
    && (e.BytesReceived? && e.id == x ==> e.node == p.node)
    && (e.Rollback? && e.id == x ==> e.node == p.node && e.diff == p.diff)
    && (e.Ready? && e.notice.id == x ==> e.notice.nodeId == p.node)
  }

  /** Once x is prepared, everything said and done for it is about that node and that difference. */
  predicate SameNode(t: Trace, x: SessionId) {
    t.Then? ==>
      && SameNode(t.before, x)
      && (Recorded(t.before, x).Some? ==> Addresses(t.entry, x, Recorded(t.before, x).value))
  }

  /** What is said about another upload leaves all of this alone. */
  lemma {:induction false} OthersSilent(t: Trace, t': Trace, y: SessionId, x: SessionId)
    requires Only(t, t', y) && x != y
    ensures Releases(t', x) == Releases(t, x) && Recorded(t', x) == Recorded(t, x)
    ensures SameNode(t, x) ==> SameNode(t', x)
    decreases t'
  {
    if t' != t {
      OthersSilent(t, t'.before, y, x);
    }
  }

  // ---------------------------------------------------------------- the prepared node

  /** The stored record of x is what PrepareUpload last reported for it. */
  ghost predicate Aligned(w: World, x: SessionId) {
    && SameNode(w.trace, x)
    && (x !in w.minted ==> x !in w.store && Recorded(w.trace, x).None?)
    && (x in w.store ==>
          Recorded(w.trace, x) ==
            (if w.store[x].info.Prepared() then Some(Prepared(w.store[x].info.nodeId, w.store[x].info.SizeDiff())) else None))
  }

  /** Persist and the rollback after it do not both fail. */
  predicate Recoverable(w: World, step: Step) {
    Finishes(w, step) || FinishesAtOnce(step) ==> step.a.persist || step.a.rollback
  }

  /** The session in hand is what PrepareUpload was last told about. */
  predicate InHand(t: Trace, id: SessionId, info: Info, diff: int) {
    Recorded(t, id).Some? ==> Recorded(t, id).value == Prepared(info.nodeId, diff)
  }

  /** t' continues t without preparing, and is about the right node. */
  predicate Keeps(t: Trace, t': Trace, x: SessionId) {
    Recorded(t', x) == Recorded(t, x) && (SameNode(t, x) ==> SameNode(t', x))
  }

  lemma UndoAligned(w: World, id: SessionId, info: Info, diff: int, a: Answers)
    requires InHand(w.trace, id, info, diff)
    ensures
      var w' := Discard(w, id, info, diff, a);
      Keeps(w.trace, w'.trace, id) && w'.minted == w.minted && w'.store == (if a.rollback then w.store - {id} else w.store)
  {
    var w1 := RollbackUpload(w, id, info, diff, a.rollback);
    assert Keeps(w.trace, w1.trace, id);
    assert Keeps(w1.trace, UnmarkNode(w1, id, info.nodeId, a.unmark).trace, id);
  }

  lemma RevertAligned(w: World, id: SessionId, info: Info, a: Answers)
    requires InHand(w.trace, id, info, info.SizeDiff())
    ensures
      var w' := Revert(w, id, info, a);
      Keeps(w.trace, w'.trace, id) && w'.minted == w.minted && w'.store == w.store
  {
    var w1 := RollbackUpload(w, id, info, info.SizeDiff(), a.rollback);
    assert Keeps(w.trace, w1.trace, id);
    assert Keeps(w1.trace, UnmarkNode(w1, id, info.nodeId, a.unmark).trace, id);
  }

  lemma CommitAligned(cfg: Config, w: World, id: SessionId, info: Info, ok: bool, a: Answers)
    requires InHand(w.trace, id, info, info.SizeDiff())
    ensures
      var r := CommitOnce(cfg, w, id, info, ok, a);
      Keeps(w.trace, r.world.trace, id) && r.world.minted == w.minted && r.world.store == (if r.ok then w.store - {id} else w.store)
  {
    if id in w.store {
      CommitTrace(cfg, w, id, info, ok, a);
      var r := CommitOnce(cfg, w, id, info, ok, a);
      var t1 := Then(w.trace, Commit(id, info.nodeId, w.store[id].bytes, info.size, info.ScanData(), r.ok));
      assert Keeps(w.trace, t1, id);
      assert Keeps(t1, Then(t1, Unmark(id, info.nodeId, a.unmark)), id);
    }
  }

  lemma {:induction false} RetryAligned(cfg: Config, w: World, id: SessionId, info: Info, k: nat, n: nat, a: Answers)
    requires InHand(w.trace, id, info, info.SizeDiff()) && k < n
    ensures
      var r := CommitRetry(cfg, w, id, info, k, n, a);
      Keeps(w.trace, r.world.trace, id) && r.world.minted == w.minted && r.world.store == (if r.ok then w.store - {id} else w.store)
    decreases n - k
  {
    CommitAligned(cfg, w, id, info, a.CommitOk(k), a);
    var r := CommitOnce(cfg, w, id, info, a.CommitOk(k), a);
    if !r.ok && k + 1 < n {
      RetryAligned(cfg, r.world, id, info, k + 1, n, a);
    }
  }

  /** The one place where what is recorded changes: the session follows, or is discarded. */
  lemma PrepareAligned(cfg: Config, w: World, id: SessionId, info: Info, a: Answers)
    requires id in w.store && id in w.minted && SameNode(w.trace, id) && (a.persist || a.rollback)
    ensures Aligned(PrepareStage(cfg, w, id, info, a).world, id)
    ensures id in PrepareStage(cfg, w, id, info, a).world.minted
  {
    var diff, w1 := NewDiff(w, info), PrepareNode(w, id, info);
    var info1 := info.WithOwner(a.preparedOwner).Record(diff, info.existed);
    assert SameNode(w1.trace, id) && Recorded(w1.trace, id) == Some(Prepared(info.nodeId, diff));
    UndoAligned(w1, id, info1, diff, a);
  }

  lemma StageAligned(cfg: Config, w: World, id: SessionId, info: Info, a: Answers)
    requires id in w.store && id in w.minted && SameNode(w.trace, id) && (a.persist || a.rollback)
    ensures Aligned(Stage(cfg, w, id, info, a).world, id) && id in Stage(cfg, w, id, info, a).world.minted
  {
    var body := w.store[id].bytes;
    if RefusalOf(cfg, info, body, a).None? {
      var w0 := w.Note(Verified(id, body, info.checksum));
      assert SameNode(w0.trace, id);
      var r := TouchNode(cfg, w0, id, info.(sums := Some(AllSums(cfg, body))), a);
      if r.Done? {
        PrepareAligned(cfg, r.world, id, r.info, a);
      }
    }
  }

  lemma HandOverAligned(cfg: Config, w: World, id: SessionId, info: Info, a: Answers)
    requires Aligned(w, id) && id in w.minted && id in w.store && w.store[id].info == info
    ensures Aligned(HandOver(cfg, w, id, info, a).world, id)
  {
    if Defers(cfg, info) {
      var w1 := w.Note(BytesReceived(id, info.nodeId, a.publish));
      assert Keeps(w.trace, w1.trace, id);
      UndoAligned(w1, id, info, info.SizeDiff(), a);
    } else {
      CommitAligned(cfg, w, id, info, a.CommitOk(0), a);
      UndoAligned(CommitOnce(cfg, w, id, info, a.CommitOk(0), a).world, id, info, info.SizeDiff(), a);
    }
  }

  lemma FinishAligned(cfg: Config, w: World, id: SessionId, info: Info, a: Answers)
    requires id in w.store && id in w.minted && SameNode(w.trace, id) && (a.persist || a.rollback)
    ensures Aligned(Finish(cfg, w, id, info, a).world, id)
  {
    StageAligned(cfg, w, id, info, a);
    var r := Stage(cfg, w, id, info, a);
    if r.Done? {
      HandOverAligned(cfg, r.world, id, r.info, a);
    }
  }

  lemma VerdictAligned(cfg: Config, w: World, id: SessionId, verdict: Verdict, actor: string, a: Answers)
    requires Aligned(w, id) && id in w.store
    ensures Aligned(VerdictStep(cfg, w, id, verdict, actor, a), id)
  {
    var info := w.store[id].info;
    match verdict
    case Continue =>
      if Attempts(cfg) > 0 {
        RetryAligned(cfg, w, id, info, 0, Attempts(cfg), a);
        RevertAligned(FinishAsync(cfg, w, id, info, a).world, id, info, a);
      }
    case Delete => UndoAligned(w, id, info, info.SizeDiff(), a);
    case _ => RevertAligned(w, id, info, a);
  }

  lemma OwnAligned(cfg: Config, w: World, step: Step)
    requires Aligned(w, step.id) && Recoverable(w, step)
    ensures Aligned(Next(cfg, w, step), step.id)
  {
    var id := step.id;
    if step.Initiate? {
      if Fresh(w, id, step.info) && step.a.register && step.info.size == 0 {
        FinishAligned(cfg, Registered(w, id, step.info), id, step.info, step.a);
      }
    } else if id in w.store {
      var info := w.store[id].info;
      match step
      case Put(_, received, _, _, a) =>
        if Finishes(w, step) {
          FinishAligned(cfg, AppendTo(w, id, received), id, info, a);
        }
      case FinishTus(_, a) => FinishAligned(cfg, w, id, info, a);
      case Terminate(_, a) => UndoAligned(w, id, info, info.SizeDiff(), a);
      case PostprocessingFinished(_, _, verdict, actor, a) => VerdictAligned(cfg, w, id, verdict, actor, a);
      case CleanUpload(_, _, a) =>
        UndoAligned(w, id, info, info.SizeDiff(), a);
        RevertAligned(w, id, info, a);
      case _ =>
    }
  }

  lemma NextAligned(cfg: Config, w: World, step: Step, x: SessionId)
    requires Aligned(w, x) && (step.id == x ==> Recoverable(w, step))
    ensures Aligned(Next(cfg, w, step), x)
  {
    if step.id == x {
      OwnAligned(cfg, w, step);
    } else {
      var w' := Next(cfg, w, step);
      OtherSession(cfg, w, step, x);
      OthersSilent(w.trace, w'.trace, step.id, x);
    }
  }

  /**
   * Over any run: once x is prepared, every call and event for it is about the prepared node
   * and difference, as long as no finish of x fails to persist and to roll back.
   */
  lemma {:induction false} AddressedNode(cfg: Config, w: World, steps: seq<Step>, x: SessionId)
    requires Aligned(w, x)
    requires forall k :: 0 <= k < |steps| && steps[k].id == x ==> Recoverable(Run(cfg, w, steps[..k]), steps[k])
    ensures Aligned(Run(cfg, w, steps), x)
  {
    if steps == [] {
    } else {
      var k := |steps| - 1;
      assert forall j :: 0 <= j < k ==> steps[..k][..j] == steps[..j];
      AddressedNode(cfg, w, steps[..k], x);
      NextAligned(cfg, Run(cfg, w, steps[..k]), steps[k], x);
    }
  }

  // ---------------------------------------------------------------- released once

  /** A node flagged for x has not been released yet, and the stored session knows it. */
  ghost predicate Unreleased(w: World, x: SessionId) {
    && Releases(w.trace, x) <= 1
    && (x in w.store ==> x in w.minted)
    && (x !in w.minted || (x in w.store && !w.store[x].info.Prepared()) ==> Releases(w.trace, x) == 0)
    && forall n :: n in w.nodes && w.nodes[n].owner == Some(x) ==>
         x in w.store && w.store[x].info.Prepared() && w.store[x].info.nodeId == n && Releases(w.trace, x) == 0
  }

  /** A rollback in hand: it releases the node flagged for x, if there is one, and clears the flag. */
  lemma UndoReleases(w: World, id: SessionId, info: Info, diff: int, a: Answers)
    requires Unreleased(w, id) && id in w.store && info.nodeId == w.store[id].info.nodeId && a.unmark
    ensures Unreleased(Discard(w, id, info, diff, a), id)
    ensures Unreleased(Revert(w, id, info, a), id)
  {
    forall d | d == diff || d == info.SizeDiff()
      ensures
        var w1 := RollbackUpload(w, id, info, d, a.rollback);
        var w2 := UnmarkNode(w1, id, info.nodeId, true);
        Releases(w2.trace, id) == Releases(w1.trace, id) && (a.rollback ==> Unreleased(w2, id) && Unreleased(w2.Drop(id), id))
    {
      var w1 := RollbackUpload(w, id, info, d, a.rollback);
      var w2 := UnmarkNode(w1, id, info.nodeId, true);
      assert Releases(w2.trace, id) == Releases(w1.trace, id);
    }
  }

  lemma CommitReleases(cfg: Config, w: World, id: SessionId, info: Info, ok: bool, a: Answers)
    requires Unreleased(w, id) && id in w.store && info.nodeId == w.store[id].info.nodeId && a.unmark
    ensures
      var r := CommitOnce(cfg, w, id, info, ok, a);
      Unreleased(r.world, id) && (!r.ok ==> r.world.store == w.store)
  {
    CommitTrace(cfg, w, id, info, ok, a);
    var r := CommitOnce(cfg, w, id, info, ok, a);
    var t1 := Then(w.trace, Commit(id, info.nodeId, w.store[id].bytes, info.size, info.ScanData(), r.ok));
    assert Releases(Then(t1, Unmark(id, info.nodeId, a.unmark)), id) == Releases(t1, id) == Releases(w.trace, id);
  }

  lemma {:induction false} RetryReleases(cfg: Config, w: World, id: SessionId, info: Info, k: nat, n: nat, a: Answers)
    requires Unreleased(w, id) && id in w.store && info.nodeId == w.store[id].info.nodeId && a.unmark && k < n
    ensures
      var r := CommitRetry(cfg, w, id, info, k, n, a);
      Unreleased(r.world, id) && (!r.ok ==> r.world.store == w.store)
    decreases n - k
  {
    CommitReleases(cfg, w, id, info, a.CommitOk(k), a);
    var r := CommitOnce(cfg, w, id, info, a.CommitOk(k), a);
    if !r.ok && k + 1 < n {
      RetryReleases(cfg, r.world, id, info, k + 1, n, a);
    }
  }

  /** The session to be finished has prepared nothing yet. */
  ghost predicate Blank(w: World, id: SessionId) {
    Unreleased(w, id) && id in w.store && !w.store[id].info.Prepared()
  }

  lemma PrepareReleases(cfg: Config, w: World, id: SessionId, info: Info, a: Answers)
    requires Blank(w, id) && a.unmark && (a.persist || a.rollback)
    ensures Unreleased(PrepareStage(cfg, w, id, info, a).world, id)
  {
    PreparedReleases(w, id, info, a);
    if !a.persist {
      UnpersistedReleases(w, id, info, a);
    }
  }

  lemma PreparedReleases(w: World, id: SessionId, info: Info, a: Answers)
    requires Blank(w, id)
    ensures Unreleased(PreparedWorld(w, id, info, a), id)
  {
    assert Releases(PreparedWorld(w, id, info, a).trace, id) == 0;
  }

  lemma UnpersistedReleases(w: World, id: SessionId, info: Info, a: Answers)
    requires Blank(w, id) && a.unmark && a.rollback
    ensures
      var info1 := info.WithOwner(a.preparedOwner).Record(NewDiff(w, info), info.existed);
      Unreleased(Discard(PrepareNode(w, id, info), id, info1, NewDiff(w, info), a), id)
  {
    var wp := PreparedWorld(w, id, info, a);
    PreparedReleases(w, id, info, a);
    UndoReleases(wp, id, wp.store[id].info, NewDiff(w, info), a);
    UnpersistedDiscard(w, id, info, a);
  }

  lemma StageReleases(cfg: Config, w: World, id: SessionId, info: Info, a: Answers)
    requires Blank(w, id) && a.unmark && (a.persist || a.rollback)
    ensures Unreleased(Stage(cfg, w, id, info, a).world, id)
  {
    var body := w.store[id].bytes;
    if RefusalOf(cfg, info, body, a).None? {
      var w0 := w.Note(Verified(id, body, info.checksum));
      assert Blank(w0, id);
      var r := TouchNode(cfg, w0, id, info.(sums := Some(AllSums(cfg, body))), a);
      if r.Done? {
        assert Blank(r.world, id);
        PrepareReleases(cfg, r.world, id, r.info, a);
      }
    }
  }

  lemma HandOverReleases(cfg: Config, w: World, id: SessionId, info: Info, a: Answers)
    requires Unreleased(w, id) && id in w.store && w.store[id].info == info && a.unmark
    ensures Unreleased(HandOver(cfg, w, id, info, a).world, id)
  {
    if Defers(cfg, info) {
      var w1 := w.Note(BytesReceived(id, info.nodeId, a.publish));
      assert Unreleased(w1, id);
      UndoReleases(w1, id, info, info.SizeDiff(), a);
    } else {
      CommitReleases(cfg, w, id, info, a.CommitOk(0), a);
      var r := CommitOnce(cfg, w, id, info, a.CommitOk(0), a);
      if !r.ok {
        UndoReleases(r.world, id, info, info.SizeDiff(), a);
      }
    }
  }

  lemma FinishReleases(cfg: Config, w: World, id: SessionId, info: Info, a: Answers)
    requires Blank(w, id) && a.unmark && (a.persist || a.rollback)
    ensures Unreleased(Finish(cfg, w, id, info, a).world, id)
  {
    StageReleases(cfg, w, id, info, a);
    var r := Stage(cfg, w, id, info, a);
    if r.Done? {
      HandOverReleases(cfg, r.world, id, r.info, a);
    }
  }

  lemma VerdictReleases(cfg: Config, w: World, id: SessionId, verdict: Verdict, actor: string, a: Answers)
    requires Unreleased(w, id) && id in w.store && a.unmark
    ensures Unreleased(VerdictStep(cfg, w, id, verdict, actor, a), id)
  {
    var info := w.store[id].info;
    match verdict
    case Continue =>
      if Attempts(cfg) > 0 {
        RetryReleases(cfg, w, id, info, 0, Attempts(cfg), a);
        var r := FinishAsync(cfg, w, id, info, a);
        if !r.ok {
          UndoReleases(r.world, id, info, 0, a);
        }
      }
    case _ => UndoReleases(w, id, info, info.SizeDiff(), a);
  }

  lemma OwnReleases(cfg: Config, w: World, step: Step)
    requires Unreleased(w, step.id) && Benign(w, step)
    ensures Unreleased(Next(cfg, w, step), step.id)
  {
    var id := step.id;
    if step.Initiate? {
      if Fresh(w, id, step.info) && step.a.register {
        var w1 := Registered(w, id, step.info);
        assert Blank(w1, id);
        if step.info.size == 0 {
          FinishReleases(cfg, w1, id, step.info, step.a);
        }
      }
    } else if id in w.store {
      var info := w.store[id].info;
      match step
      case Put(_, received, _, _, a) =>
        var w1 := AppendTo(w, id, received);
        assert Unreleased(w1, id);
        if Finishes(w, step) {
          FinishReleases(cfg, w1, id, info, a);
        }
      case FinishTus(_, a) => FinishReleases(cfg, w, id, info, a);
      case Terminate(_, a) => UndoReleases(w, id, info, info.SizeDiff(), a);
      case PostprocessingFinished(_, _, verdict, actor, a) => VerdictReleases(cfg, w, id, verdict, actor, a);
      case CleanUpload(_, _, a) => UndoReleases(w, id, info, info.SizeDiff(), a);
      case _ =>
    }
  }

  lemma NextReleases(cfg: Config, w: World, step: Step, x: SessionId)
    requires Unreleased(w, x) && (step.id == x ==> Benign(w, step))
    ensures Unreleased(Next(cfg, w, step), x)
  {
    if step.id == x {
      OwnReleases(cfg, w, step);
    } else {
      var w' := Next(cfg, w, step);
      OtherSession(cfg, w, step, x);
      OthersSilent(w.trace, w'.trace, step.id, x);
    }
  }

  /**
   * Over any run: the size change of x is released at most once, as long as the steps of x
   * itself are benign.
   */
  lemma {:induction false} ReleasedOnce(cfg: Config, w: World, steps: seq<Step>, x: SessionId)
    requires Unreleased(w, x)
    requires forall k :: 0 <= k < |steps| && steps[k].id == x ==> Benign(Run(cfg, w, steps[..k]), steps[k])
    ensures Unreleased(Run(cfg, w, steps), x)
  {
    if steps == [] {
    } else {
      var k := |steps| - 1;
      assert forall j :: 0 <= j < k ==> steps[..k][..j] == steps[..j];
      ReleasedOnce(cfg, w, steps[..k], x);
      NextReleases(cfg, Run(cfg, w, steps[..k]), steps[k], x);
    }
  }
}
