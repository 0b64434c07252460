/**
 * What the trace of every run says about one upload, without any assumption on which
 * calls fail: it is committed at most once, announced as available at most once and only
 * if committed, and every commit carries the last antivirus verdict that was saved.
 */
module Verdicts {
  import opened Base
  import opened Lifecycle

  // ---------------------------------------------------------------- reading a trace

  /** Commits of x that succeeded. */
  function Commits(t: Trace, x: SessionId): nat {
    if t.Start? then 0
    else Commits(t.before, x) + if t.entry.Commit? && t.entry.id == x && t.entry.ok then 1 else 0
  }

  /** Calls of CommitUpload for x. */
  function CommitCalls(t: Trace, x: SessionId): nat {
    if t.Start? then 0 else CommitCalls(t.before, x) + if t.entry.Commit? && t.entry.id == x then 1 else 0
  }

  /** Attempts to publish UploadReady for x. */
  function Notices(t: Trace, x: SessionId): nat {
    if t.Start? then 0 else Notices(t.before, x) + if t.entry.Ready? && t.entry.notice.id == x then 1 else 0
  }

  /** Those of them that announce success. */
  function Announced(t: Trace, x: SessionId): nat {
    if t.Start? then 0
    else Announced(t.before, x) + if t.entry.Ready? && t.entry.notice.id == x && !t.entry.notice.failed then 1 else 0
  }

  /** The verdict saved last for x. */
  function LastScan(t: Trace, x: SessionId): Scan {
    if t.Start? then UNSCANNED
    else if t.entry.ScanSaved? && t.entry.id == x then t.entry.scan
    else LastScan(t.before, x)
  }

  /** Every commit of x was handed the verdict saved last before it. */
  predicate ScansTravel(t: Trace, x: SessionId) {
    t.Then? ==>
      && ScansTravel(t.before, x)
      && (t.entry.Commit? && t.entry.id == x ==> t.entry.scan == LastScan(t.before, x))
  }

  // ---------------------------------------------------------------- the invariant

  ghost predicate Told(w: World, x: SessionId) {
    && (x in w.store ==>
          && x in w.minted && x !in w.blobs && Commits(w.trace, x) == 0 && Announced(w.trace, x) == 0
          && w.store[x].info.ScanData() == LastScan(w.trace, x))
    && (x !in w.minted ==>
          x !in w.blobs && Commits(w.trace, x) == 0 && Announced(w.trace, x) == 0 && LastScan(w.trace, x) == UNSCANNED)
    && Announced(w.trace, x) <= Commits(w.trace, x) <= 1
    && ScansTravel(w.trace, x)
  }

  /** The blob of x is there exactly when x was committed. */
  predicate Archived(w: World, x: SessionId) {
    x in w.blobs <==> Commits(w.trace, x) == 1
  }

  /** The story of x goes on from w to w'. */
  ghost predicate Continues(w: World, w': World, x: SessionId) {
    Told(w', x) && (Archived(w, x) ==> Archived(w', x))
  }

  /** Nothing was said about x in between. */
  predicate Silent(t: Trace, t': Trace, x: SessionId) {
    && Commits(t', x) == Commits(t, x) && Announced(t', x) == Announced(t, x)
    && LastScan(t', x) == LastScan(t, x) && (ScansTravel(t, x) ==> ScansTravel(t', x))
  }

  lemma DiscardSilent(w: World, id: SessionId, info: Info, diff: int, a: Answers, x: SessionId)
    ensures Silent(w.trace, Discard(w, id, info, diff, a).trace, x)
  {
  }

  lemma RevertSilent(w: World, id: SessionId, info: Info, a: Answers, x: SessionId)
    ensures Silent(w.trace, Revert(w, id, info, a).trace, x)
  {
  }

  lemma DiscardTold(w: World, id: SessionId, info: Info, diff: int, a: Answers, x: SessionId)
    requires Told(w, x)
    ensures Continues(w, Discard(w, id, info, diff, a), x)
  {
  }

  /** A successful commit attempt counts once and is announced at most once, under the saved verdict. */
  lemma TrailCounts(cfg: Config, t: Trace, id: SessionId, info: Info, body: Bytes, good: bool, a: Answers, x: SessionId)
    requires info.ScanData() == LastScan(t, id)
    ensures
      var t' := CommitTrail(cfg, t, id, info, body, good, a);
      var one := if x == id && good then 1 else 0;
      && Commits(t', x) == Commits(t, x) + one
      && Announced(t', x) == Announced(t, x) + (if cfg.publisher then one else 0)
      && LastScan(t', x) == LastScan(t, x)
      && (ScansTravel(t, x) ==> ScansTravel(t', x))
  {
    var t1 := Then(t, Commit(id, info.nodeId, body, info.size, info.ScanData(), good));
    assert ScansTravel(t, x) ==> ScansTravel(t1, x);
    assert Silent(t1, Then(t1, Unmark(id, info.nodeId, a.unmark)), x);
  }

  /** One commit attempt keeps the story; success retires the session. */
  lemma CommitContinues(cfg: Config, w: World, id: SessionId, info: Info, ok: bool, a: Answers, x: SessionId)
    requires Told(w, x) && id in w.store && id !in w.blobs && info.ScanData() == LastScan(w.trace, id)
    ensures
      var r := CommitOnce(cfg, w, id, info, ok, a);
      Continues(w, r.world, x) && (!r.ok ==> r.world.store == w.store)
  {
    CommitTrace(cfg, w, id, info, ok, a);
    TrailCounts(cfg, w.trace, id, info, w.store[id].bytes, ok && info.nodeId in w.nodes, a, x);
  }

  lemma CommitTold(cfg: Config, w: World, id: SessionId, info: Info, ok: bool, a: Answers, x: SessionId)
    requires Told(w, x) && Told(w, id)
    requires id in w.store ==> info.ScanData() == w.store[id].info.ScanData()
    ensures
      var r := CommitOnce(cfg, w, id, info, ok, a);
      Continues(w, r.world, x) && Told(r.world, id) && (!r.ok ==> r.world.store == w.store)
  {
    if id in w.store {
      CommitContinues(cfg, w, id, info, ok, a, x);
      CommitContinues(cfg, w, id, info, ok, a, id);
    }
  }

  lemma {:induction false} RetryTold(cfg: Config, w: World, id: SessionId, info: Info, k: nat, n: nat, a: Answers, x: SessionId)
    requires Told(w, x) && Told(w, id) && k < n
    requires id in w.store ==> info.ScanData() == w.store[id].info.ScanData()
    ensures
      var r := CommitRetry(cfg, w, id, info, k, n, a);
      Continues(w, r.world, x) && Told(r.world, id) && (!r.ok ==> r.world.store == w.store)
    decreases n - k
  {
    CommitTold(cfg, w, id, info, a.CommitOk(k), a, x);
    var r := CommitOnce(cfg, w, id, info, a.CommitOk(k), a);
    if !r.ok && k + 1 < n {
      RetryTold(cfg, r.world, id, info, k + 1, n, a, x);
    }
  }

  lemma PrepareTold(cfg: Config, w: World, id: SessionId, info: Info, a: Answers, x: SessionId)
    requires Told(w, x) && id in w.store && info.ScanData() == w.store[id].info.ScanData()
    ensures
      var r := PrepareStage(cfg, w, id, info, a);
      Continues(w, r.world, x) && (r.Done? ==> r.info.ScanData() == info.ScanData())
  {
    var creates := !info.existed && cfg.prepareCreatesNode;
    if !(a.prepare.Some? || (info.nodeId !in w.nodes && !creates)) {
      var w1 := PrepareNode(w, id, info);
      assert Silent(w.trace, w1.trace, x);
      assert Continues(w, w1, x);
      var diff := NewDiff(w, info);
      DiscardTold(w1, id, info.WithOwner(a.preparedOwner).Record(diff, info.existed), diff, a, x);
    }
  }

  lemma TouchTold(cfg: Config, w: World, id: SessionId, info: Info, a: Answers, x: SessionId)
    requires Told(w, x)
    ensures
      var r := TouchNode(cfg, w, id, info, a);
      Continues(w, r.world, x) && (r.Done? ==> r.info.ScanData() == info.ScanData() && r.world.store == w.store)
  {
  }

  lemma StageTold(cfg: Config, w: World, id: SessionId, info: Info, a: Answers, x: SessionId)
    requires Told(w, x) && id in w.store && info.ScanData() == w.store[id].info.ScanData()
    ensures
      var r := Stage(cfg, w, id, info, a);
      Continues(w, r.world, x) && (r.Done? ==> r.info.ScanData() == info.ScanData())
  {
    var body := w.store[id].bytes;
    if RefusalOf(cfg, info, body, a).None? {
      var w0 := w.Note(Verified(id, body, info.checksum));
      assert Silent(w.trace, w0.trace, x);
      var info0 := info.(sums := Some(AllSums(cfg, body)));
      TouchTold(cfg, w0, id, info0, a, x);
      var r := TouchNode(cfg, w0, id, info0, a);
      if r.Done? {
        PrepareTold(cfg, r.world, id, r.info, a, x);
      }
    }
  }

  lemma FinishTold(cfg: Config, w: World, id: SessionId, info: Info, a: Answers, x: SessionId)
    requires Told(w, x) && Told(w, id) && id in w.store && info.ScanData() == w.store[id].info.ScanData()
    ensures Continues(w, Finish(cfg, w, id, info, a).world, x)
  {
    StageTold(cfg, w, id, info, a, x);
    StageTold(cfg, w, id, info, a, id);
    var r := Stage(cfg, w, id, info, a);
    if r.Done? {
      if Defers(cfg, r.info) {
        var w1 := r.world.Note(BytesReceived(id, r.info.nodeId, a.publish));
        assert Silent(r.world.trace, w1.trace, x);
        DiscardTold(w1, id, r.info, r.info.SizeDiff(), a, x);
      } else {
        CommitTold(cfg, r.world, id, r.info, a.CommitOk(0), a, x);
        var c := CommitOnce(cfg, r.world, id, r.info, a.CommitOk(0), a);
        DiscardTold(c.world, id, r.info, r.info.SizeDiff(), a, x);
      }
    }
  }

  lemma RevertTold(w: World, id: SessionId, info: Info, a: Answers, x: SessionId)
    requires Told(w, x)
    ensures Continues(w, Revert(w, id, info, a), x)
  {
  }

  lemma FailureTold(cfg: Config, w: World, id: SessionId, info: Info, actor: string, ok: bool, x: SessionId)
    requires Told(w, x)
    ensures Continues(w, Announce(cfg, w, NoticeOf(id, info, true, actor), ok), x)
  {
  }

  lemma VerdictTold(cfg: Config, w: World, id: SessionId, verdict: Verdict, actor: string, a: Answers, x: SessionId)
    requires Told(w, x) && Told(w, id) && id in w.store
    ensures Continues(w, VerdictStep(cfg, w, id, verdict, actor, a), x)
  {
    var info := w.store[id].info;
    match verdict
    case Continue =>
      if Attempts(cfg) > 0 {
        RetryTold(cfg, w, id, info, 0, Attempts(cfg), a, x);
        var r := FinishAsync(cfg, w, id, info, a);
        RevertTold(r.world, id, info, a, x);
        FailureTold(cfg, Revert(r.world, id, info, a), id, info, actor, a.ready, x);
      }
    case Delete =>
      DiscardTold(w, id, info, info.SizeDiff(), a, x);
      FailureTold(cfg, Discard(w, id, info, info.SizeDiff(), a), id, info, actor, a.ready, x);
    case _ =>
      RevertTold(w, id, info, a, x);
      FailureTold(cfg, Revert(w, id, info, a), id, info, actor, a.ready, x);
  }

  lemma InitiateTold(cfg: Config, w: World, step: Step, x: SessionId)
    requires Told(w, x) && Told(w, step.id) && step.Initiate?
    ensures Continues(w, Next(cfg, w, step), x)
  {
    if Fresh(w, step.id, step.info) && step.a.register {
      var w1 := Registered(w, step.id, step.info);
      assert Continues(w, w1, x) && Told(w1, step.id);
      if step.info.size == 0 {
        FinishTold(cfg, w1, step.id, step.info, step.a, x);
      }
    }
  }

  lemma PutTold(cfg: Config, w: World, step: Step, x: SessionId)
    requires Told(w, x) && Told(w, step.id) && step.Put? && step.id in w.store
    ensures Continues(w, Next(cfg, w, step), x)
  {
    if w.store[step.id].bytes == [] {
      var w1 := AppendTo(w, step.id, step.received);
      assert Continues(w, w1, x) && Told(w1, step.id);
      FinishTold(cfg, w1, step.id, w1.store[step.id].info, step.a, x);
    }
  }

  lemma NextTold(cfg: Config, w: World, step: Step, x: SessionId)
    requires Told(w, x) && Told(w, step.id)
    ensures Continues(w, Next(cfg, w, step), x)
  {
    if step.Initiate? {
      InitiateTold(cfg, w, step, x);
    } else if step.id in w.store {
      var info := w.store[step.id].info;
      match step
      case Put(_, _, _, _, _) => PutTold(cfg, w, step, x);
      case FinishTus(id, a) => FinishTold(cfg, w, id, info, a, x);
      case Terminate(id, a) => DiscardTold(w, id, info, info.SizeDiff(), a, x);
      case PostprocessingFinished(id, _, verdict, actor, a) => VerdictTold(cfg, w, id, verdict, actor, a, x);
      case CleanUpload(id, keep, a) =>
        DiscardTold(w, id, info, info.SizeDiff(), a, x);
        RevertTold(w, id, info, a, x);
      case _ =>
    }
  }

  /** Over any run: at most one commit and one announcement, and every commit under its verdict. */
  lemma {:induction false} OneVerdict(cfg: Config, w: World, steps: seq<Step>, x: SessionId)
    requires forall y :: Told(w, y)
    ensures Continues(w, Run(cfg, w, steps), x)
  {
    if steps == [] {
    } else {
      var k := |steps| - 1;
      OneVerdict(cfg, w, steps[..k], x);
      OneVerdict(cfg, w, steps[..k], steps[k].id);
      NextTold(cfg, Run(cfg, w, steps[..k]), steps[k], x);
    }
  }
}
