/**
 * What happens to the node of an upload in flight while other uploads go on: as long as none
 * of them is finished over it, nothing.
 */
module Bystanders {
  import opened Base
  import opened Lifecycle
  import opened Frames
  import opened Quota
  import opened AllOrNothing

  // ---------------------------------------------------------------- other uploads

  /** The node, and whether x is committed, are as before. */
  predicate Leaves(w: World, w': World, n: NodeId, x: SessionId) {
    && n in w.nodes && n in w'.nodes && w'.nodes[n] == w.nodes[n]
    && (x in w'.blobs <==> x in w.blobs)
  }

  lemma UndoLeaves(w: World, y: SessionId, info: Info, diff: int, a: Answers, n: NodeId, x: SessionId)
    requires w.Owns(x, n) && x != y
    ensures Leaves(w, Discard(w, y, info, diff, a), n, x) && Leaves(w, Revert(w, y, info, a), n, x)
  {
  }

  lemma CommitLeaves(cfg: Config, w: World, y: SessionId, info: Info, ok: bool, a: Answers, n: NodeId, x: SessionId)
    requires w.Owns(x, n) && x != y
    ensures Leaves(w, CommitOnce(cfg, w, y, info, ok, a).world, n, x)
  {
  }

  lemma {:induction false} RetryLeaves(cfg: Config, w: World, y: SessionId, info: Info, k: nat, m: nat, a: Answers, n: NodeId, x: SessionId)
    requires w.Owns(x, n) && x != y && k < m
    ensures Leaves(w, CommitRetry(cfg, w, y, info, k, m, a).world, n, x)
    decreases m - k
  {
    CommitLeaves(cfg, w, y, info, a.CommitOk(k), a, n, x);
    var r := CommitOnce(cfg, w, y, info, a.CommitOk(k), a);
    if !r.ok && k + 1 < m {
      RetryLeaves(cfg, r.world, y, info, k + 1, m, a, n, x);
    }
  }

  lemma PrepareLeaves(cfg: Config, w: World, y: SessionId, info: Info, a: Answers, n: NodeId, x: SessionId)
    requires w.Owns(x, n) && x != y && y in w.store && info.nodeId != n
    ensures Leaves(w, PrepareStage(cfg, w, y, info, a).world, n, x)
  {
    var w1, diff := PrepareNode(w, y, info), NewDiff(w, info);
    UndoLeaves(w1, y, info.WithOwner(a.preparedOwner).Record(diff, info.existed), diff, a, n, x);
  }

  lemma StageLeaves(cfg: Config, w: World, y: SessionId, info: Info, a: Answers, n: NodeId, x: SessionId)
    requires w.Owns(x, n) && x != y && y in w.store && info.nodeId != n
    ensures Leaves(w, Stage(cfg, w, y, info, a).world, n, x)
  {
    var body := w.store[y].bytes;
    if RefusalOf(cfg, info, body, a).None? {
      var r := TouchNode(cfg, w.Note(Verified(y, body, info.checksum)), y, info.(sums := Some(AllSums(cfg, body))), a);
      if r.Done? {
        PrepareLeaves(cfg, r.world, y, r.info, a, n, x);
      }
    }
  }

  lemma FinishLeaves(cfg: Config, w: World, y: SessionId, info: Info, a: Answers, n: NodeId, x: SessionId)
    requires w.Owns(x, n) && x != y && y in w.store && info.nodeId != n
    ensures Leaves(w, Finish(cfg, w, y, info, a).world, n, x)
  {
    StageLeaves(cfg, w, y, info, a, n, x);
    var r := Stage(cfg, w, y, info, a);
    if r.Done? {
      HandOverLeaves(cfg, r.world, y, r.info, a, n, x);
    }
  }

  lemma HandOverLeaves(cfg: Config, w: World, y: SessionId, info: Info, a: Answers, n: NodeId, x: SessionId)
    requires w.Owns(x, n) && x != y
    ensures Leaves(w, HandOver(cfg, w, y, info, a).world, n, x)
  {
    if Defers(cfg, info) {
      UndoLeaves(w.Note(BytesReceived(y, info.nodeId, a.publish)), y, info, info.SizeDiff(), a, n, x);
    } else {
      var w1 := CommitOnce(cfg, w, y, info, a.CommitOk(0), a).world;
      CommitLeaves(cfg, w, y, info, a.CommitOk(0), a, n, x);
      UndoLeaves(w1, y, info, info.SizeDiff(), a, n, x);
    }
  }

  lemma VerdictLeaves(cfg: Config, w: World, y: SessionId, verdict: Verdict, actor: string, a: Answers, n: NodeId, x: SessionId)
    requires w.Owns(x, n) && x != y && y in w.store
    ensures Leaves(w, VerdictStep(cfg, w, y, verdict, actor, a), n, x)
  {
    var info := w.store[y].info;
    UndoLeaves(w, y, info, info.SizeDiff(), a, n, x);
    if verdict.Continue? && Attempts(cfg) > 0 {
      RetryLeaves(cfg, w, y, info, 0, Attempts(cfg), a, n, x);
      UndoLeaves(FinishAsync(cfg, w, y, info, a).world, y, info, 0, a, n, x);
    }
  }

  /** The step finishes an upload that is about n. */
  predicate FinishesOver(w: World, step: Step, n: NodeId) {
    || (Finishes(w, step) && w.store[step.id].info.nodeId == n)
    || (FinishesAtOnce(step) && Fresh(w, step.id, step.info) && step.info.nodeId == n)
  }

  /** A step of another upload, whatever fails, leaves a flagged node alone unless it finishes over it. */
  lemma NextLeaves(cfg: Config, w: World, step: Step, n: NodeId, x: SessionId)
    requires w.Owns(x, n) && step.id != x && !FinishesOver(w, step, n)
    ensures Leaves(w, Next(cfg, w, step), n, x)
  {
    var id := step.id;
    if step.Initiate? {
      if Fresh(w, id, step.info) && step.a.register && step.info.size == 0 {
        FinishLeaves(cfg, Registered(w, id, step.info), id, step.info, step.a, n, x);
      }
    } else if id in w.store {
      var info := w.store[id].info;
      match step
      case Put(_, received, _, _, a) =>
        if Finishes(w, step) {
          FinishLeaves(cfg, AppendTo(w, id, received), id, info, a, n, x);
        }
      case FinishTus(_, a) => FinishLeaves(cfg, w, id, info, a, n, x);
      case Terminate(_, a) => UndoLeaves(w, id, info, info.SizeDiff(), a, n, x);
      case PostprocessingFinished(_, _, verdict, actor, a) => VerdictLeaves(cfg, w, id, verdict, actor, a, n, x);
      case CleanUpload(_, _, a) => UndoLeaves(w, id, info, info.SizeDiff(), a, n, x);
      case _ =>
    }
  }

  // ---------------------------------------------------------------- an upload in flight

  /** The same upload, up to its length as declared and its antivirus verdict. */
  predicate SameUpload(s: Stored, s': Stored) {
    && s'.bytes == s.bytes
    && s'.info == s.info.(size := s'.info.size, scanResult := s'.info.scanResult, scanDate := s'.info.scanDate)
  }

  /** The upload is staged: its node is flagged for it, nothing is committed. */
  predicate InFlight(w: World, x: SessionId, stored: Stored, node: Node) {
    && x in w.store && SameUpload(stored, w.store[x]) && x !in w.blobs
    && node.owner == Some(x) && stored.info.nodeId in w.nodes && w.nodes[stored.info.nodeId] == node
  }

  /** What may happen to the upload itself: events that neither commit nor roll back. */
  predicate Waits(cfg: Config, step: Step) {
    match step
    case DeclareLength(_, _, _) => true
    case RestartPostprocessing(_, _) => true
    case StepFinished(_, _, _, _) => true
    case Terminate(_, a) => !a.rollback
    case CleanUpload(_, _, a) => !a.rollback
    case PostprocessingFinished(_, storage, verdict, _, a) =>
      Serves(cfg, storage) ==> !a.rollback && (verdict.Continue? ==> forall k :: 0 <= k < Attempts(cfg) ==> !a.CommitOk(k))
    case _ => false
  }

  predicate Bystands(cfg: Config, w: World, step: Step, x: SessionId, n: NodeId) {
    if step.id == x then Waits(cfg, step) else !FinishesOver(w, step, n)
  }

  predicate BystandersRun(cfg: Config, w: World, steps: seq<Step>, x: SessionId, n: NodeId) {
    steps != [] ==>
      var k := |steps| - 1;
      BystandersRun(cfg, w, steps[..k], x, n) && Bystands(cfg, Run(cfg, w, steps[..k]), steps[k], x, n)
  }

  lemma WaitingVerdict(cfg: Config, w: World, x: SessionId, verdict: Verdict, actor: string, a: Answers)
    requires x in w.store && x !in w.blobs && !a.rollback
    requires verdict.Continue? ==> forall k :: 0 <= k < Attempts(cfg) ==> !a.CommitOk(k)
    ensures SameState(w, VerdictStep(cfg, w, x, verdict, actor, a))
  {
    if verdict.Continue? && Attempts(cfg) > 0 {
      RetryFails(cfg, w, x, w.store[x].info, 0, Attempts(cfg), a);
    }
  }

  lemma WaitKeeps(cfg: Config, w: World, step: Step, stored: Stored, node: Node)
    requires InFlight(w, step.id, stored, node) && Waits(cfg, step)
    ensures InFlight(Next(cfg, w, step), step.id, stored, node)
  {
    match step
    case PostprocessingFinished(x, storage, verdict, actor, a) =>
      if Serves(cfg, storage) {
        WaitingVerdict(cfg, w, x, verdict, actor, a);
      }
    case _ =>
  }

  lemma {:induction false} StaysInFlight(cfg: Config, w: World, steps: seq<Step>, x: SessionId, stored: Stored, node: Node)
    requires InFlight(w, x, stored, node) && BystandersRun(cfg, w, steps, x, stored.info.nodeId)
    ensures InFlight(Run(cfg, w, steps), x, stored, node)
  {
    if steps == [] {
    } else {
      var k, n := |steps| - 1, stored.info.nodeId;
      var w1 := Run(cfg, w, steps[..k]);
      StaysInFlight(cfg, w, steps[..k], x, stored, node);
      if steps[k].id == x {
        WaitKeeps(cfg, w1, steps[k], stored, node);
      } else {
        NextLeaves(cfg, w1, steps[k], n, x);
        OtherSession(cfg, w1, steps[k], x);
      }
    }
  }
}
