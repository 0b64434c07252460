/**
 * What the processing flag is for: a client never reads content that was not committed, and
 * the used bytes are the committed bytes plus what the uploads in flight would release.
 * Both rest on no upload being finished over a node that another upload is processing,
 * which the coordinator does not check; Contested.dfy says exactly when such a finish
 * breaks the one and the other.
 */
module Committed {
  import opened Base
  import opened Lifecycle
  import opened Quota
  import opened Verdicts
  import opened AllOrNothing

  // ---------------------------------------------------------------- the invariants

  /** The bytes of a version are there; a touched file has none. */
  predicate Written(w: World, v: Version) {
    v.blob.Some? ==> v.blob.value in w.blobs
  }

  predicate AllWritten(w: World, vs: seq<Version>) {
    forall i :: 0 <= i < |vs| ==> Written(w, vs[i])
  }

  /** What is not flagged can be read, and so can every older version; what is flagged is its owner's upload. */
  predicate Readable(w: World, node: Node) {
    && AllWritten(w, node.history)
    && (Written(w, node.cur) || (node.owner.Some? && node.cur.blob == node.owner))
  }

  ghost predicate Legible(w: World) {
    forall n :: n in w.nodes ==> Readable(w, w.nodes[n])
  }

  /** The content of a flagged node is the upload it is flagged for. */
  ghost predicate Marked(w: World) {
    forall n :: n in w.nodes && w.nodes[n].owner.Some? ==> w.nodes[n].cur.blob == w.nodes[n].owner
  }

  /** w' can be read as w could; flags stay honest if they can be cleared. */
  ghost predicate StaysLegible(w: World, w': World, unmark: bool) {
    (Legible(w) ==> Legible(w')) && (Marked(w) && unmark ==> Marked(w'))
  }

  /** No upload is finished over a node another upload is processing. */
  predicate Uncontested(cfg: Config, w: World, step: Step) {
    && (Finishes(w, step) ==> Undisturbed(cfg, w, w.store[step.id].info))
    && (FinishesAtOnce(step) ==> Undisturbed(cfg, w, step.info))
  }

  predicate UncontestedRun(cfg: Config, w: World, steps: seq<Step>) {
    steps != [] ==>
      var k := |steps| - 1;
      UncontestedRun(cfg, w, steps[..k]) && Uncontested(cfg, Run(cfg, w, steps[..k]), steps[k])
  }

  // ---------------------------------------------------------------- each transition

  lemma RollbackLegible(w: World, id: SessionId, info: Info, diff: int, a: Answers)
    requires Legible(w) && a.rollback
    ensures
      var w' := UnmarkNode(RollbackUpload(w, id, info, diff, true), id, info.nodeId, a.unmark);
      StaysLegible(w, w', a.unmark)
  {
    var w1 := RollbackUpload(w, id, info, diff, true);
    var w' := UnmarkNode(w1, id, info.nodeId, a.unmark);
    if w.Owns(id, info.nodeId) {
      assert Readable(w, w.nodes[info.nodeId]);
    }
    forall n | n in w'.nodes
      ensures Readable(w', w'.nodes[n])
    {
      assert Readable(w, w.nodes[n]);
    }
  }

  lemma UndoLegible(w: World, id: SessionId, info: Info, diff: int, a: Answers)
    requires Legible(w)
    ensures StaysLegible(w, Discard(w, id, info, diff, a), a.unmark)
    ensures StaysLegible(w, Revert(w, id, info, a), a.unmark)
  {
    if a.rollback {
      RollbackLegible(w, id, info, diff, a);
      RollbackLegible(w, id, info, info.SizeDiff(), a);
    }
  }

  lemma CommitWrites(cfg: Config, w: World, id: SessionId, info: Info, ok: bool, a: Answers)
    requires id !in w.blobs
    ensures
      var n, r := info.nodeId, CommitOnce(cfg, w, id, info, ok, a);
      if r.ok then
        && r.world.blobs.Keys == w.blobs.Keys + {id}
        && r.world.nodes == (if a.unmark && w.Owns(id, n) then w.nodes[n := w.nodes[n].(owner := None)] else w.nodes)
      else
        r.world.blobs == w.blobs && r.world.nodes == w.nodes
  {
  }

  /** A commit writes the blob before it clears the flag. */
  lemma CommitLegible(cfg: Config, w: World, id: SessionId, info: Info, ok: bool, a: Answers)
    requires Legible(w) && id !in w.blobs
    ensures
      var r := CommitOnce(cfg, w, id, info, ok, a);
      StaysLegible(w, r.world, a.unmark) && (!r.ok ==> r.world.blobs == w.blobs)
  {
    CommitWrites(cfg, w, id, info, ok, a);
    var w' := CommitOnce(cfg, w, id, info, ok, a).world;
    forall n | n in w'.nodes
      ensures Readable(w', w'.nodes[n])
    {
      assert Readable(w, w.nodes[n]);
    }
  }

  lemma {:induction false} RetryLegible(cfg: Config, w: World, id: SessionId, info: Info, k: nat, n: nat, a: Answers)
    requires Legible(w) && id !in w.blobs && k < n
    ensures StaysLegible(w, CommitRetry(cfg, w, id, info, k, n, a).world, a.unmark)
    decreases n - k
  {
    CommitLegible(cfg, w, id, info, a.CommitOk(k), a);
    var r := CommitOnce(cfg, w, id, info, a.CommitOk(k), a);
    if !r.ok && k + 1 < n {
      RetryLegible(cfg, r.world, id, info, k + 1, n, a);
    }
  }

  /** The snapshot of a node that is not being processed can be read. */
  lemma PreparedLegible(w: World, id: SessionId, info: Info)
    requires Legible(w) && (info.existed && info.nodeId in w.nodes ==> w.nodes[info.nodeId].owner.None?)
    ensures StaysLegible(w, PrepareNode(w, id, info), true)
  {
    var n, w' := info.nodeId, PrepareNode(w, id, info);
    if n in w.nodes {
      assert Readable(w, w.nodes[n]);
    }
    forall m | m in w'.nodes
      ensures Readable(w', w'.nodes[m])
    {
      if m != n {
        assert Readable(w, w.nodes[m]);
      }
    }
  }

  lemma PrepareLegible(cfg: Config, w: World, id: SessionId, info: Info, a: Answers)
    requires id in w.store && Legible(w) && (info.existed && info.nodeId in w.nodes ==> w.nodes[info.nodeId].owner.None?)
    ensures StaysLegible(w, PrepareStage(cfg, w, id, info, a).world, a.unmark)
  {
    var creates := !info.existed && cfg.prepareCreatesNode;
    if a.prepare.Some? || (info.nodeId !in w.nodes && !creates) {
      UnpreparedLegible(w, id, info);
    } else {
      PreparedLegible(w, id, info);
      if a.persist {
        SameContent(PrepareNode(w, id, info), PrepareStage(cfg, w, id, info, a).world);
      } else {
        UnpersistedLegible(w, id, info, a);
      }
    }
  }

  lemma PrepareWritesNothing(cfg: Config, w: World, id: SessionId, info: Info, a: Answers)
    requires id in w.store
    ensures PrepareStage(cfg, w, id, info, a).world.blobs == w.blobs
  {
  }

  lemma UnpersistedLegible(w: World, id: SessionId, info: Info, a: Answers)
    requires Legible(w) && StaysLegible(w, PrepareNode(w, id, info), true)
    ensures
      var diff, w1 := NewDiff(w, info), PrepareNode(w, id, info);
      StaysLegible(w, Discard(w1, id, info.WithOwner(a.preparedOwner).Record(diff, info.existed), diff, a), a.unmark)
  {
    var diff, w1 := NewDiff(w, info), PrepareNode(w, id, info);
    UndoLegible(w1, id, info.WithOwner(a.preparedOwner).Record(diff, info.existed), diff, a);
  }

  lemma UnpreparedLegible(w: World, id: SessionId, info: Info)
    requires Legible(w)
    ensures StaysLegible(w, UnprepareNode(w, info).Drop(id), true)
  {
    var w' := UnprepareNode(w, info).Drop(id);
    forall n | n in w'.nodes
      ensures Readable(w', w'.nodes[n])
    {
      assert Readable(w, w.nodes[n]);
    }
  }

  lemma TouchLegible(cfg: Config, w: World, id: SessionId, info: Info, a: Answers)
    requires Legible(w) && id in w.store && Undisturbed(cfg, w, info)
    ensures
      var r := TouchNode(cfg, w, id, info, a);
      && StaysLegible(w, r.world, true) && r.world.blobs == w.blobs
      && (r.Done? ==> id in r.world.store && (r.info.existed && r.info.nodeId in r.world.nodes ==> r.world.nodes[r.info.nodeId].owner.None?))
  {
    var w' := TouchNode(cfg, w, id, info, a).world;
    forall n | n in w'.nodes
      ensures Readable(w', w'.nodes[n])
    {
      assert n in w.nodes ==> Readable(w, w.nodes[n]);
    }
  }

  lemma StageLegible(cfg: Config, w: World, id: SessionId, info: Info, a: Answers)
    requires id in w.store && Legible(w) && Undisturbed(cfg, w, info)
    ensures StaysLegible(w, Stage(cfg, w, id, info, a).world, a.unmark)
    ensures Stage(cfg, w, id, info, a).world.blobs == w.blobs
  {
    var body := w.store[id].bytes;
    if RefusalOf(cfg, info, body, a).None? {
      var w0, info0 := w.Note(Verified(id, body, info.checksum)), info.(sums := Some(AllSums(cfg, body)));
      SameContent(w, w0);
      TouchLegible(cfg, w0, id, info0, a);
      var r := TouchNode(cfg, w0, id, info0, a);
      if r.Done? {
        PrepareLegible(cfg, r.world, id, r.info, a);
        PrepareWritesNothing(cfg, r.world, id, r.info, a);
      }
    }
  }

  lemma HandOverLegible(cfg: Config, w: World, id: SessionId, info: Info, a: Answers)
    requires Legible(w) && id !in w.blobs
    ensures StaysLegible(w, HandOver(cfg, w, id, info, a).world, a.unmark)
  {
    if Defers(cfg, info) {
      var w1 := w.Note(BytesReceived(id, info.nodeId, a.publish));
      assert StaysLegible(w, w1, true);
      UndoLegible(w1, id, info, info.SizeDiff(), a);
    } else {
      CommitLegible(cfg, w, id, info, a.CommitOk(0), a);
      UndoLegible(CommitOnce(cfg, w, id, info, a.CommitOk(0), a).world, id, info, info.SizeDiff(), a);
    }
  }

  lemma FinishLegible(cfg: Config, w: World, id: SessionId, info: Info, a: Answers)
    requires id in w.store && id !in w.blobs && Legible(w) && Undisturbed(cfg, w, info)
    ensures StaysLegible(w, Finish(cfg, w, id, info, a).world, a.unmark)
  {
    StageLegible(cfg, w, id, info, a);
    var r := Stage(cfg, w, id, info, a);
    if r.Done? {
      HandOverLegible(cfg, r.world, id, r.info, a);
    }
  }

  lemma VerdictLegible(cfg: Config, w: World, id: SessionId, verdict: Verdict, actor: string, a: Answers)
    requires id in w.store && id !in w.blobs && Legible(w)
    ensures StaysLegible(w, VerdictStep(cfg, w, id, verdict, actor, a), a.unmark)
  {
    var info := w.store[id].info;
    UndoLegible(w, id, info, info.SizeDiff(), a);
    if verdict.Continue? && Attempts(cfg) > 0 {
      RetryLegible(cfg, w, id, info, 0, Attempts(cfg), a);
      UndoLegible(FinishAsync(cfg, w, id, info, a).world, id, info, 0, a);
    }
  }

  /** Only nodes and blobs decide what can be read. */
  lemma SameContent(w: World, w': World)
    requires w'.nodes == w.nodes && w'.blobs == w.blobs
    ensures StaysLegible(w, w', true)
  {
    assert Legible(w) ==> forall n :: n in w'.nodes ==> Readable(w, w.nodes[n]);
  }

  lemma NextLegible(cfg: Config, w: World, step: Step)
    requires Legible(w) && Told(w, step.id) && Uncontested(cfg, w, step)
    ensures StaysLegible(w, Next(cfg, w, step), AnswersOf(step).None? || step.a.unmark)
  {
    var id := step.id;
    if step.Initiate? {
      if Fresh(w, id, step.info) && step.a.register {
        var w1 := Registered(w, id, step.info);
        SameContent(w, w1);
        if step.info.size == 0 {
          FinishLegible(cfg, w1, id, step.info, step.a);
        }
      }
    } else if id in w.store {
      var info := w.store[id].info;
      match step
      case Put(_, received, _, _, a) =>
        var w1 := AppendTo(w, id, received);
        SameContent(w, w1);
        if Finishes(w, step) {
          FinishLegible(cfg, w1, id, info, a);
        }
      case FinishTus(_, a) => FinishLegible(cfg, w, id, info, a);
      case Terminate(_, a) => UndoLegible(w, id, info, info.SizeDiff(), a);
      case PostprocessingFinished(_, _, verdict, actor, a) => VerdictLegible(cfg, w, id, verdict, actor, a);
      case CleanUpload(_, _, a) => UndoLegible(w, id, info, info.SizeDiff(), a);
      case _ => SameContent(w, Next(cfg, w, step));
    }
  }

  // ---------------------------------------------------------------- whole runs

  /** Over every uncontested run, whatever fails, only committed content can be read. */
  lemma {:induction false} ReadsAreCommitted(cfg: Config, w: World, steps: seq<Step>)
    requires Legible(w) && (forall y :: Told(w, y)) && UncontestedRun(cfg, w, steps)
    ensures Legible(Run(cfg, w, steps))
    ensures Marked(w) && BenignRun(cfg, w, steps) ==> Marked(Run(cfg, w, steps))
  {
    if steps == [] {
    } else {
      var k := |steps| - 1;
      ReadsAreCommitted(cfg, w, steps[..k]);
      OneVerdict(cfg, w, steps[..k], steps[k].id);
      NextLegible(cfg, Run(cfg, w, steps[..k]), steps[k]);
    }
  }

  /** The length of the newest version whose bytes are there. */
  function CommittedSize(w: World, node: Node): int {
    if Written(w, node.cur) then node.cur.size else NewestWritten(w, node.history)
  }

  function NewestWritten(w: World, vs: seq<Version>): int {
    if vs == [] then 0
    else if Written(w, vs[|vs| - 1]) then vs[|vs| - 1].size
    else NewestWritten(w, vs[..|vs| - 1])
  }

  /** The bytes in use, had nothing been uploaded that is not committed. */
  ghost function CommittedBytes(w: World, m: map<NodeId, Node>): int {
    if m == map[] then 0 else var k :| k in m; CommittedSize(w, m[k]) + CommittedBytes(w, m - {k})
  }

  lemma {:induction false} CommittedRemove(w: World, m: map<NodeId, Node>, k: NodeId)
    requires k in m
    ensures CommittedBytes(w, m) == CommittedSize(w, m[k]) + CommittedBytes(w, m - {k})
    decreases |m|
  {
    var j :| j in m && CommittedBytes(w, m) == CommittedSize(w, m[j]) + CommittedBytes(w, m - {j});
    if j != k {
      CommittedRemove(w, m - {j}, k);
      CommittedRemove(w, m - {k}, j);
      assert m - {j} - {k} == m - {k} - {j};
    }
  }

  /** The node is what it is flagged for, and that is not committed yet. */
  predicate Honest(w: World, node: Node) {
    node.owner.Some? ==> node.cur.blob == node.owner && node.owner.value !in w.blobs
  }

  /** What a node accounts for once an upload in flight is taken back. */
  function SettledSize(node: Node): int {
    if node.owner.None? then node.cur.size else Before(node)
  }

  lemma SettledIsCommittedSize(w: World, node: Node)
    requires Readable(w, node) && Honest(w, node)
    ensures CommittedSize(w, node) == SettledSize(node)
  {
  }

  /** With honest flags, stepping back from the flagged uploads leaves exactly what is committed. */
  lemma {:induction false} SettledIsCommitted(w: World, m: map<NodeId, Node>)
    requires forall n :: n in m ==> Readable(w, m[n]) && Honest(w, m[n])
    ensures Total(Settle(m)) == CommittedBytes(w, m)
    decreases |m|
  {
    if m == map[] {
      assert Settle(m) == map[];
    } else {
      var k :| k in m;
      assert Settle(m) - {k} == Settle(m - {k});
      TotalRemove(Settle(m), k);
      CommittedRemove(w, m, k);
      SettledIsCommitted(w, m - {k});
      SettledIsCommittedSize(w, m[k]);
    }
  }

  /** Over every benign and uncontested run: used bytes are the committed bytes plus what is outstanding. */
  lemma CommittedPlusOutstanding(cfg: Config, w: World, steps: seq<Step>)
    requires Accounted(w) && Legible(w) && Marked(w) && (forall y :: Told(w, y))
    requires BenignRun(cfg, w, steps) && UncontestedRun(cfg, w, steps)
    ensures
      var w' := Run(cfg, w, steps);
      w'.used == CommittedBytes(w', w'.nodes) + Outstanding(w'.nodes, w'.store)
  {
    var w' := Run(cfg, w, steps);
    Conservation(cfg, w, steps);
    SettledPlusOutstanding(w');
    ReadsAreCommitted(cfg, w, steps);
    forall n | n in w'.nodes
      ensures Honest(w', w'.nodes[n])
    {
      if w'.nodes[n].owner.Some? {
        assert Backed(w', n, w'.nodes[n].owner.value);
        OneVerdict(cfg, w, steps, w'.nodes[n].owner.value);
      }
    }
    SettledIsCommitted(w', w'.nodes);
  }
}
