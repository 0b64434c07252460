/** The run theorems put together, for every storage that starts without uploads in flight. */
module Guarantees {
  import opened Base
  import opened Lifecycle
  import opened Quota
  import opened Verdicts
  import opened Rollbacks
  import opened Integrity
  import opened Checksums
  import opened AllOrNothing
  import opened Committed
  import opened Contested
  import opened Restarts
  import opened Success
  import opened Continued
  import opened Lengths
  import opened Scans
  import opened Outcomes

  /** A storage with no upload in flight; session ids are still to be minted. */
  ghost function Idle(nodes: map<NodeId, Node>, blobs: map<SessionId, Bytes>): World {
    World(nodes, blobs, Total(nodes), map[], nodes.Keys + blobs.Keys, Start)
  }

  ghost predicate Quiet(nodes: map<NodeId, Node>) {
    forall n :: n in nodes ==> nodes[n].owner.None?
  }

  lemma RunsCanStart(cfg: Config, nodes: map<NodeId, Node>, blobs: map<SessionId, Bytes>, x: SessionId)
    requires Quiet(nodes)
    ensures
      var w := Idle(nodes, blobs);
      && Accounted(w) && Marked(w) && Told(w, x) && Sound(cfg, w, x) && Aligned(w, x) && Unreleased(w, x)
      && (x !in blobs ==> Archived(w, x)) && Sole(w)
  {
  }

  lemma StoriesCanStart(cfg: Config, nodes: map<NodeId, Node>, blobs: map<SessionId, Bytes>)
    requires Quiet(nodes)
    ensures forall y :: Told(Idle(nodes, blobs), y)
  {
    forall y
      ensures Told(Idle(nodes, blobs), y)
    {
      RunsCanStart(cfg, nodes, blobs, y);
    }
  }

  // ---------------------------------------------------------------- whatever fails

  /**
   * Whatever fails, in whatever order requests and events arrive: an upload is committed at
   * most once, announced as available at most once and only if committed, its blob is there
   * exactly if it was committed, and every commit carries the antivirus verdict that was
   * saved last.
   */
  lemma EveryRun(cfg: Config, nodes: map<NodeId, Node>, blobs: map<SessionId, Bytes>, steps: seq<Step>, x: SessionId)
    requires Quiet(nodes)
    ensures
      var w := Run(cfg, Idle(nodes, blobs), steps);
      && Announced(w.trace, x) <= Commits(w.trace, x) <= 1 && ScansTravel(w.trace, x)
      && (x !in blobs ==> (x in w.blobs <==> Commits(w.trace, x) == 1))
  {
    StoriesCanStart(cfg, nodes, blobs);
    RunsCanStart(cfg, nodes, blobs, x);
    OneVerdict(cfg, Idle(nodes, blobs), steps, x);
  }

  /**
   * Whatever fails: every commit of x, in whichever step it happens, is handed the last
   * antivirus result before it that reported no error, was for this storage and could be
   * saved, or none.
   */
  lemma ScansReachCommits(cfg: Config, nodes: map<NodeId, Node>, blobs: map<SessionId, Bytes>, steps: seq<Step>, x: SessionId, k: nat)
    requires Quiet(nodes) && k < |steps|
    ensures
      var w, start := Run(cfg, Idle(nodes, blobs), steps[..k]), Idle(nodes, blobs);
      CommitsCarry(w.trace, Next(cfg, w, steps[k]).trace, x, LastResult(cfg, start, steps[..k], x))
  {
    StoriesCanStart(cfg, nodes, blobs);
    CommitsCarryLastResult(cfg, Idle(nodes, blobs), steps, x, k);
  }

  /**
   * Whatever fails: an outcome that commits nothing is announced as failed, with the node,
   * space, owner and target of the session and whether it had replaced a version.
   */
  lemma FailuresAnnounced(cfg: Config, nodes: map<NodeId, Node>, blobs: map<SessionId, Bytes>, steps: seq<Step>, id: SessionId, verdict: Verdict, actor: string, a: Answers)
    requires Quiet(nodes) && cfg.publisher && (id in Run(cfg, Idle(nodes, blobs), steps).store)
    requires verdict.Continue? ==> Attempts(cfg) > 0 && forall k :: 0 <= k < Attempts(cfg) ==> !a.CommitOk(k)
    requires Run(cfg, Idle(nodes, blobs), steps).store[id].info.Prepared()
    ensures
      var w := Run(cfg, Idle(nodes, blobs), steps);
      var info, w' := w.store[id].info, VerdictStep(cfg, w, id, verdict, actor, a);
      var notice := Notice(id, true, info.spaceOwner, info.target, info.spaceId, info.nodeId, info.existed, actor);
      w'.trace.Then? && w'.trace.entry == Ready(notice, a.ready)
  {
    RunsCanStart(cfg, nodes, blobs, id);
    LabelledRun(cfg, Idle(nodes, blobs), steps);
    FailureAnnounced(cfg, Run(cfg, Idle(nodes, blobs), steps), id, verdict, actor, a);
  }

  /**
   * Whatever other uploads do: as long as no finish of x fails both to persist and to roll
   * back, every call and event for x after its preparation is about the prepared node and
   * carries the difference it was prepared with.
   */
  lemma EveryUploadAddressed(cfg: Config, nodes: map<NodeId, Node>, blobs: map<SessionId, Bytes>, steps: seq<Step>, x: SessionId)
    requires Quiet(nodes)
    requires forall k :: 0 <= k < |steps| && steps[k].id == x ==> Recoverable(Run(cfg, Idle(nodes, blobs), steps[..k]), steps[k])
    ensures SameNode(Run(cfg, Idle(nodes, blobs), steps).trace, x)
  {
    RunsCanStart(cfg, nodes, blobs, x);
    AddressedNode(cfg, Idle(nodes, blobs), steps, x);
  }

  /** Whatever other uploads do: as long as the steps of x itself are benign, its size change is released at most once. */
  lemma EveryUploadReleased(cfg: Config, nodes: map<NodeId, Node>, blobs: map<SessionId, Bytes>, steps: seq<Step>, x: SessionId)
    requires Quiet(nodes)
    requires forall k :: 0 <= k < |steps| && steps[k].id == x ==> Benign(Run(cfg, Idle(nodes, blobs), steps[..k]), steps[k])
    ensures Releases(Run(cfg, Idle(nodes, blobs), steps).trace, x) <= 1
  {
    RunsCanStart(cfg, nodes, blobs, x);
    ReleasedOnce(cfg, Idle(nodes, blobs), steps, x);
  }

  /**
   * As long as nothing is appended to x once a non-empty body of it was accepted, every
   * commit of x hands over exactly the accepted body, whose digest is the announced one, and
   * what is staged for it still matches the checksum its session was initiated with.
   */
  lemma FaithfulRuns(cfg: Config, nodes: map<NodeId, Node>, blobs: map<SessionId, Bytes>, steps: seq<Step>, x: SessionId)
    requires Quiet(nodes)
    requires forall k :: 0 <= k < |steps| ==> Settled(Run(cfg, Idle(nodes, blobs), steps[..k]), steps[k], x)
    ensures
      var w := Run(cfg, Idle(nodes, blobs), steps);
      && Faithful(cfg, w.trace, x)
      && (x in w.store && Accepted(w.trace, x) ==> Matches(cfg, w.store[x].info.checksum, w.store[x].bytes))
  {
    RunsCanStart(cfg, nodes, blobs, x);
    EndToEnd(cfg, Idle(nodes, blobs), steps, x);
  }

  /**
   * Whatever fails, as long as no upload is finished over a node another upload is
   * processing: what a client can read, a node that is not flagged or an older version of
   * any node, was there at the start or has been committed.
   */
  lemma UncontestedReads(cfg: Config, nodes: map<NodeId, Node>, blobs: map<SessionId, Bytes>, steps: seq<Step>, n: NodeId, v: Version)
    requires Quiet(nodes) && Legible(Idle(nodes, blobs)) && UncontestedRun(cfg, Idle(nodes, blobs), steps)
    ensures
      var w := Run(cfg, Idle(nodes, blobs), steps);
      n in w.nodes && (v in w.nodes[n].history || (w.nodes[n].owner.None? && v == w.nodes[n].cur)) && v.blob.Some? ==>
      var x := v.blob.value;
      x in w.blobs && (x in blobs || Commits(w.trace, x) == 1)
  {
    var start := Idle(nodes, blobs);
    var w := Run(cfg, start, steps);
    StoriesCanStart(cfg, nodes, blobs);
    ReadsAreCommitted(cfg, start, steps);
    if n in w.nodes && v.blob.Some? {
      assert Readable(w, w.nodes[n]);
      EveryRun(cfg, nodes, blobs, steps, v.blob.value);
    }
  }

  /**
   * Whatever fails: once a new file has been taken back with its session kept, by an abort,
   * an unknown outcome, exhausted retries or a clean-up that keeps the upload, its node
   * never comes back and it is never committed, unless the upload is finished again.
   */
  lemma RevertedNewFile(cfg: Config, nodes: map<NodeId, Node>, blobs: map<SessionId, Bytes>, before: seq<Step>, step: Step, after: seq<Step>)
    requires Quiet(nodes) && TakesBack(cfg, step)
    requires
      var w := Run(cfg, Idle(nodes, blobs), before);
      && step.id in w.store && !w.store[step.id].info.existed && w.Owns(step.id, w.store[step.id].info.nodeId)
      && NotFinishedRun(cfg, Next(cfg, w, step), after, step.id)
    ensures
      var w := Run(cfg, Idle(nodes, blobs), before);
      var w' := Run(cfg, Next(cfg, w, step), after);
      w.store[step.id].info.nodeId !in w'.nodes && Commits(w'.trace, step.id) == 0
  {
    StoriesCanStart(cfg, nodes, blobs);
    RunsCanStart(cfg, nodes, blobs, step.id);
    OneVerdict(cfg, Idle(nodes, blobs), before, step.id);
    SoleRun(cfg, Idle(nodes, blobs), before);
    RestartKeepsNewFile(cfg, Run(cfg, Idle(nodes, blobs), before), step, after);
  }

  // ---------------------------------------------------------------- the accounts

  /**
   * Over benign runs the used bytes are what the nodes account for, equally the sizes one
   * version back on flagged nodes plus what the sessions in flight would release, and every
   * flagged node has a session that can undo it.
   */
  lemma BenignRuns(cfg: Config, nodes: map<NodeId, Node>, blobs: map<SessionId, Bytes>, steps: seq<Step>)
    requires Quiet(nodes) && BenignRun(cfg, Idle(nodes, blobs), steps)
    ensures
      var w := Run(cfg, Idle(nodes, blobs), steps);
      w.used == Total(w.nodes) == Total(Settle(w.nodes)) + Outstanding(w.nodes, w.store) && AllBacked(w)
  {
    RunsCanStart(cfg, nodes, blobs, 0);
    Conservation(cfg, Idle(nodes, blobs), steps);
    SettledPlusOutstanding(Run(cfg, Idle(nodes, blobs), steps));
  }

  /**
   * Over benign runs in which no upload is finished over a node another upload is
   * processing, the used bytes are the committed bytes plus what the sessions in flight
   * would release.
   */
  lemma UncontestedRuns(cfg: Config, nodes: map<NodeId, Node>, blobs: map<SessionId, Bytes>, steps: seq<Step>)
    requires Quiet(nodes) && Legible(Idle(nodes, blobs))
    requires BenignRun(cfg, Idle(nodes, blobs), steps) && UncontestedRun(cfg, Idle(nodes, blobs), steps)
    ensures
      var w := Run(cfg, Idle(nodes, blobs), steps);
      w.used == CommittedBytes(w, w.nodes) + Outstanding(w.nodes, w.store)
  {
    StoriesCanStart(cfg, nodes, blobs);
    RunsCanStart(cfg, nodes, blobs, 0);
    CommittedPlusOutstanding(cfg, Idle(nodes, blobs), steps);
  }

  /**
   * In every state such a run reaches: a Continue whose commit succeeds makes the node read
   * as the upload exactly when the upload has not been released before, and otherwise leaves
   * what the node reads as.
   */
  lemma UncontestedContinue(cfg: Config, nodes: map<NodeId, Node>, blobs: map<SessionId, Bytes>, steps: seq<Step>, x: SessionId, actor: string, a: Answers)
    requires Quiet(nodes) && Legible(Idle(nodes, blobs))
    requires BenignRun(cfg, Idle(nodes, blobs), steps) && UncontestedRun(cfg, Idle(nodes, blobs), steps)
    requires
      var w := Run(cfg, Idle(nodes, blobs), steps);
      x in w.store && w.store[x].info.Prepared() && w.store[x].info.nodeId in w.nodes
    requires exists k :: 0 <= k < Attempts(cfg) && a.CommitOk(k)
    ensures
      var w := Run(cfg, Idle(nodes, blobs), steps);
      var n, w' := w.store[x].info.nodeId, VerdictStep(cfg, w, x, Continue, actor, a);
      && n in w'.nodes && (w'.nodes[n].cur.blob == Some(x) <==> Releases(w.trace, x) == 0)
      && Content(w', n) == (if Releases(w.trace, x) == 0 then Some(w.store[x].bytes) else Content(w, n))
  {
    var start := Idle(nodes, blobs);
    StoriesCanStart(cfg, nodes, blobs);
    RunsCanStart(cfg, nodes, blobs, x);
    OneVerdict(cfg, start, steps, x);
    ReadsAreCommitted(cfg, start, steps);
    forall k | 0 <= k < |steps|
      ensures Benign(Run(cfg, start, steps[..k]), steps[k])
    {
      BenignAt(cfg, start, steps, k);
    }
    ReleasedOnce(cfg, start, steps, x);
    RetainedRun(cfg, start, steps, x);
    ContinueShows(cfg, Run(cfg, start, steps), x, actor, a);
  }

  /**
   * In every state any run can reach: a finish that reports an error, on a target no other
   * upload is processing, has left nodes, blobs and used bytes as they were and removed the
   * session, up to the flag of an overwritten node if that could not be cleared, or has
   * kept the session because the rollback itself failed.
   */
  lemma FailedFinishInAnyRun(cfg: Config, nodes: map<NodeId, Node>, blobs: map<SessionId, Bytes>, steps: seq<Step>, id: SessionId, a: Answers)
    requires Quiet(nodes)
    ensures
      var w := Run(cfg, Idle(nodes, blobs), steps);
      id in w.store && Undisturbed(cfg, w, w.store[id].info) ==>
      var r := Finish(cfg, w, id, w.store[id].info, a);
      r.Fail? ==> NothingLeft(w, r.world, id, w.store[id].info, a)
  {
    StoriesCanStart(cfg, nodes, blobs);
    OneVerdict(cfg, Idle(nodes, blobs), steps, id);
    var w := Run(cfg, Idle(nodes, blobs), steps);
    if id in w.store && Undisturbed(cfg, w, w.store[id].info) {
      FinishAllOrNothing(cfg, w, id, w.store[id].info, a);
    }
  }

  /**
   * Whatever fails, as long as every finished upload has received its declared length and
   * nothing arrives for it once it was prepared: every version, current or older, whose blob
   * is there accounts for exactly the bytes of the blob.
   */
  lemma CompleteRuns(cfg: Config, nodes: map<NodeId, Node>, blobs: map<SessionId, Bytes>, steps: seq<Step>, n: NodeId, v: Version)
    requires Quiet(nodes) && Measured(Idle(nodes, blobs)) && CompleteRun(cfg, Idle(nodes, blobs), steps)
    ensures
      var w := Run(cfg, Idle(nodes, blobs), steps);
      n in w.nodes && (v in w.nodes[n].history || v == w.nodes[n].cur) && v.blob.Some? && v.blob.value in w.blobs ==>
      |w.blobs[v.blob.value]| == v.size
  {
    StoriesCanStart(cfg, nodes, blobs);
    MeasuredRun(cfg, Idle(nodes, blobs), steps);
    var w := Run(cfg, Idle(nodes, blobs), steps);
    if n in w.nodes {
      assert Measures(w, w.nodes[n]);
    }
  }

  /**
   * Uploads finished over a node in processing can spoil the accounts although every call
   * succeeds: on any storage, two overwrites of one node are initiated and staged, the
   * second is deleted and the first terminated.  No session is left, and the used bytes are
   * off the committed ones by what the first upload added.
   */
  lemma ContestedRuns(cfg: Config, nodes: map<NodeId, Node>, blobs: map<SessionId, Bytes>, n: NodeId, x: SessionId, ix: Info, y: SessionId, iy: Info, actor: string)
    requires Quiet(nodes) && Legible(Idle(nodes, blobs)) && cfg.async && cfg.publisher
    requires n in nodes && Plain(ix, n) && Plain(iy, n) && x != y && x !in nodes.Keys + blobs.Keys && y !in nodes.Keys + blobs.Keys
    ensures
      var a := AllSucceeds();
      var steps := TwoRivals(x, ix, y, iy) + [FinishTus(x, a), FinishTus(y, a), PostprocessingFinished(y, "", Delete, actor, a), Terminate(x, a)];
      var w := Run(cfg, Idle(nodes, blobs), steps);
      && BenignRun(cfg, Idle(nodes, blobs), steps) && w.store == map[]
      && w.used == CommittedBytes(w, w.nodes) + ix.size - nodes[n].cur.size
  {
    var start, a := Idle(nodes, blobs), AllSucceeds();
    var last := [FinishTus(x, a), FinishTus(y, a), PostprocessingFinished(y, "", Delete, actor, a), Terminate(x, a)];
    RunsCanStart(cfg, nodes, blobs, x);
    RivalsArise(cfg, start, n, x, ix, y, iy);
    var w1 := Run(cfg, start, TwoRivals(x, ix, y, iy));
    Conservation(cfg, start, TwoRivals(x, ix, y, iy));
    SameContent(start, w1);
    ContestedRun(cfg, w1, x, y, a, a, actor);
    ContestedCharge(cfg, w1, x, y, a, a, actor);
    RunThen(cfg, start, TwoRivals(x, ix, y, iy), last);
    assert w1.store - {x, y} == map[];
  }
}
