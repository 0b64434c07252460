/** What a finish achieves when every call it makes succeeds. */
module Success {
  import opened Base
  import opened Lifecycle

  /** The bytes a download of the node yields. */
  function Content(w: World, n: NodeId): Option<Bytes> {
    if n in w.nodes && w.nodes[n].cur.blob.Some? && w.nodes[n].cur.blob.value in w.blobs
    then Some(w.blobs[w.nodes[n].cur.blob.value]) else None
  }

  /** Every call up to the hand-over succeeds. */
  predicate CallsSucceed(cfg: Config, w: World, id: SessionId, info: Info, a: Answers)
    requires id in w.store
  {
    && RefusalOf(cfg, info, w.store[id].bytes, a).None?
    && (info.existed ==> info.nodeId in w.nodes)
    && (TouchesFirst(cfg, info) ==> a.touch.None? && a.touchedNode !in w.minted && a.touchedNode !in w.nodes)
    && a.prepare.None? && a.persist
  }

  function TargetNode(cfg: Config, info: Info, a: Answers): NodeId {
    if TouchesFirst(cfg, info) then a.touchedNode else info.nodeId
  }

  /** The replaced content, kept as the newest version. */
  function Kept(cfg: Config, w: World, info: Info, a: Answers): seq<Version> {
    if TouchesFirst(cfg, info) || info.nodeId !in w.nodes then []
    else if info.existed then w.nodes[info.nodeId].history + [w.nodes[info.nodeId].cur]
    else w.nodes[info.nodeId].history
  }

  function Growth(w: World, info: Info): int
    requires info.existed ==> info.nodeId in w.nodes
  {
    if info.existed then info.size - w.nodes[info.nodeId].cur.size else info.size
  }

  lemma TouchSucceeds(cfg: Config, w: World, id: SessionId, info: Info, a: Answers)
    requires id in w.store && CallsSucceed(cfg, w, id, info, a)
    ensures
      var n, r := TargetNode(cfg, info, a), TouchNode(cfg, w, id, info, a);
      && r.Done? && r.info.nodeId == n && r.info.existed == info.existed && r.info.size == info.size
      && r.world.store == w.store && r.world.used == w.used && r.world.blobs == w.blobs
      && r.world.nodes - {n} == w.nodes - {n}
      && NewDiff(r.world, r.info) == Growth(w, info)
      && (n in r.world.nodes || (!info.existed && cfg.prepareCreatesNode))
      && Kept(cfg, w, info, a) ==
           (if n !in r.world.nodes then []
            else if info.existed then r.world.nodes[n].history + [r.world.nodes[n].cur] else r.world.nodes[n].history)
  {
  }

  lemma PrepareSucceeds(cfg: Config, w: World, id: SessionId, info: Info, a: Answers)
    requires id in w.store && a.prepare.None? && a.persist
    requires info.nodeId in w.nodes || (!info.existed && cfg.prepareCreatesNode)
    ensures
      var n, r := info.nodeId, PrepareStage(cfg, w, id, info, a);
      && r.Done? && r.info.nodeId == n && r.info.existed == info.existed && r.info.SizeDiff() == NewDiff(w, info)
      && n in r.world.nodes && r.world.nodes - {n} == w.nodes - {n}
      && r.world.nodes[n] == Node(Version(Some(id), info.size),
           if n !in w.nodes then [] else if info.existed then w.nodes[n].history + [w.nodes[n].cur] else w.nodes[n].history,
           Some(id))
      && r.world.used == w.used + NewDiff(w, info) && r.world.blobs == w.blobs
      && r.world.store - {id} == w.store - {id}
  {
  }

  /** The node is prepared for this upload, its session knows by how much. */
  lemma StageSucceeds(cfg: Config, w: World, id: SessionId, info: Info, a: Answers)
    requires id in w.store && CallsSucceed(cfg, w, id, info, a)
    ensures
      var n, r := TargetNode(cfg, info, a), Stage(cfg, w, id, info, a);
      && r.Done? && r.info.nodeId == n && r.info.existed == info.existed && r.info.size == info.size && r.info.SizeDiff() == Growth(w, info)
      && n in r.world.nodes && r.world.nodes[n] == Node(Version(Some(id), info.size), Kept(cfg, w, info, a), Some(id))
      && r.world.nodes - {n} == w.nodes - {n}
      && r.world.used == w.used + Growth(w, info) && r.world.blobs == w.blobs
      && r.world.store - {id} == w.store - {id}
  {
    var body := w.store[id].bytes;
    var w0 := w.Note(Verified(id, body, info.checksum));
    var info0 := info.(sums := Some(AllSums(cfg, body)));
    TouchSucceeds(cfg, w0, id, info0, a);
    var t := TouchNode(cfg, w0, id, info0, a);
    PrepareSucceeds(cfg, t.world, id, t.info, a);
    assert Stage(cfg, w, id, info, a) == PrepareStage(cfg, t.world, id, t.info, a);
    assert Kept(cfg, w0, info0, a) == Kept(cfg, w, info, a) && Growth(w0, info0) == Growth(w, info);
  }

  lemma CommitSucceeds(cfg: Config, w: World, id: SessionId, info: Info, a: Answers)
    requires id in w.store && w.Owns(id, info.nodeId) && a.unmark
    ensures
      var n, r := info.nodeId, CommitOnce(cfg, w, id, info, true, a);
      && r.ok && r.world.nodes == w.nodes[n := w.nodes[n].(owner := None)] && r.world.used == w.used
      && r.world.blobs == w.blobs[id := w.store[id].bytes] && r.world.store == w.store - {id}
  {
  }

  lemma InlineFinish(cfg: Config, w: World, id: SessionId, info: Info, a: Answers)
    requires id in w.store && !Defers(cfg, info) && a.CommitOk(0) && Stage(cfg, w, id, info, a).Done?
    ensures
      var r := Stage(cfg, w, id, info, a);
      Finish(cfg, w, id, info, a) == Done(CommitOnce(cfg, r.world, id, r.info, true, a).world, r.info)
  {
  }

  /**
   * An inline finish in which every call succeeds does what an upload is for: the node
   * reads as the received body and accounts for the declared size, the replaced content is
   * kept as a version, no other node changes, and the session is gone.
   */
  lemma FinishPublishes(cfg: Config, w: World, id: SessionId, info: Info, a: Answers)
    requires id in w.store && CallsSucceed(cfg, w, id, info, a)
    requires !Defers(cfg, info) && a.CommitOk(0) && a.unmark
    ensures
      var n, r := TargetNode(cfg, info, a), Finish(cfg, w, id, info, a);
      && r.Done? && n in r.world.nodes
      && r.world.nodes[n] == Node(Version(Some(id), info.size), Kept(cfg, w, info, a), None)
      && Content(r.world, n) == Some(w.store[id].bytes)
      && r.world.nodes - {n} == w.nodes - {n}
      && r.world.used == w.used + Growth(w, info)
      && r.world.store == w.store - {id}
  {
    StageSucceeds(cfg, w, id, info, a);
    var r := Stage(cfg, w, id, info, a);
    InlineFinish(cfg, w, id, info, a);
    CommitSucceeds(cfg, r.world, id, r.info, a);
    var c, n := CommitOnce(cfg, r.world, id, r.info, true, a), r.info.nodeId;
    assert c.world.nodes - {n} == r.world.nodes - {n};
  }
}
