/**
 * Where the guarantees end.  Each assumption of the run theorems is shown to be exactly
 * what the step needs, and the states the coordinator cannot recover from are exhibited.
 */
module Limits {
  import opened Base
  import opened Lifecycle
  import opened Quota
  import opened Rollbacks
  import opened Success

  // ---------------------------------------------------------------- balance, step by step

  /** Preparing keeps the balance exactly when the node's previous size is subtracted or zero. */
  lemma PrepareBalances(w: World, id: SessionId, info: Info)
    requires w.used == Total(w.nodes) && (info.existed ==> info.nodeId in w.nodes)
    ensures
      var w' := PrepareNode(w, id, info);
      w'.used == Total(w'.nodes) <==>
      info.existed || info.nodeId !in w.nodes || w.nodes[info.nodeId].cur.size == 0
  {
    TotalSet(w.nodes, info.nodeId, PrepareNode(w, id, info).nodes[info.nodeId]);
  }

  /** Undoing keeps the balance exactly when the difference handed in is the node's own. */
  lemma UndoBalances(w: World, n: NodeId, existed: bool, diff: int)
    requires w.used == Total(w.nodes) && n in w.nodes
    ensures
      var w' := UndoNode(w, n, existed, diff);
      w'.used == Total(w'.nodes) <==>
      diff == w.nodes[n].cur.size - (if existed then Before(w.nodes[n]) else 0)
  {
    var node, w' := w.nodes[n], UndoNode(w, n, existed, diff);
    if existed && node.history != [] {
      TotalSet(w.nodes, n, w'.nodes[n]);
    } else {
      TotalRemove(w.nodes, n);
    }
  }

  /** After a successful PrepareUpload the accounts stand exactly when Persist or the rollback after it works. */
  lemma PersistOrRollback(cfg: Config, w: World, id: SessionId, info: Info, a: Answers)
    requires Aimed(w, id, info) && a.unmark && a.prepare.None?
    requires info.nodeId in w.nodes || (!info.existed && cfg.prepareCreatesNode)
    ensures Accounted(PrepareStage(cfg, w, id, info, a).world) <==> a.persist || a.rollback
  {
    if a.persist || a.rollback {
      PrepareKeeps(cfg, w, id, info, a);
    } else {
      var w' := PrepareStage(cfg, w, id, info, a).world;
      assert w'.Owns(id, info.nodeId) && !Backed(w', info.nodeId, id);
    }
  }

  /** An upload's size change is released a second time exactly when its flag could not be cleared. */
  lemma ReleasedTwiceWhen(w: World, id: SessionId, info: Info, a: Answers, b: Answers)
    requires w.Owns(id, info.nodeId) && a.rollback && b.rollback
    requires info.existed && w.nodes[info.nodeId].history != []
    ensures
      var w1 := Revert(w, id, info, a);
      var w2 := Discard(w1, id, info, info.SizeDiff(), b);
      && Releases(w1.trace, id) == Releases(w.trace, id) + 1
      && Releases(w2.trace, id) == Releases(w.trace, id) + (if a.unmark then 1 else 2)
      && w2.used == w.used - (if a.unmark then 1 else 2) * info.SizeDiff()
  {
  }

  // ---------------------------------------------------------------- what a reader finds

  /** A successful commit makes the node read as the upload exactly when the node still is this upload's. */
  lemma CommittedContent(cfg: Config, w: World, id: SessionId, info: Info, a: Answers)
    requires id in w.store && info.nodeId in w.nodes
    ensures
      var body, w' := w.store[id].bytes, CommitOnce(cfg, w, id, info, true, a).world;
      Content(w', info.nodeId) == Some(body) <==>
      w.nodes[info.nodeId].cur.blob == Some(id) || Content(w, info.nodeId) == Some(body)
  {
  }
}
