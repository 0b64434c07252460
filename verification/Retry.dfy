/** How often a commit is tried, what success means, and the one notice each outcome gives. */
module Retry {
  import opened Base
  import opened Lifecycle
  import opened Verdicts

  // ---------------------------------------------------------------- configuration

  /** Five seconds, in nanoseconds. */
  const DEFAULT_BACKOFF := 5_000_000_000

  /** What the driver configuration says about retries; zero when it says nothing. */
  datatype RetryConf = RetryConf(maxRetries: int, backoff: int)

  /** AsyncConfFromDriverConf, the retry settings. */
  function AsyncConfFromDriverConf(conf: Option<RetryConf>): RetryConf {
    match conf
    case None => RetryConf(0, 0)
    case Some(c) =>
      RetryConf(if c.maxRetries <= 0 then 3 else c.maxRetries,
                if c.backoff <= 0 then DEFAULT_BACKOFF else c.backoff)
  }

  /** A configured coordinator tries at least twice, except where the largest int wraps around. */
  lemma ConfiguredAttempts(cfg: Config, conf: RetryConf)
    requires Int64(conf.maxRetries)
    requires cfg.maxRetries == AsyncConfFromDriverConf(Some(conf)).maxRetries
    ensures Attempts(cfg) > 0 <==> conf.maxRetries != MAX_INT64
    ensures Attempts(cfg) > 0 ==> Attempts(cfg) >= 2
  {
  }

  /** Unset or senseless settings become three retries and five seconds; others are taken as they are. */
  lemma ConfiguredSettings(conf: RetryConf)
    ensures
      var c := AsyncConfFromDriverConf(Some(conf));
      && c.maxRetries == (if conf.maxRetries > 0 then conf.maxRetries else 3)
      && c.backoff == (if conf.backoff > 0 then conf.backoff else 5 * 1_000_000_000)
  {
  }

  lemma AttemptsPositive(cfg: Config)
    requires Int64(cfg.maxRetries)
    ensures Attempts(cfg) > 0 <==> 0 <= cfg.maxRetries < MAX_INT64
  {
  }

  // ---------------------------------------------------------------- counting attempts

  lemma CommitCounts(cfg: Config, w: World, id: SessionId, info: Info, ok: bool, a: Answers)
    requires id in w.store
    ensures
      var r := CommitOnce(cfg, w, id, info, ok, a);
      var one := if r.ok then 1 else 0;
      && (r.ok <==> ok && info.nodeId in w.nodes)
      && CommitCalls(r.world.trace, id) == CommitCalls(w.trace, id) + 1
      && Commits(r.world.trace, id) == Commits(w.trace, id) + one
      && Notices(r.world.trace, id) == Notices(w.trace, id) + (if cfg.publisher then one else 0)
      && Announced(r.world.trace, id) == Announced(w.trace, id) + (if cfg.publisher then one else 0)
      && (!r.ok ==> r.world.store == w.store && r.world.nodes == w.nodes)
  {
    CommitTrace(cfg, w, id, info, ok, a);
    var t1 := Then(w.trace, Commit(id, info.nodeId, w.store[id].bytes, info.size, info.ScanData(), ok && info.nodeId in w.nodes));
    var t2 := Then(t1, Unmark(id, info.nodeId, a.unmark));
    assert CommitCalls(t2, id) == CommitCalls(t1, id) && Notices(t2, id) == Notices(t1, id);
    assert Commits(t2, id) == Commits(t1, id) && Announced(t2, id) == Announced(t1, id);
  }

  /** From attempt k on: at most n - k calls, and success exactly when one of them succeeds. */
  lemma {:induction false} RetryCounts(cfg: Config, w: World, id: SessionId, info: Info, k: nat, n: nat, a: Answers)
    requires id in w.store && k < n
    ensures
      var r := CommitRetry(cfg, w, id, info, k, n, a);
      var one := if r.ok then 1 else 0;
      && (r.ok <==> info.nodeId in w.nodes && exists j :: k <= j < n && a.CommitOk(j))
      && CommitCalls(w.trace, id) < CommitCalls(r.world.trace, id) <= CommitCalls(w.trace, id) + (n - k)
      && Commits(r.world.trace, id) == Commits(w.trace, id) + one
      && Notices(r.world.trace, id) == Notices(w.trace, id) + (if cfg.publisher then one else 0)
      && Announced(r.world.trace, id) == Announced(w.trace, id) + (if cfg.publisher then one else 0)
      && (!r.ok ==> r.world.store == w.store)
    decreases n - k
  {
    CommitCounts(cfg, w, id, info, a.CommitOk(k), a);
    var r := CommitOnce(cfg, w, id, info, a.CommitOk(k), a);
    if !r.ok && k + 1 < n {
      RetryCounts(cfg, r.world, id, info, k + 1, n, a);
    }
  }

  /**
   * finishAsync runs the commit at most maxRetries + 1 times, and its success means a commit
   * succeeded, exactly when that sum is a positive number; otherwise it reports success
   * without having called the driver.
   */
  lemma FinishAsyncCommits(cfg: Config, w: World, id: SessionId, info: Info, a: Answers)
    requires id in w.store && Int64(cfg.maxRetries)
    ensures
      var r := FinishAsync(cfg, w, id, info, a);
      if 0 <= cfg.maxRetries < MAX_INT64 then
        && CommitCalls(r.world.trace, id) <= CommitCalls(w.trace, id) + cfg.maxRetries + 1
        && (r.ok <==> Commits(r.world.trace, id) == Commits(w.trace, id) + 1)
        && (r.ok <==> info.nodeId in w.nodes && exists j :: 0 <= j <= cfg.maxRetries && a.CommitOk(j))
      else
        r.ok && r.world == w
  {
    AttemptsPositive(cfg);
    if Attempts(cfg) > 0 {
      RetryCounts(cfg, w, id, info, 0, Attempts(cfg), a);
    }
  }

  // ---------------------------------------------------------------- one notice per outcome

  lemma UndoGivesNoNotice(w: World, id: SessionId, info: Info, diff: int, a: Answers, x: SessionId)
    ensures
      var w1 := Discard(w, id, info, diff, a);
      Notices(w1.trace, x) == Notices(w.trace, x) && Commits(w1.trace, x) == Commits(w.trace, x) && Announced(w1.trace, x) == Announced(w.trace, x)
    ensures
      var w2 := Revert(w, id, info, a);
      Notices(w2.trace, x) == Notices(w.trace, x) && Commits(w2.trace, x) == Commits(w.trace, x) && Announced(w2.trace, x) == Announced(w.trace, x)
  {
    DiscardSilent(w, id, info, diff, a, x);
    RevertSilent(w, id, info, a, x);
    var w1, w2 := RollbackUpload(w, id, info, diff, a.rollback), RollbackUpload(w, id, info, info.SizeDiff(), a.rollback);
    assert Notices(w1.trace, x) == Notices(w.trace, x) && Notices(w2.trace, x) == Notices(w.trace, x);
    assert Notices(UnmarkNode(w1, id, info.nodeId, a.unmark).trace, x) == Notices(w1.trace, x);
    assert Notices(UnmarkNode(w2, id, info.nodeId, a.unmark).trace, x) == Notices(w2.trace, x);
  }

  /**
   * Each outcome handled for a stored session attempts exactly one UploadReady, and it
   * announces success exactly when the bytes were committed in that step.  The one
   * exception is a Continue under a retry count that leaves no attempt: then nothing happens.
   */
  lemma OneNotice(cfg: Config, w: World, id: SessionId, verdict: Verdict, actor: string, a: Answers)
    requires id in w.store && cfg.publisher
    ensures
      var w' := VerdictStep(cfg, w, id, verdict, actor, a);
      if verdict.Continue? && Attempts(cfg) <= 0 then w' == w
      else
        && Notices(w'.trace, id) == Notices(w.trace, id) + 1
        && Announced(w'.trace, id) - Announced(w.trace, id) == Commits(w'.trace, id) - Commits(w.trace, id)
        && 0 <= Commits(w'.trace, id) - Commits(w.trace, id) <= 1
  {
    var info := w.store[id].info;
    match verdict
    case Continue =>
      if Attempts(cfg) > 0 {
        RetryCounts(cfg, w, id, info, 0, Attempts(cfg), a);
        var r := FinishAsync(cfg, w, id, info, a);
        UndoGivesNoNotice(r.world, id, info, 0, a, id);
      }
    case _ => UndoGivesNoNotice(w, id, info, info.SizeDiff(), a, id);
  }
}
