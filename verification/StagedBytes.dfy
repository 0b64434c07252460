/**
 * The bytes an upload has staged: they go exactly when a commit or a discarding rollback
 * succeeds.
 */
module StagedBytes {
  import opened Lifecycle
  import opened Frames
  import opened Retry

  /** The steps that may follow an asynchronous finish of x: anything but appending to x or finishing it again. */
  predicate Follows(w: World, step: Step, x: SessionId) {
    step.id == x ==> !step.Append? && !step.FinishTus? && (step.Put? && x in w.store ==> w.store[x].bytes != [])
  }

  /** The steps that let go of x: a commit that succeeds, or a rollback that succeeds where x is to be discarded. */
  predicate LetsGo(cfg: Config, w: World, step: Step, x: SessionId)
    requires x in w.store
  {
    && step.id == x
    && match step
       case Terminate(_, a) => a.rollback
       case CleanUpload(_, keep, a) => !keep && a.rollback
       case PostprocessingFinished(_, storage, verdict, _, a) =>
         && Serves(cfg, storage)
         && (|| (verdict.Delete? && a.rollback)
             || (verdict.Continue? && w.store[x].info.nodeId in w.nodes && exists k :: 0 <= k < Attempts(cfg) && a.CommitOk(k)))
       case _ => false
  }

  /** A Continue retires the session exactly when one of the attempts succeeds. */
  lemma ContinueFate(cfg: Config, w: World, x: SessionId, actor: string, a: Answers)
    requires x in w.store
    ensures
      var w' := VerdictStep(cfg, w, x, Continue, actor, a);
      if w.store[x].info.nodeId in w.nodes && exists k :: 0 <= k < Attempts(cfg) && a.CommitOk(k)
      then x !in w'.store else x in w'.store && w'.store[x] == w.store[x]
  {
    if Attempts(cfg) > 0 {
      RetryCounts(cfg, w, x, w.store[x].info, 0, Attempts(cfg), a);
      RetryLocal(cfg, w, x, w.store[x].info, 0, Attempts(cfg), a);
    }
  }

  lemma VerdictFate(cfg: Config, w: World, step: Step, x: SessionId)
    requires x in w.store && step.id == x && step.PostprocessingFinished? && Serves(cfg, step.storage)
    ensures
      var w' := Next(cfg, w, step);
      if LetsGo(cfg, w, step, x) then x !in w'.store else x in w'.store && w'.store[x] == w.store[x]
  {
    if step.verdict.Continue? {
      ContinueFate(cfg, w, x, step.actor, step.a);
    }
  }

  /** One step: the session goes exactly when the step lets it go, and otherwise keeps its bytes. */
  lemma StepFate(cfg: Config, w: World, step: Step, x: SessionId)
    requires x in w.store && x in w.minted && Follows(w, step, x)
    ensures
      var w' := Next(cfg, w, step);
      if LetsGo(cfg, w, step, x) then x !in w'.store else x in w'.store && w'.store[x].bytes == w.store[x].bytes
  {
    if step.id != x {
      OtherSession(cfg, w, step, x);
    } else if step.PostprocessingFinished? && Serves(cfg, step.storage) {
      VerdictFate(cfg, w, step, x);
    }
  }

  /** The run is one in which x is never let go. */
  predicate Held(cfg: Config, w: World, steps: seq<Step>, x: SessionId) {
    steps != [] ==>
      var k := |steps| - 1;
      Held(cfg, w, steps[..k], x) && HeldAt(cfg, Run(cfg, w, steps[..k]), steps[k], x)
  }

  predicate HeldAt(cfg: Config, w: World, step: Step, x: SessionId) {
    x in w.store && !LetsGo(cfg, w, step, x)
  }

  /** One more step decides whether the session is still there. */
  lemma FateStep(cfg: Config, w: World, step: Step, x: SessionId)
    requires x in w.minted && Follows(w, step, x)
    ensures
      var w' := Next(cfg, w, step);
      && x in w'.minted && (x in w'.store <==> HeldAt(cfg, w, step, x))
      && (x in w'.store ==> w'.store[x].bytes == w.store[x].bytes)
  {
    NextLocal(cfg, w, step);
    if x in w.store {
      StepFate(cfg, w, step, x);
    } else if x != step.id {
      OtherSession(cfg, w, step, x);
    }
  }

  /**
   * No lost bytes: over any run of such steps, the session and its bytes are still there
   * at the end exactly when no step of the run let it go.
   */
  lemma {:induction false} NoLostBytes(cfg: Config, w: World, steps: seq<Step>, x: SessionId)
    requires x in w.store && x in w.minted
    requires forall k :: 0 <= k < |steps| ==> Follows(Run(cfg, w, steps[..k]), steps[k], x)
    ensures
      var w' := Run(cfg, w, steps);
      && x in w'.minted
      && (x in w'.store ==> w'.store[x].bytes == w.store[x].bytes)
      && (x in w'.store <==> Held(cfg, w, steps, x))
  {
    if steps == [] {
    } else {
      var k := |steps| - 1;
      assert forall j :: 0 <= j < k ==> steps[..k][..j] == steps[..j];
      NoLostBytes(cfg, w, steps[..k], x);
      FateStep(cfg, Run(cfg, w, steps[..k]), steps[k], x);
    }
  }
}
