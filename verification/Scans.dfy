/**
 * Which antivirus result a commit is handed, read off the requests and events themselves:
 * the last one that reported no error, was for this storage and could be saved.
 */
module Scans {
  import opened Base
  import opened Lifecycle
  import opened Frames
  import opened Verdicts

  /** An antivirus result without an error, for this storage or for none in particular, that can be persisted. */
  predicate Recordable(cfg: Config, step: Step) {
    && step.StepFinished?
    && (cfg.mountId == "" || step.storage == "" || step.storage == cfg.mountId)
    && step.antivirus.Some? && step.antivirus.value.errorMsg == "" && step.a.persist
  }

  /** The last such result that met a stored session of x; the empty one if there was none. */
  function LastResult(cfg: Config, w: World, steps: seq<Step>, x: SessionId): Scan {
    if steps == [] then Scan("", None)
    else
      var k := |steps| - 1;
      if steps[k].id == x && Recordable(cfg, steps[k]) && x in Run(cfg, w, steps[..k]).store
      then Scan(steps[k].antivirus.value.description, Some(steps[k].antivirus.value.seconds))
      else LastResult(cfg, w, steps[..k], x)
  }

  lemma {:induction false} UnscannedKeeps(t: Trace, t': Trace, x: SessionId)
    requires Unscanned(t, t')
    ensures LastScan(t', x) == LastScan(t, x)
    decreases t'
  {
    if t' != t {
      UnscannedKeeps(t, t'.before, x);
    }
  }

  /** An antivirus result is saved exactly when it is recordable and the session is stored. */
  lemma StepFinishedSaves(cfg: Config, w: World, step: Step)
    requires step.StepFinished?
    ensures
      var w' := Next(cfg, w, step);
      if Recordable(cfg, step) && step.id in w.store then
        var r := step.antivirus.value;
        && step.id in w'.store && w'.store[step.id].info.ScanData() == Scan(r.description, Some(r.seconds))
        && w'.trace == Then(w.trace, ScanSaved(step.id, Scan(r.description, Some(r.seconds))))
      else
        w' == w
  {
  }

  lemma NextScan(cfg: Config, w: World, step: Step, x: SessionId)
    ensures
      LastScan(Next(cfg, w, step).trace, x) ==
        if step.id == x && Recordable(cfg, step) && x in w.store
        then Scan(step.antivirus.value.description, Some(step.antivirus.value.seconds))
        else LastScan(w.trace, x)
  {
    if step.StepFinished? {
      StepFinishedSaves(cfg, w, step);
    } else {
      NextLocal(cfg, w, step);
      UnscannedKeeps(w.trace, Next(cfg, w, step).trace, x);
    }
  }

  /** The verdict the trace holds is the last result among the steps. */
  lemma {:induction false} TraceHoldsLastResult(cfg: Config, w: World, steps: seq<Step>, x: SessionId)
    requires LastScan(w.trace, x) == UNSCANNED
    ensures LastScan(Run(cfg, w, steps).trace, x) == LastResult(cfg, w, steps, x)
  {
    if steps == [] {
    } else {
      var k := |steps| - 1;
      TraceHoldsLastResult(cfg, w, steps[..k], x);
      NextScan(cfg, Run(cfg, w, steps[..k]), steps[k], x);
    }
  }

  /** t' continues t, and every commit of x in between was handed this result. */
  predicate CommitsCarry(t: Trace, t': Trace, x: SessionId, scan: Scan) {
    || t' == t
    || (t'.Then? && CommitsCarry(t, t'.before, x, scan) && (t'.entry.Commit? && t'.entry.id == x ==> t'.entry.scan == scan))
  }

  lemma {:induction false} TravelsUnscanned(t: Trace, t': Trace, x: SessionId)
    requires Unscanned(t, t') && ScansTravel(t', x)
    ensures CommitsCarry(t, t', x, LastScan(t, x))
    decreases t'
  {
    if t' != t {
      TravelsUnscanned(t, t'.before, x);
      UnscannedKeeps(t, t'.before, x);
    }
  }

  lemma StepCarries(cfg: Config, w: World, step: Step, x: SessionId)
    requires ScansTravel(Next(cfg, w, step).trace, x)
    ensures CommitsCarry(w.trace, Next(cfg, w, step).trace, x, LastScan(w.trace, x))
  {
    if step.StepFinished? {
      StepFinishedSaves(cfg, w, step);
    } else {
      NextLocal(cfg, w, step);
      TravelsUnscanned(w.trace, Next(cfg, w, step).trace, x);
    }
  }

  /** Over any run, every commit of x is handed the last result among the steps before it. */
  lemma CommitsCarryLastResult(cfg: Config, w: World, steps: seq<Step>, x: SessionId, k: nat)
    requires (forall y :: Told(w, y)) && LastScan(w.trace, x) == UNSCANNED && k < |steps|
    ensures
      var w1 := Run(cfg, w, steps[..k]);
      CommitsCarry(w1.trace, Next(cfg, w1, steps[k]).trace, x, LastResult(cfg, w, steps[..k], x))
  {
    OneVerdict(cfg, w, steps[..k], x);
    OneVerdict(cfg, w, steps[..k], steps[k].id);
    NextTold(cfg, Run(cfg, w, steps[..k]), steps[k], x);
    TraceHoldsLastResult(cfg, w, steps[..k], x);
    StepCarries(cfg, Run(cfg, w, steps[..k]), steps[k], x);
  }
}
