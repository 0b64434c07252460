/**
 * What each request and event comes to, in terms of what was asked and what the environment
 * answered: when a finish succeeds and with which error it fails, what it records, and what
 * the simpler requests and events change.
 */
module Outcomes {
  import opened Base
  import opened Lifecycle
  import opened Scalars
  import opened Checksums
  import opened Success
  import opened AllOrNothing

  // ---------------------------------------------------------------- when a finish succeeds

  /** The bytes can be read, match the announced checksum, and the preconditions of the client are well-formed. */
  predicate Acceptable(cfg: Config, info: Info, body: Bytes, a: Answers) {
    && a.readable && Matches(cfg, info.checksum, body)
    && (info.mtime == "" || MTimeToTime(info.mtime).ok) && !info.sinceMalformed
  }

  /** A file to be overwritten is still there; a new one can be touched under an unused id, unless preparing creates it. */
  predicate HasNode(cfg: Config, w: World, info: Info, a: Answers) {
    if info.existed then info.nodeId in w.nodes
    else !cfg.prepareCreatesNode ==> a.touch.None? && a.touchedNode !in w.minted && a.touchedNode !in w.nodes
  }

  /** The upload goes to postprocessing. */
  predicate Postponed(cfg: Config, info: Info) {
    cfg.async && cfg.publisher && info.size > 0
  }

  lemma StagesExactlyWhen(cfg: Config, w: World, id: SessionId, info: Info, a: Answers)
    requires id in w.store
    ensures
      Stage(cfg, w, id, info, a).Done? <==>
      Acceptable(cfg, info, w.store[id].bytes, a) && HasNode(cfg, w, info, a) && a.prepare.None? && a.persist
    ensures CallsSucceed(cfg, w, id, info, a) <==> Stage(cfg, w, id, info, a).Done?
  {
    RefusedExactlyWhen(cfg, info, w.store[id].bytes, a);
    if CallsSucceed(cfg, w, id, info, a) {
      StageSucceeds(cfg, w, id, info, a);
    }
  }

  /**
   * A finish succeeds exactly when the bytes are acceptable, there is a node to fill, every
   * call succeeds, and in the end the event is delivered or the commit succeeds.
   */
  lemma FinishSucceedsExactlyWhen(cfg: Config, w: World, id: SessionId, info: Info, a: Answers)
    requires id in w.store
    ensures
      Finish(cfg, w, id, info, a).Done? <==>
      && Acceptable(cfg, info, w.store[id].bytes, a) && HasNode(cfg, w, info, a) && a.prepare.None? && a.persist
      && (if Postponed(cfg, info) then a.publish else a.CommitOk(0))
  {
    StagesExactlyWhen(cfg, w, id, info, a);
    var r := Stage(cfg, w, id, info, a);
    if r.Done? {
      HandsOverExactlyWhen(cfg, r.world, id, r.info, a);
    }
  }

  lemma HandsOverExactlyWhen(cfg: Config, w: World, id: SessionId, info: Info, a: Answers)
    requires id in w.store && info.nodeId in w.nodes
    ensures HandOver(cfg, w, id, info, a).Done? <==> if Postponed(cfg, info) then a.publish else a.CommitOk(0)
  {
  }

  /** After a deferred success postprocessing has heard of the upload, which is kept with its node flagged. */
  lemma DeferredIsPublished(cfg: Config, w: World, id: SessionId, info: Info, a: Answers)
    requires id in w.store && Postponed(cfg, info) && Finish(cfg, w, id, info, a).Done?
    ensures
      var r := Finish(cfg, w, id, info, a);
      && r.world.trace.Then? && r.world.trace.entry == BytesReceived(id, r.info.nodeId, true)
      && r.world.Owns(id, r.info.nodeId) && id in r.world.store && r.world.store[id] == Stored(r.info, w.store[id].bytes)
  {
  }

  /** A finish that reports success has published the upload, or committed it and let its session go. */
  lemma SuccessMeans(cfg: Config, w: World, id: SessionId, info: Info, a: Answers)
    requires id in w.store && Finish(cfg, w, id, info, a).Done?
    ensures if Postponed(cfg, info) then a.publish else id !in Finish(cfg, w, id, info, a).world.store
  {
    FinishSucceedsExactlyWhen(cfg, w, id, info, a);
    if !Postponed(cfg, info) {
      InlineFinish(cfg, w, id, info, a);
    }
  }

  /** And one that could not be published is an error like any other. */
  lemma UnpublishedFails(cfg: Config, w: World, id: SessionId, info: Info, a: Answers)
    requires id in w.store && id !in w.blobs && Undisturbed(cfg, w, info) && Postponed(cfg, info) && !a.publish
    ensures Finish(cfg, w, id, info, a).Fail? && NothingLeft(w, Finish(cfg, w, id, info, a).world, id, info, a)
  {
    FinishSucceedsExactlyWhen(cfg, w, id, info, a);
    FinishAllOrNothing(cfg, w, id, info, a);
  }

  // ---------------------------------------------------------------- with which error

  /** The errors of a finish, by what went wrong first. */
  lemma FinishErrors(cfg: Config, w: World, id: SessionId, info: Info, a: Answers)
    requires id in w.store && Finish(cfg, w, id, info, a).Fail?
    ensures
      var e, body := Finish(cfg, w, id, info, a).error, w.store[id].bytes;
      && (!a.readable ==> e == Other(0))
      && (a.readable && !Matches(cfg, info.checksum, body) ==> Some(e) == ChecksumError(cfg, info.checksum, body))
      && (a.readable && Matches(cfg, info.checksum, body) && !Acceptable(cfg, info, body, a) ==> e == BadRequest)
      && (Acceptable(cfg, info, body, a) && info.existed ==>
            && (info.nodeId !in w.nodes && a.prepare.None? ==> e == NotFound)
            && (a.prepare.Some? ==> e == a.prepare.value))
  {
    RefusedExactlyWhen(cfg, info, w.store[id].bytes, a);
  }

  /** A new file whose parent is gone is a failed precondition, whichever call notices. */
  lemma VanishedParent(cfg: Config, w: World, id: SessionId, info: Info, a: Answers)
    requires id in w.store && !info.existed && Acceptable(cfg, info, w.store[id].bytes, a)
    requires if cfg.prepareCreatesNode then a.prepare == Some(NotFound) else a.touch == Some(NotFound)
    ensures Finish(cfg, w, id, info, a) == Fail(Finish(cfg, w, id, info, a).world, PreconditionFailed)
  {
    RefusedExactlyWhen(cfg, info, w.store[id].bytes, a);
  }

  /** A new file that appeared meanwhile is not overwritten, and other errors are passed on. */
  lemma TouchErrors(cfg: Config, w: World, id: SessionId, info: Info, a: Answers)
    requires id in w.store && !info.existed && !cfg.prepareCreatesNode && Acceptable(cfg, info, w.store[id].bytes, a)
    requires a.touch != Some(NotFound) && (a.touch.Some? || a.touchedNode in w.minted || a.touchedNode in w.nodes)
    ensures
      Finish(cfg, w, id, info, a) ==
        Fail(Finish(cfg, w, id, info, a).world, if a.touch.Some? then a.touch.value else AlreadyExists)
  {
    RefusedExactlyWhen(cfg, info, w.store[id].bytes, a);
  }

  // ---------------------------------------------------------------- what is recorded

  /** Touching a new file gives it the id, space and owner the driver answers with. */
  lemma TouchRecords(cfg: Config, w: World, id: SessionId, info: Info, a: Answers)
    requires TouchNode(cfg, w, id, info, a).Done?
    ensures
      var r, touched := TouchNode(cfg, w, id, info, a), !info.existed && !cfg.prepareCreatesNode;
      && r.info == info.(nodeId := r.info.nodeId, spaceId := r.info.spaceId, spaceOwner := r.info.spaceOwner)
      && r.info.nodeId == (if touched then a.touchedNode else info.nodeId)
      && r.info.spaceId == (if touched then a.touchedSpace else info.spaceId)
      && r.info.spaceOwner == (if touched && a.touchedOwner.Some? then a.touchedOwner.value else info.spaceOwner)
      && r.world.store == w.store
  {
  }

  /** Preparing records the owner, the growth, and whether a version was created. */
  lemma PrepareRecords(cfg: Config, w: World, id: SessionId, info: Info, a: Answers)
    requires id in w.store && PrepareStage(cfg, w, id, info, a).Done?
    ensures
      var r := PrepareStage(cfg, w, id, info, a).info;
      && r == info.(spaceOwner := r.spaceOwner, sizeDiff := r.sizeDiff, versionCreated := r.versionCreated)
      && r.spaceOwner == (if a.preparedOwner.Some? then a.preparedOwner.value else info.spaceOwner)
      && (r.VersionCreated() <==> info.existed) && r.SizeDiff() == NewDiff(w, info)
  {
  }

  /** A staged upload's record: the digests, the node, its space and owner, the growth, and whether it replaces a version. */
  lemma StageRecords(cfg: Config, w: World, id: SessionId, info: Info, a: Answers)
    requires id in w.store && Stage(cfg, w, id, info, a).Done?
    ensures
      var r, body, touched := Stage(cfg, w, id, info, a).info, w.store[id].bytes, !info.existed && !cfg.prepareCreatesNode;
      && r.sums == Some(Sums(cfg.digest(Sha1, body), cfg.digest(Md5, body), cfg.digest(Adler32, body)))
      && r.nodeId == (if touched then a.touchedNode else info.nodeId)
      && r.spaceId == (if touched then a.touchedSpace else info.spaceId)
      && r.spaceOwner == (if a.preparedOwner.Some? then a.preparedOwner.value
                          else if touched && a.touchedOwner.Some? then a.touchedOwner.value else info.spaceOwner)
      && (r.VersionCreated() <==> info.existed)
      && r == info.(sums := r.sums, nodeId := r.nodeId, spaceId := r.spaceId, spaceOwner := r.spaceOwner,
                    sizeDiff := r.sizeDiff, versionCreated := r.versionCreated)
  {
    var body := w.store[id].bytes;
    SumsAre(cfg, body);
    var w0, info0 := w.Note(Verified(id, body, info.checksum)), info.(sums := Some(AllSums(cfg, body)));
    TouchRecords(cfg, w0, id, info0, a);
    var t := TouchNode(cfg, w0, id, info0, a);
    PrepareRecords(cfg, t.world, id, t.info, a);
  }

  lemma SumsAre(cfg: Config, body: Bytes)
    ensures AllSums(cfg, body) == Sums(cfg.digest(Sha1, body), cfg.digest(Md5, body), cfg.digest(Adler32, body))
  {
  }

  // ---------------------------------------------------------------- what a commit does

  /** The commit is called with node, bytes, declared length and verdict; only then is the flag cleared, and only then the file announced. */
  lemma CommitOrder(cfg: Config, w: World, id: SessionId, info: Info, ok: bool, a: Answers)
    requires id in w.store
    ensures
      var r := CommitOnce(cfg, w, id, info, ok, a);
      var t1 := Then(w.trace, Commit(id, info.nodeId, w.store[id].bytes, info.size, info.ScanData(), r.ok));
      var t2 := Then(t1, Unmark(id, info.nodeId, a.unmark));
      var notice := Notice(id, false, info.spaceOwner, info.target, info.spaceId, info.nodeId, info.VersionCreated(), info.target.executant);
      r.world.trace == if !r.ok then t1 else if cfg.publisher then Then(t2, Ready(notice, a.ready)) else t2
  {
  }

  /** Clearing a flag succeeds exactly when the call does and the node is there; it matters only to the owner. */
  lemma UnmarkExactly(w: World, id: SessionId, n: NodeId, ok: bool)
    ensures
      var w' := UnmarkNode(w, id, n, ok);
      && w'.trace == Then(w.trace, Unmark(id, n, ok && n in w.nodes))
      && w' == w.(nodes := w'.nodes, trace := w'.trace) && w'.nodes - {n} == w.nodes - {n} && (n in w'.nodes <==> n in w.nodes)
      && (n in w.nodes ==> w'.nodes[n] == w.nodes[n].(owner := if ok && w.nodes[n].owner == Some(id) then None else w.nodes[n].owner))
  {
  }

  /** An inline finish announces the file as it was staged. */
  lemma InlineAnnounces(cfg: Config, w: World, id: SessionId, info: Info, a: Answers)
    requires id in w.store && cfg.publisher && !Postponed(cfg, info) && Finish(cfg, w, id, info, a).Done?
    ensures
      var r := Finish(cfg, w, id, info, a);
      var notice := Notice(id, false, r.info.spaceOwner, info.target, r.info.spaceId, r.info.nodeId, info.existed, info.target.executant);
      r.world.trace.Then? && r.world.trace.entry == Ready(notice, a.ready) && r.info == Stage(cfg, w, id, info, a).info
  {
    StageRecords(cfg, w, id, info, a);
    var r := Stage(cfg, w, id, info, a);
    CommitOrder(cfg, r.world, id, r.info, a.CommitOk(0), a);
  }

  // ---------------------------------------------------------------- initiating

  /** A non-empty upload waits for its bytes. */
  lemma InitiateWaits(cfg: Config, w: World, step: Step)
    requires step.Initiate? && Fresh(w, step.id, step.info) && step.info.size != 0
    ensures
      Next(cfg, w, step) ==
        if !step.a.register then w
        else w.(store := w.store[step.id := Stored(step.info, [])], minted := w.minted + {step.id, step.info.nodeId})
  {
  }

  /** A zero-length upload is there at once: the node reads as the empty file, is not flagged, and the session is gone. */
  lemma EmptyUploadPublishes(cfg: Config, w: World, step: Step)
    requires step.Initiate? && Fresh(w, step.id, step.info) && step.info.size == 0 && step.a.register
    requires Acceptable(cfg, step.info, [], step.a) && step.a.prepare.None? && step.a.persist && step.a.CommitOk(0) && step.a.unmark
    requires HasNode(cfg, Registered(w, step.id, step.info), step.info, step.a)
    ensures
      var w', n := Next(cfg, w, step), TargetNode(cfg, step.info, step.a);
      && Content(w', n) == Some([]) && n in w'.nodes && w'.nodes[n].owner.None? && w'.nodes[n].cur.size == 0
      && step.id !in w'.store
  {
    var w1 := Registered(w, step.id, step.info);
    StagesExactlyWhen(cfg, w1, step.id, step.info, step.a);
    FinishPublishes(cfg, w1, step.id, step.info, step.a);
  }

  /** And if any call fails nothing is left of it, up to what a failed rollback leaves. */
  lemma EmptyUploadFails(cfg: Config, w: World, step: Step)
    requires step.Initiate? && Fresh(w, step.id, step.info) && step.info.size == 0 && step.a.register
    requires step.id !in w.blobs && Undisturbed(cfg, w, step.info)
    requires !(&& Acceptable(cfg, step.info, [], step.a) && HasNode(cfg, Registered(w, step.id, step.info), step.info, step.a)
               && step.a.prepare.None? && step.a.persist && step.a.CommitOk(0))
    ensures NothingLeft(Registered(w, step.id, step.info), Next(cfg, w, step), step.id, step.info, step.a)
  {
    var w1 := Registered(w, step.id, step.info);
    FinishSucceedsExactlyWhen(cfg, w1, step.id, step.info, step.a);
    FinishAllOrNothing(cfg, w1, step.id, step.info, step.a);
  }

  // ---------------------------------------------------------------- receiving

  /** A PUT is refused once bytes have arrived, keeps what arrived of a short body, and finishes a whole one. */
  lemma PutExactly(cfg: Config, w: World, step: Step)
    requires step.Put? && step.id in w.store
    ensures
      var id, stored := step.id, w.store[step.id];
      var w1 := w.(store := w.store[id := Stored(stored.info, step.received)]);
      Next(cfg, w, step) ==
        if stored.bytes != [] then w
        else if step.complete && |step.received| == step.length then Finish(cfg, w1, id, stored.info, step.a).world
        else w1
  {
    assert [] + step.received == step.received;
  }

  lemma AppendExactly(cfg: Config, w: World, id: SessionId, received: Bytes)
    requires id in w.store
    ensures Next(cfg, w, Append(id, received)) == w.(store := w.store[id := Stored(w.store[id].info, w.store[id].bytes + received)])
  {
  }

  lemma DeclareLengthExactly(cfg: Config, w: World, id: SessionId, size: Size, a: Answers)
    requires id in w.store
    ensures
      var w' := Next(cfg, w, DeclareLength(id, size, a));
      && w' == w.(store := w'.store) && id in w'.store && w'.store - {id} == w.store - {id} && w'.store[id].bytes == w.store[id].bytes
      && w'.store[id].info == w.store[id].info.(size := if a.persist then size else w.store[id].info.size)
  {
  }

  // ---------------------------------------------------------------- events

  /** Events that name another storage are ignored. */
  lemma OtherStorage(cfg: Config, w: World, step: Step)
    requires (step.PostprocessingFinished? || step.StepFinished?) && cfg.mountId != "" && step.storage != "" && step.storage != cfg.mountId
    ensures Next(cfg, w, step) == w
  {
  }

  /** Outcomes that name this storage, or none, or reach a coordinator without a mount, are handled. */
  lemma ThisStorage(cfg: Config, w: World, step: Step)
    requires step.PostprocessingFinished? && (cfg.mountId == "" || step.storage == "" || step.storage == cfg.mountId)
    ensures step.id in w.store ==> Next(cfg, w, step) == VerdictStep(cfg, w, step.id, step.verdict, step.actor, step.a)
    ensures step.id !in w.store ==> Next(cfg, w, step) == w
  {
  }

  /** A restart publishes BytesReceived for the node of the session once more, and changes nothing. */
  lemma RestartPublishes(cfg: Config, w: World, id: SessionId, a: Answers)
    requires id in w.store
    ensures Next(cfg, w, RestartPostprocessing(id, a)) == w.(trace := Then(w.trace, BytesReceived(id, w.store[id].info.nodeId, a.publish)))
  {
  }

  /** The announcement of an outcome that committed nothing. */
  lemma FailureAnnounced(cfg: Config, w: World, id: SessionId, verdict: Verdict, actor: string, a: Answers)
    requires id in w.store && cfg.publisher
    requires verdict.Continue? ==> Attempts(cfg) > 0 && forall k :: 0 <= k < Attempts(cfg) ==> !a.CommitOk(k)
    ensures
      var info, w' := w.store[id].info, VerdictStep(cfg, w, id, verdict, actor, a);
      var notice := Notice(id, true, info.spaceOwner, info.target, info.spaceId, info.nodeId, info.VersionCreated(), actor);
      w'.trace.Then? && w'.trace.entry == Ready(notice, a.ready)
  {
    if verdict.Continue? {
      ExhaustedFails(cfg, w, id, w.store[id].info, 0, Attempts(cfg), a);
    }
  }

  lemma {:induction false} ExhaustedFails(cfg: Config, w: World, id: SessionId, info: Info, k: nat, n: nat, a: Answers)
    requires k < n && forall j :: k <= j < n ==> !a.CommitOk(j)
    ensures !CommitRetry(cfg, w, id, info, k, n, a).ok
    decreases n - k
  {
    var r := CommitOnce(cfg, w, id, info, a.CommitOk(k), a);
    if k + 1 < n {
      ExhaustedFails(cfg, r.world, id, info, k + 1, n, a);
    }
  }
}
