/**
 * The life of an upload, as one value-level transition per request and per event.
 *
 * World holds everything that outlives a request: the driver's nodes, blobs and used
 * bytes, the session store, and a trace of the driver calls and published events in
 * order.  What the environment decides (which call fails, which id is minted) comes in
 * as Answers.  The classes in Coordinator.dfy are proved to perform exactly these
 * transitions; the other modules prove what every run of them keeps.
 */
module Lifecycle {
  import opened Base
  import opened Decimal
  import opened Scalars
  import opened Text

  // ---------------------------------------------------------------- data

  type SessionId = nat
  type NodeId = nat
  newtype Byte = b: int | 0 <= b < 256
  type Bytes = seq<Byte>

  /** A declared length; the difference of two of them is an int64. */
  type Size = n: int | -0x4000_0000_0000_0000 <= n < 0x4000_0000_0000_0000

  datatype Error =
    | NotFound | PreconditionFailed | BadRequest | ChecksumMismatch
    | AlreadyExists | Aborted | PartialContent | Other(code: nat)

  /** Content of a node: the blob it points at, if any, and the length it accounts for. */
  datatype Version = Version(blob: Option<SessionId>, size: Size)

  /** owner is the session the node is flagged as processing for. */
  datatype Node = Node(cur: Version, history: seq<Version>, owner: Option<SessionId>)

  datatype Algorithm = Sha1 | Md5 | Adler32

  datatype Sums = Sums(sha1: string, md5: string, adler32: string)

  /** What is settled when the upload is initiated. */
  datatype Target = Target(providerId: string, parentId: string, dir: string, filename: string, executant: string)

  /** The antivirus verdict, its date to the second. */
  datatype Scan = Scan(result: string, date: Option<int>)

  const UNSCANNED := Scan("", None)

  /** The persisted session record.  An absent text reads as the empty string. */
  datatype Info = Info(
    target: Target, size: Size, nodeId: NodeId, existed: bool, spaceId: string, spaceOwner: string,
    checksum: string, mtime: string, sinceMalformed: bool, sums: Option<Sums>,
    sizeDiff: string, versionCreated: string, scanResult: string, scanDate: Option<int>)
  {
    function SizeDiff(): int {
      ParseInt(sizeDiff).value
    }

    predicate VersionCreated() {
      versionCreated == "true"
    }

    function ScanData(): Scan {
      if scanDate.None? then UNSCANNED else Scan(scanResult, scanDate)
    }

    /** A finish has got as far as recording what PrepareUpload reported. */
    predicate Prepared() {
      sizeDiff != ""
    }

    /** SetSizeDiff and SetVersionCreated. */
    function Record(diff: int, created: bool): (i: Info)
      requires Int64(diff)
      ensures i.SizeDiff() == diff && i.VersionCreated() == created && i.Prepared()
      ensures i == this.(sizeDiff := i.sizeDiff, versionCreated := i.versionCreated)
    {
      ParseFormat(diff);
      this.(sizeDiff := FormatInt(diff), versionCreated := if created then "true" else "false")
    }

    function WithOwner(owner: Option<string>): Info {
      if owner.Some? then this.(spaceOwner := owner.value) else this
    }
  }

  /** The two files of a session. */
  datatype Stored = Stored(info: Info, bytes: Bytes)

  /** The payload of UploadReady, its timestamp aside. */
  datatype Notice = Notice(
    id: SessionId, failed: bool, spaceOwner: string, target: Target, spaceId: string, nodeId: NodeId,
    isVersion: bool, actor: string)

  datatype Entry =
    | Verified(id: SessionId, body: Bytes, announced: string)
    | Prepare(id: SessionId, node: NodeId, diff: int)
    | Commit(id: SessionId, node: NodeId, body: Bytes, length: Size, scan: Scan, ok: bool)
    | Rollback(id: SessionId, node: NodeId, diff: int, ok: bool, released: bool)
    | Unmark(id: SessionId, node: NodeId, ok: bool)
    | ScanSaved(id: SessionId, scan: Scan)
    | BytesReceived(id: SessionId, node: NodeId, delivered: bool)
    | Ready(notice: Notice, delivered: bool)

  /** Everything that happened, the newest entry outermost. */
  datatype Trace = Start | Then(before: Trace, entry: Entry)

  datatype World = World(
    nodes: map<NodeId, Node>, blobs: map<SessionId, Bytes>, used: int,
    store: map<SessionId, Stored>, minted: set<nat>, trace: Trace)
  {
    function Note(e: Entry): World {
      this.(trace := Then(trace, e))
    }

    /** Cleanup: both session files go. */
    function Drop(id: SessionId): World {
      this.(store := store - {id})
    }

    predicate Owns(id: SessionId, n: NodeId) {
      n in nodes && nodes[n].owner == Some(id)
    }
  }

  datatype Config = Config(
    async: bool, publisher: bool, prepareCreatesNode: bool, mountId: string, maxRetries: int,
    digest: (Algorithm, Bytes) -> string)

  /** What the environment answers during one step; None means the call succeeded. */
  datatype Answers = Answers(
    readable: bool,
    touch: Option<Error>, touchedNode: NodeId, touchedSpace: string, touchedOwner: Option<string>,
    prepare: Option<Error>, preparedOwner: Option<string>,
    register: bool, persist: bool, publish: bool, commits: seq<bool>, rollback: bool, unmark: bool, ready: bool)
  {
    predicate CommitOk(k: nat) {
      k < |commits| && commits[k]
    }
  }

  // ---------------------------------------------------------------- driver

  /** RollbackUpload on a node this session owns. */
  function UndoNode(w: World, n: NodeId, existed: bool, diff: int): World
    requires n in w.nodes
  {
    var node := w.nodes[n];
    var nodes' :=
      if existed && node.history != [] then
        var last := |node.history| - 1;
        w.nodes[n := node.(cur := node.history[last], history := node.history[..last])]
      else
        w.nodes - {n};
    w.(nodes := nodes', used := w.used - diff)
  }

  function RollbackUpload(w: World, id: SessionId, info: Info, diff: int, ok: bool): World {
    var n := info.nodeId;
    var hit := ok && w.Owns(id, n);
    (if hit then UndoNode(w, n, info.existed, diff) else w).Note(Rollback(id, n, diff, ok, hit))
  }

  /** MarkProcessing with processing=false. */
  function UnmarkNode(w: World, id: SessionId, n: NodeId, ok: bool): World {
    (if ok && w.Owns(id, n) then w.(nodes := w.nodes[n := w.nodes[n].(owner := None)]) else w)
      .Note(Unmark(id, n, ok && n in w.nodes))
  }

  function NewDiff(w: World, info: Info): (d: int)
    ensures Int64(d)
  {
    if info.existed && info.nodeId in w.nodes then info.size - w.nodes[info.nodeId].cur.size else info.size
  }

  /** A successful PrepareUpload: snapshot, new metadata, flag and size propagation together. */
  function PrepareNode(w: World, id: SessionId, info: Info): World {
    var n := info.nodeId;
    var past :=
      if n !in w.nodes then []
      else if info.existed then w.nodes[n].history + [w.nodes[n].cur]
      else w.nodes[n].history;
    w.(nodes := w.nodes[n := Node(Version(Some(id), info.size), past, Some(id))],
       used := w.used + NewDiff(w, info),
       minted := w.minted + {n})
      .Note(Prepare(id, n, NewDiff(w, info)))
  }

  /** A failed PrepareUpload has purged the node it was to fill, unless that was there before. */
  function UnprepareNode(w: World, info: Info): World {
    if info.existed then w else w.(nodes := w.nodes - {info.nodeId})
  }

  // ---------------------------------------------------------------- coordinator

  /** rollbackPrepared, and Terminate: undo the node, then discard the session. */
  function Discard(w: World, id: SessionId, info: Info, diff: int, a: Answers): World {
    var w' := RollbackUpload(w, id, info, diff, a.rollback);
    if a.rollback then UnmarkNode(w', id, info.nodeId, a.unmark).Drop(id) else w'
  }

  /** rollbackNode: undo the node, keep the session. */
  function Revert(w: World, id: SessionId, info: Info, a: Answers): World {
    var w' := RollbackUpload(w, id, info, info.SizeDiff(), a.rollback);
    if a.rollback then UnmarkNode(w', id, info.nodeId, a.unmark) else w'
  }

  function NoticeOf(id: SessionId, info: Info, failed: bool, actor: string): Notice {
    Notice(id, failed, info.spaceOwner, info.target, info.spaceId, info.nodeId, info.VersionCreated(), actor)
  }

  function Announce(cfg: Config, w: World, notice: Notice, delivered: bool): World {
    if cfg.publisher then w.Note(Ready(notice, delivered)) else w
  }

  datatype Attempt = Attempt(world: World, ok: bool)

  /** commit: one attempt; on success the session is retired and the file announced. */
  function CommitOnce(cfg: Config, w: World, id: SessionId, info: Info, ok: bool, a: Answers): Attempt {
    if id !in w.store then
      Attempt(w, false)
    else
      var n, body := info.nodeId, w.store[id].bytes;
      var good := ok && n in w.nodes;
      var written := if good then w.blobs[id := body] else if n in w.nodes then w.blobs - {id} else w.blobs;
      var w1 := w.(blobs := written).Note(Commit(id, n, body, info.size, info.ScanData(), good));
      if !good then
        Attempt(w1, false)
      else
        Attempt(
          Announce(cfg, UnmarkNode(w1, id, n, a.unmark).Drop(id),
                   NoticeOf(id, info, false, info.target.executant), a.ready),
          true)
  }

  /** What a commit attempt adds to the trace. */
  function CommitTrail(cfg: Config, t: Trace, id: SessionId, info: Info, body: Bytes, good: bool, a: Answers): Trace {
    var t1 := Then(t, Commit(id, info.nodeId, body, info.size, info.ScanData(), good));
    if !good then t1
    else
      var t2 := Then(t1, Unmark(id, info.nodeId, a.unmark));
      if cfg.publisher then Then(t2, Ready(NoticeOf(id, info, false, info.target.executant), a.ready)) else t2
  }

  lemma CommitTrace(cfg: Config, w: World, id: SessionId, info: Info, ok: bool, a: Answers)
    requires id in w.store
    ensures
      var r := CommitOnce(cfg, w, id, info, ok, a);
      && r.ok == (ok && info.nodeId in w.nodes)
      && r.world.trace == CommitTrail(cfg, w.trace, id, info, w.store[id].bytes, r.ok, a)
      && r.world.minted == w.minted
      && r.world.store == (if r.ok then w.store - {id} else w.store)
      && r.world.blobs == (if r.ok then w.blobs[id := w.store[id].bytes] else if info.nodeId in w.nodes then w.blobs - {id} else w.blobs)
  {
  }

  /** The retries of finishAsync, from attempt k (counted from 0) up to n attempts in all. */
  function CommitRetry(cfg: Config, w: World, id: SessionId, info: Info, k: nat, n: nat, a: Answers): Attempt
    requires k < n
    decreases n - k
  {
    var r := CommitOnce(cfg, w, id, info, a.CommitOk(k), a);
    if r.ok || k + 1 == n then r else CommitRetry(cfg, r.world, id, info, k + 1, n, a)
  }

  function Attempts(cfg: Config): int {
    Wrap64(cfg.maxRetries + 1)
  }

  /** finishAsync: without a single attempt it reports success, as the source does. */
  function FinishAsync(cfg: Config, w: World, id: SessionId, info: Info, a: Answers): Attempt {
    if Attempts(cfg) <= 0 then Attempt(w, true) else CommitRetry(cfg, w, id, info, 0, Attempts(cfg), a)
  }

  // ---------------------------------------------------------------- finishUpload

  function Digest(cfg: Config, alg: Algorithm, body: Bytes): string {
    cfg.digest(alg, body)
  }

  function AlgorithmOf(name: string): Option<Algorithm> {
    if name == "sha1" then Some(Sha1) else if name == "md5" then Some(Md5)
    else if name == "adler32" then Some(Adler32) else None
  }

  /** None when the staged bytes are what the client announced. */
  function ChecksumError(cfg: Config, announced: string, body: Bytes): Option<Error> {
    if announced == "" then None
    else
      var parts := SplitN2(announced, ' ');
      if parts.tail.None? then Some(BadRequest)
      else
        var alg := AlgorithmOf(parts.head);
        if alg.None? then Some(BadRequest)
        else if Digest(cfg, alg.value, body) == parts.tail.value then None
        else Some(ChecksumMismatch)
  }

  /** verifyAndStoreChecksums and uploadInfo: what can be refused before the driver is called. */
  function RefusalOf(cfg: Config, info: Info, body: Bytes, a: Answers): Option<Error> {
    if !a.readable then Some(Other(0))
    else if ChecksumError(cfg, info.checksum, body).Some? then ChecksumError(cfg, info.checksum, body)
    else if info.mtime != "" && !MTimeToTime(info.mtime).ok then Some(BadRequest)
    else if info.sinceMalformed then Some(BadRequest)
    else None
  }

  function AllSums(cfg: Config, body: Bytes): Sums {
    Sums(Digest(cfg, Sha1, body), Digest(cfg, Md5, body), Digest(cfg, Adler32, body))
  }

  /** The outcome of a request, or of one stage of it. */
  datatype Outcome = Done(world: World, info: Info) | Fail(world: World, error: Error)

  function Lost(e: Error): Error {
    if e == NotFound then PreconditionFailed else e
  }

  predicate TouchesFirst(cfg: Config, info: Info) {
    !info.existed && !cfg.prepareCreatesNode
  }

  /** touchNode; a node id the driver mints is new. */
  function TouchNode(cfg: Config, w: World, id: SessionId, info: Info, a: Answers): Outcome {
    if !TouchesFirst(cfg, info) then Done(w, info)
    else if a.touch.Some? then Fail(w.Drop(id), Lost(a.touch.value))
    else if a.touchedNode in w.minted || a.touchedNode in w.nodes then Fail(w.Drop(id), AlreadyExists)
    else
      Done(w.(nodes := w.nodes[a.touchedNode := Node(Version(None, 0), [], None)], minted := w.minted + {a.touchedNode}),
           info.(nodeId := a.touchedNode, spaceId := a.touchedSpace).WithOwner(a.touchedOwner))
  }

  /** prepare. */
  function PrepareStage(cfg: Config, w: World, id: SessionId, info: Info, a: Answers): (r: Outcome)
    requires id in w.store
    ensures r.Done? ==>
      && id in r.world.store && r.world.store[id] == Stored(r.info, w.store[id].bytes)
      && r.world.Owns(id, r.info.nodeId) && r.info.size == info.size && r.info.Prepared()
  {
    var creates := !info.existed && cfg.prepareCreatesNode;
    if a.prepare.Some? || (info.nodeId !in w.nodes && !creates) then
      var e := if a.prepare.Some? then a.prepare.value else NotFound;
      Fail(UnprepareNode(w, info).Drop(id), if creates then Lost(e) else e)
    else
      var diff := NewDiff(w, info);
      var w1 := PrepareNode(w, id, info);
      var info1 := info.WithOwner(a.preparedOwner).Record(diff, info.existed);
      if !a.persist then
        Fail(Discard(w1, id, info1, diff, a), Other(1))
      else
        Done(w1.(store := w1.store[id := w1.store[id].(info := info1)]), info1)
  }

  predicate Defers(cfg: Config, info: Info) {
    cfg.async && cfg.publisher && info.size > 0
  }

  /** The end of finishUpload: hand over to postprocessing, or commit inline. */
  function HandOver(cfg: Config, w: World, id: SessionId, info: Info, a: Answers): Outcome {
    if Defers(cfg, info) then
      var w1 := w.Note(BytesReceived(id, info.nodeId, a.publish));
      if a.publish then Done(w1, info) else Fail(Discard(w1, id, info, info.SizeDiff(), a), Other(2))
    else
      var r := CommitOnce(cfg, w, id, info, a.CommitOk(0), a);
      if r.ok then Done(r.world, info) else Fail(Discard(r.world, id, info, info.SizeDiff(), a), Other(3))
  }

  /** finishUpload up to the point where the bytes are committed or handed over. */
  function Stage(cfg: Config, w: World, id: SessionId, info: Info, a: Answers): (r: Outcome)
    requires id in w.store
    ensures r.Done? ==>
      && id in r.world.store && r.world.store[id] == Stored(r.info, w.store[id].bytes)
      && r.world.Owns(id, r.info.nodeId) && r.info.size == info.size && r.info.Prepared()
  {
    var body := w.store[id].bytes;
    var refusal := RefusalOf(cfg, info, body, a);
    if refusal.Some? then
      Fail(w.Drop(id), refusal.value)
    else
      var w0 := w.Note(Verified(id, body, info.checksum));
      var r := TouchNode(cfg, w0, id, info.(sums := Some(AllSums(cfg, body))), a);
      if r.Fail? then r else PrepareStage(cfg, r.world, id, r.info, a)
  }

  /** finishUpload on the session the request holds in memory. */
  function Finish(cfg: Config, w: World, id: SessionId, info: Info, a: Answers): Outcome
    requires id in w.store
  {
    var r := Stage(cfg, w, id, info, a);
    if r.Fail? then r else HandOver(cfg, r.world, id, r.info, a)
  }

  // ---------------------------------------------------------------- requests and events

  /** The postprocessing outcome as reported on the wire; anything unknown is text too. */
  datatype Verdict = Continue | Abort | Delete | Unknown(text: string)

  datatype AntivirusResult = AntivirusResult(errorMsg: string, description: string, seconds: int, nanos: nat)

  datatype Step =
    | Initiate(id: SessionId, info: Info, a: Answers)
    | Put(id: SessionId, received: Bytes, complete: bool, length: int, a: Answers)
    | Append(id: SessionId, received: Bytes)
    | DeclareLength(id: SessionId, size: Size, a: Answers)
    | FinishTus(id: SessionId, a: Answers)
    | Terminate(id: SessionId, a: Answers)
    | PostprocessingFinished(id: SessionId, storage: string, verdict: Verdict, actor: string, a: Answers)
    | RestartPostprocessing(id: SessionId, a: Answers)
    | CleanUpload(id: SessionId, keep: bool, a: Answers)
    | StepFinished(id: SessionId, storage: string, antivirus: Option<AntivirusResult>, a: Answers)

  /** A record InitiateUpload may create: nothing about the finish is known yet. */
  predicate Fresh(w: World, id: SessionId, info: Info) {
    && id !in w.minted
    && id != info.nodeId
    && (info.existed <==> info.nodeId in w.nodes)
    && (!info.existed ==> info.nodeId !in w.minted)
    && info.sizeDiff == "" && info.versionCreated == "" && info.scanDate.None? && info.sums.None?
  }

  /** The session files as InitiateUpload writes them: the record and an empty staging file. */
  function Registered(w: World, id: SessionId, info: Info): World {
    w.(store := w.store[id := Stored(info, [])], minted := w.minted + {id, info.nodeId})
  }

  function InitiateStep(cfg: Config, w: World, id: SessionId, info: Info, a: Answers): World {
    if !Fresh(w, id, info) || !a.register then
      w
    else
      var w1 := Registered(w, id, info);
      if info.size == 0 then Finish(cfg, w1, id, info, a).world else w1
  }

  function AppendTo(w: World, id: SessionId, received: Bytes): World
    requires id in w.store
  {
    w.(store := w.store[id := w.store[id].(bytes := w.store[id].bytes + received)])
  }

  function PutStep(cfg: Config, w: World, id: SessionId, received: Bytes, complete: bool, length: int, a: Answers): World {
    if id !in w.store || w.store[id].bytes != [] then
      w
    else
      var w1 := AppendTo(w, id, received);
      if complete && |received| == length then Finish(cfg, w1, id, w1.store[id].info, a).world else w1
  }

  predicate Serves(cfg: Config, storage: string) {
    cfg.mountId == "" || storage == "" || storage == cfg.mountId
  }

  /** onPostprocessingFinished for a session that could be loaded. */
  function VerdictStep(cfg: Config, w: World, id: SessionId, verdict: Verdict, actor: string, a: Answers): World
    requires id in w.store
  {
    var info := w.store[id].info;
    var failed := NoticeOf(id, info, true, actor);
    match verdict
    case Continue =>
      var r := FinishAsync(cfg, w, id, info, a);
      if r.ok then r.world else Announce(cfg, Revert(r.world, id, info, a), failed, a.ready)
    case Delete => Announce(cfg, Discard(w, id, info, info.SizeDiff(), a), failed, a.ready)
    case Abort => Announce(cfg, Revert(w, id, info, a), failed, a.ready)
    case Unknown(_) => Announce(cfg, Revert(w, id, info, a), failed, a.ready)
  }

  function ScanStep(w: World, id: SessionId, r: AntivirusResult, a: Answers): World
    requires id in w.store
  {
    var info := w.store[id].info.(scanResult := r.description, scanDate := Some(r.seconds));
    if a.persist then w.(store := w.store[id := w.store[id].(info := info)]).Note(ScanSaved(id, Scan(r.description, Some(r.seconds)))) else w
  }

  /** One request or event, handled to its end. */
  function Next(cfg: Config, w: World, step: Step): World {
    if step.Initiate? then
      InitiateStep(cfg, w, step.id, step.info, step.a)
    else if step.id !in w.store then
      w
    else
      var info := w.store[step.id].info;
      match step
      case Put(id, received, complete, length, a) => PutStep(cfg, w, id, received, complete, length, a)
      case Append(id, received) => AppendTo(w, id, received)
      case DeclareLength(id, size, a) =>
        if a.persist then w.(store := w.store[id := w.store[id].(info := info.(size := size))]) else w
      case FinishTus(id, a) => Finish(cfg, w, id, info, a).world
      case Terminate(id, a) => Discard(w, id, info, info.SizeDiff(), a)
      case PostprocessingFinished(id, storage, verdict, actor, a) =>
        if Serves(cfg, storage) then VerdictStep(cfg, w, id, verdict, actor, a) else w
      case RestartPostprocessing(id, a) => w.Note(BytesReceived(id, info.nodeId, a.publish))
      case CleanUpload(id, keep, a) =>
        if keep then Revert(w, id, info, a) else Discard(w, id, info, info.SizeDiff(), a)
      case StepFinished(id, storage, antivirus, a) =>
        if Serves(cfg, storage) && antivirus.Some? && antivirus.value.errorMsg == ""
        then ScanStep(w, id, antivirus.value, a) else w
  }

  function Run(cfg: Config, w: World, steps: seq<Step>): World {
    if steps == [] then w else Next(cfg, Run(cfg, w, steps[..|steps| - 1]), steps[|steps| - 1])
  }
}
