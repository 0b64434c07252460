/**
 * The upload coordinator as it runs: objects whose methods update driver state, session
 * files, the session in memory and the journal step by step, branch by branch.  Every
 * method is proved to perform the transition Lifecycle specifies for it.
 */
module Coordinator {
  import opened Base
  import opened Lifecycle
  import opened Scalars
  import opened Staging
  import opened Backoff
  import opened Checksums
  import opened Outcomes
  import opened Text

  /** What was called and published, in order. */
  class Journal {
    var trace: Trace

    constructor ()
      ensures trace == Start
    {
      trace := Start;
    }

    method Note(e: Entry)
      modifies this
      ensures trace == Then(old(trace), e)
    {
      trace := Then(trace, e);
    }
  }

  /**
   * The storage driver behind the upload seam.  Its contracts speak about the driver's part
   * of the world; the ghost parameters store and minted are the rest of it, which no driver
   * call touches.
   */
  class Driver {
    const journal: Journal
    var nodes: map<NodeId, Node>
    var blobs: map<SessionId, Bytes>
    var used: int

    constructor (journal: Journal)
      ensures this.journal == journal && nodes == map[] && blobs == map[] && used == 0
    {
      this.journal, nodes, blobs, used := journal, map[], map[], 0;
    }

    ghost function View(store: map<SessionId, Stored>, minted: set<nat>): World
      reads this, journal
    {
      World(nodes, blobs, used, store, minted, journal.trace)
    }

    method MarkProcessing(id: SessionId, n: NodeId, ok: bool, ghost store: map<SessionId, Stored>, ghost minted: set<nat>)
      modifies this`nodes, journal
      ensures View(store, minted) == UnmarkNode(old(View(store, minted)), id, n, ok)
    {
      if ok && n in nodes {
        if nodes[n].owner == Some(id) {
          nodes := nodes[n := nodes[n].(owner := None)];
        }
        journal.Note(Unmark(id, n, true));
      } else {
        journal.Note(Unmark(id, n, false));
      }
    }

    method Rollback(id: SessionId, info: Info, diff: int, ok: bool, ghost store: map<SessionId, Stored>, ghost minted: set<nat>)
      modifies this`nodes, this`used, journal
      ensures View(store, minted) == RollbackUpload(old(View(store, minted)), id, info, diff, ok)
    {
      var n := info.nodeId;
      if !ok || n !in nodes || nodes[n].owner != Some(id) {
        journal.Note(Entry.Rollback(id, n, diff, ok, false));
        return;
      }
      var node := nodes[n];
      if info.existed && |node.history| > 0 {
        var last := |node.history| - 1;
        nodes := nodes[n := Node(node.history[last], node.history[..last], node.owner)];
      } else {
        nodes := nodes - {n};
      }
      used := used - diff;
      journal.Note(Entry.Rollback(id, n, diff, true, true));
    }

    /** CommitUpload: the blob goes under the session id; a failed write is cleaned up. */
    method CommitUpload(id: SessionId, n: NodeId, body: Bytes, length: Size, scan: Scan, ok: bool) returns (good: bool)
      modifies this`blobs, journal
      ensures good == (ok && n in nodes)
      ensures blobs == if good then old(blobs)[id := body] else if n in nodes then old(blobs) - {id} else old(blobs)
      ensures journal.trace == Then(old(journal.trace), Commit(id, n, body, length, scan, good))
    {
      good := false;
      if n in nodes {
        if ok {
          blobs := blobs[id := body];
          good := true;
        } else {
          blobs := blobs - {id};
        }
      }
      journal.Note(Commit(id, n, body, length, scan, good));
    }

    /** PrepareUpload; on failure a node this upload was to fill is purged. */
    method PrepareUpload(id: SessionId, info: Info, creates: bool, answer: Option<Error>, ghost store: map<SessionId, Stored>, ghost minted: set<nat>)
      returns (err: Option<Error>, diff: int)
      modifies this, journal
      ensures err.Some? <==> answer.Some? || (info.nodeId !in old(nodes) && !creates)
      ensures err.Some? ==>
        && View(store, minted) == UnprepareNode(old(View(store, minted)), info)
        && err.value == if answer.Some? then answer.value else NotFound
      ensures err.None? ==>
        && diff == NewDiff(old(View(store, minted)), info)
        && View(store, minted + {info.nodeId}) == PrepareNode(old(View(store, minted)), id, info)
    {
      var n := info.nodeId;
      diff := 0;
      if n !in nodes && !creates {
        assert nodes - {n} == nodes;
        return if answer.Some? then answer else Some(NotFound), 0;
      }
      if answer.Some? {
        if !info.existed {
          nodes := nodes - {n};
        }
        return answer, 0;
      }
      var past := [];
      diff := info.size;
      if n in nodes {
        past := nodes[n].history;
        if info.existed {
          past := past + [nodes[n].cur];
          diff := info.size - nodes[n].cur.size;
        }
      }
      nodes := nodes[n := Node(Version(Some(id), info.size), past, Some(id))];
      used := used + diff;
      journal.Note(Prepare(id, n, diff));
      err := None;
    }
  }

  /** The upload directory: an info file and a staging file per session. */
  class FileStore {
    var files: map<SessionId, Stored>
    var minted: set<nat>

    constructor ()
      ensures files == map[] && minted == {}
    {
      files, minted := map[], {};
    }

    /** Get: the record as persisted, the offset recovered from the staged bytes. */
    method Get(id: SessionId) returns (s: FileSession?)
      ensures s == null <==> id !in files
      ensures s != null ==>
        && fresh(s) && s.store == this && s.id == id && s.info == files[id].info && s.Consistent()
        && forall o: nat :: s.Staging() == Apply(Staged(files[id].bytes, o), Reload)
    {
      if id !in files {
        return null;
      }
      s := new FileSession(this, id, files[id].info);
      s.offset := |files[id].bytes|;
    }
  }

  /** A session in memory: a copy of the record, stale until it is persisted or reloaded. */
  class FileSession {
    const store: FileStore
    const id: SessionId
    var info: Info
    var offset: nat

    constructor (store: FileStore, id: SessionId, info: Info)
      ensures this.store == store && this.id == id && this.info == info && offset == 0
    {
      this.store, this.id, this.info, offset := store, id, info, 0;
    }

    /** The offset never runs ahead of the staged bytes. */
    ghost predicate Consistent()
      reads this, store
    {
      id in store.files ==> offset <= |store.files[id].bytes|
    }

    /** The staging file and how much of it this session knows of. */
    ghost function Staging(): Staged
      reads this, store
      requires id in store.files
    {
      Staged(store.files[id].bytes, offset)
    }

    /** WriteChunk: what was read is appended even when the reader fails half-way; the offset then stays. */
    method WriteChunk(received: Bytes, complete: bool) returns (n: nat, err: Option<Error>)
      requires Consistent()
      modifies this`offset, store`files
      ensures Consistent()
      ensures err.None? <==> complete && id in old(store.files)
      ensures n == if id in old(store.files) then |received| else 0
      ensures id in old(store.files) ==>
        && store.files == Extended(old(store.files), id, received)
        && Staging() == Apply(old(Staging()), Write(received, complete))
        && offset == old(offset) + if complete then |received| else 0
      ensures id !in old(store.files) ==> store.files == old(store.files) && offset == old(offset)
    {
      if id !in store.files {
        return 0, Some(NotFound);
      }
      store.files := store.files[id := store.files[id].(bytes := store.files[id].bytes + received)];
      n := |received|;
      if !complete {
        return n, Some(Other(4));
      }
      offset := offset + n;
      err := None;
    }

    /** One partial upload copied to the end of the staging file, as far as it can be read. */
    method AppendPartial(partial: SessionId, readable: nat) returns (err: Option<Error>)
      requires id in store.files
      modifies store`files
      ensures
        var p := PartOf(old(store.files), id, partial, readable);
        store.files == Extended(old(store.files), id, p.Copied()) && (err.None? <==> p.Whole())
    {
      ExtendedByNothing(store.files, id);
      if partial !in store.files {
        return Some(NotFound);
      }
      var src := store.files[partial].bytes;
      if partial == id {
        store.files := Extended(store.files, id, Echo(src, readable));
        return if src == [] then None else Some(Other(8));
      }
      var n := if readable < |src| then readable else |src|;
      store.files := Extended(store.files, id, src[..n]);
      err := if n < |src| then Some(Other(8)) else None;
    }

    /** The loop of ConcatUploads. */
    method AppendPartials(partials: seq<SessionId>, readable: seq<nat>) returns (err: Option<Error>)
      requires |readable| == |partials|
      modifies store`files
      ensures id !in old(store.files) ==> err.Some? && store.files == old(store.files)
      ensures id in old(store.files) ==>
        var parts := Parts(old(store.files), id, partials, readable, 0);
        store.files == Extended(old(store.files), id, CopyParts(parts)) && (err.None? <==> AllWhole(parts))
    {
      if id !in store.files {
        return Some(NotFound);
      }
      ghost var parts := Parts(store.files, id, partials, readable, 0);
      ghost var goal := Extended(store.files, id, CopyParts(parts));
      for i := 0 to |partials|
        invariant id in store.files
        invariant
          var rest := Parts(store.files, id, partials, readable, i);
          Extended(store.files, id, CopyParts(rest)) == goal && (AllWhole(parts) <==> AllWhole(rest))
      {
        PartsStep(store.files, id, partials, readable, i);
        err := AppendPartial(partials[i], readable[i]);
        if err.Some? {
          return;
        }
      }
      ExtendedByNothing(store.files, id);
      err := None;
    }

    method Persist(ok: bool) returns (done: bool)
      requires id in store.files
      modifies store`files
      ensures done == ok
      ensures store.files == if ok then old(store.files)[id := old(store.files)[id].(info := info)] else old(store.files)
    {
      if ok {
        store.files := store.files[id := store.files[id].(info := info)];
      }
      done := ok;
    }

    method Cleanup()
      modifies store`files
      ensures store.files == old(store.files) - {id}
    {
      store.files := store.files - {id};
    }
  }

  class UploadCoordinator {
    const fs: Driver
    const store: FileStore
    const journal: Journal
    const publisher: bool
    const prepareCreatesNode: bool
    const digest: (Algorithm, Bytes) -> string
    var async: bool
    var mountId: string
    var maxRetries: int
    var retryBackoff: int

    /** NewCoordinator: synchronous until postprocessing is started. */
    constructor (fs: Driver, store: FileStore, journal: Journal, publisher: bool, prepareCreatesNode: bool, digest: (Algorithm, Bytes) -> string)
      ensures this.fs == fs && this.store == store && this.journal == journal && this.digest == digest
      ensures this.publisher == publisher && this.prepareCreatesNode == prepareCreatesNode
      ensures !async && mountId == "" && maxRetries == 0 && retryBackoff == 0
    {
      this.fs, this.store, this.journal := fs, store, journal;
      this.publisher, this.prepareCreatesNode, this.digest := publisher, prepareCreatesNode, digest;
      async, mountId, maxRetries, retryBackoff := false, "", 0, 0;
    }

    ghost function Conf(): Config
      reads this
    {
      Config(async, publisher, prepareCreatesNode, mountId, maxRetries, digest)
    }

    ghost function State(): World
      reads fs, store, journal
    {
      World(fs.nodes, fs.blobs, fs.used, store.files, store.minted, journal.trace)
    }

    ghost predicate Wired(s: FileSession)
      reads this
    {
      s.store == store && fs.journal == journal
    }

    /** StartPostprocessing: async only with a publisher and a running consumer. */
    method StartPostprocessing(mount: string, retries: int, backoff: int, subscribed: bool) returns (ok: bool)
      modifies this
      ensures ok == (publisher && subscribed)
      ensures ok ==> async && mountId == mount && maxRetries == retries && retryBackoff == backoff
      ensures !ok ==> Conf() == old(Conf()) && retryBackoff == old(retryBackoff)
    {
      if !publisher {
        return false;
      }
      if !subscribed {
        return false;
      }
      mountId, maxRetries, retryBackoff, async := mount, retries, backoff, true;
      ok := true;
    }

    // -------------------------------------------------------------- undoing

    method RollbackPrepared(s: FileSession, diff: int, a: Answers)
      requires Wired(s)
      modifies fs, store, journal
      ensures State() == Discard(old(State()), s.id, s.info, diff, a)
    {
      fs.Rollback(s.id, s.info, diff, a.rollback, store.files, store.minted);
      if !a.rollback {
        return;
      }
      fs.MarkProcessing(s.id, s.info.nodeId, a.unmark, store.files, store.minted);
      s.Cleanup();
    }

    method RollbackNode(s: FileSession, a: Answers)
      requires Wired(s)
      modifies fs, journal
      ensures State() == Revert(old(State()), s.id, s.info, a)
    {
      fs.Rollback(s.id, s.info, s.info.SizeDiff(), a.rollback, store.files, store.minted);
      if !a.rollback {
        return;
      }
      fs.MarkProcessing(s.id, s.info.nodeId, a.unmark, store.files, store.minted);
    }

    // -------------------------------------------------------------- committing

    method PublishReady(notice: Notice, delivered: bool)
      requires fs.journal == journal
      modifies journal
      ensures State() == Announce(Conf(), old(State()), notice, delivered)
    {
      if !publisher {
        return;
      }
      journal.Note(Ready(notice, delivered));
    }

    method CommitSession(s: FileSession, ok: bool, a: Answers) returns (done: bool)
      requires Wired(s)
      modifies fs, store, journal
      ensures Attempt(State(), done) == CommitOnce(Conf(), old(State()), s.id, s.info, ok, a)
    {
      if s.id !in store.files {
        return false;
      }
      var scan := s.info.ScanData();
      done := fs.CommitUpload(s.id, s.info.nodeId, store.files[s.id].bytes, s.info.size, scan, ok);
      if !done {
        return;
      }
      fs.MarkProcessing(s.id, s.info.nodeId, a.unmark, store.files, store.minted);
      s.Cleanup();
      PublishReady(NoticeOf(s.id, s.info, false, s.info.target.executant), a.ready);
    }

    /** The attempt numbered k of n: the result of the retries from there on, if it is the last one made. */
    method CommitAttempt(s: FileSession, k: nat, n: nat, a: Answers) returns (done: bool)
      requires Wired(s) && k < n
      modifies fs, store, journal
      ensures
        var r := CommitRetry(Conf(), old(State()), s.id, s.info, k, n, a);
        if done || k + 1 == n then Attempt(State(), done) == r else r == CommitRetry(Conf(), State(), s.id, s.info, k + 1, n, a)
      ensures done ==> a.CommitOk(k)
    {
      done := CommitSession(s, k < |a.commits| && a.commits[k], a);
    }

    /** The commit of an upload postprocessing has cleared, retried with capped exponential backoff. */
    method CommitWithRetry(s: FileSession, a: Answers) returns (ok: bool, waits: seq<int>)
      requires Wired(s) && Int64(maxRetries) && Int64(retryBackoff)
      modifies fs, store, journal
      ensures Attempt(State(), ok) == FinishAsync(Conf(), old(State()), s.id, s.info, a)
      ensures maxRetries < 0 ==> waits == []
      ensures maxRetries >= 0 ==> |waits| <= maxRetries && (!ok ==> |waits| == maxRetries)
      ensures ok && 0 <= maxRetries < MAX_INT64 ==> a.CommitOk(|waits|)
      ensures forall k :: 0 <= k < |waits| ==> waits[k] == Wait(retryBackoff, k)
    {
      var maxAttempts := Wrap64(maxRetries + 1);
      var backoff, attempt := retryBackoff, 0;
      ok, waits := true, [];
      ghost var w0 := State();
      ghost var goal := if maxAttempts <= 0 then Attempt(w0, true) else CommitRetry(Conf(), w0, s.id, s.info, 0, maxAttempts, a);
      assert goal == FinishAsync(Conf(), w0, s.id, s.info, a);
      while attempt < maxAttempts
        invariant 0 <= attempt && |waits| == attempt
        invariant attempt > 0 ==> attempt < maxAttempts
        invariant attempt >= maxAttempts ==> goal == Attempt(State(), true) && ok
        invariant attempt < maxAttempts ==> goal == CommitRetry(Conf(), State(), s.id, s.info, attempt, maxAttempts, a)
        invariant backoff == Delay(retryBackoff, attempt)
        invariant forall k :: 0 <= k < |waits| ==> waits[k] == Wait(retryBackoff, k)
        decreases maxAttempts - attempt
      {
        ok := CommitAttempt(s, attempt, maxAttempts, a);
        if ok || attempt + 1 == maxAttempts {
          return;
        }
        backoff := Min(backoff, MAX_BACKOFF);
        waits := waits + [backoff];
        backoff := Wrap64(2 * backoff);
        attempt := attempt + 1;
      }
    }

    // -------------------------------------------------------------- finishing

    method VerifyAndStoreChecksums(s: FileSession, a: Answers) returns (err: Option<Error>)
      requires Wired(s) && s.id in store.files
      modifies s`info
      ensures
        var body, info := store.files[s.id].bytes, old(s.info);
        if !a.readable then err == Some(Other(0)) && s.info == info
        else if ChecksumError(Conf(), info.checksum, body).Some? then err == ChecksumError(Conf(), info.checksum, body) && s.info == info
        else err.None? && s.info == info.(sums := Some(AllSums(Conf(), body)))
      ensures err.None? <==> a.readable && Matches(Conf(), old(s.info).checksum, store.files[s.id].bytes)
    {
      AcceptedExactlyWhen(Conf(), s.info.checksum, store.files[s.id].bytes);
      if !a.readable {
        return Some(Other(0));
      }
      var body := store.files[s.id].bytes;
      var sums := Sums(digest(Sha1, body), digest(Md5, body), digest(Adler32, body));
      if s.info.checksum != "" {
        var parts := SplitN2(s.info.checksum, ' ');
        if parts.tail.None? {
          return Some(BadRequest);
        }
        var got;
        if parts.head == "sha1" {
          got := sums.sha1;
        } else if parts.head == "md5" {
          got := sums.md5;
        } else if parts.head == "adler32" {
          got := sums.adler32;
        } else {
          return Some(BadRequest);
        }
        if got != parts.tail.value {
          return Some(ChecksumMismatch);
        }
      }
      s.info := s.info.(sums := Some(sums));
      err := None;
    }

    /** touchNode; the id TouchFile answers with replaces the placeholder. */
    method TouchFile(s: FileSession, a: Answers) returns (err: Option<Error>)
      requires Wired(s) && s.id in store.files
      modifies fs`nodes, store, s`info
      ensures
        var r := TouchNode(Conf(), old(State()), s.id, old(s.info), a);
        && State() == r.world && (err.None? <==> r.Done?)
        && (r.Done? ==> s.info == r.info) && (r.Fail? ==> err.value == r.error && s.info == old(s.info))
    {
      if s.info.existed || prepareCreatesNode {
        return None;
      }
      if a.touch.Some? {
        s.Cleanup();
        return Some(if a.touch.value == NotFound then PreconditionFailed else a.touch.value);
      }
      if a.touchedNode in fs.nodes || a.touchedNode in store.minted {
        s.Cleanup();
        return Some(AlreadyExists);
      }
      fs.nodes := fs.nodes[a.touchedNode := Node(Version(None, 0), [], None)];
      store.minted := store.minted + {a.touchedNode};
      s.info := s.info.(nodeId := a.touchedNode, spaceId := a.touchedSpace);
      if a.touchedOwner.Some? {
        s.info := s.info.(spaceOwner := a.touchedOwner.value);
      }
      err := None;
    }

    /** prepare: what PrepareUpload reported is saved, because the commit may run elsewhere. */
    method PrepareSession(s: FileSession, a: Answers) returns (err: Option<Error>)
      requires Wired(s) && s.id in store.files
      modifies fs, store, journal, s`info
      ensures
        var r := PrepareStage(Conf(), old(State()), s.id, old(s.info), a);
        State() == r.world && (err.None? <==> r.Done?) && (r.Done? ==> s.info == r.info) && (r.Fail? ==> err.value == r.error)
    {
      var creates := !s.info.existed && prepareCreatesNode;
      var diff;
      err, diff := fs.PrepareUpload(s.id, s.info, creates, a.prepare, store.files, store.minted);
      if err.Some? {
        s.Cleanup();
        if err.value == NotFound && creates {
          err := Some(PreconditionFailed);
        }
        return;
      }
      store.minted := store.minted + {s.info.nodeId};
      if a.preparedOwner.Some? {
        s.info := s.info.(spaceOwner := a.preparedOwner.value);
      }
      s.info := s.info.Record(diff, s.info.existed);
      var persisted := s.Persist(a.persist);
      if !persisted {
        RollbackPrepared(s, diff, a);
        return Some(Other(1));
      }
    }

    /** The end of finishUpload: publish and keep everything, or commit and undo on failure. */
    method HandOverSession(s: FileSession, a: Answers) returns (err: Option<Error>)
      requires Wired(s)
      modifies fs, store, journal
      ensures
        var r := HandOver(Conf(), old(State()), s.id, s.info, a);
        State() == r.world && (err.None? <==> r.Done?) && (r.Fail? ==> err.value == r.error)
    {
      if async && publisher && s.info.size > 0 {
        journal.Note(BytesReceived(s.id, s.info.nodeId, a.publish));
        if !a.publish {
          RollbackPrepared(s, s.info.SizeDiff(), a);
          return Some(Other(2));
        }
        return None;
      }
      var done := CommitSession(s, 0 < |a.commits| && a.commits[0], a);
      if !done {
        RollbackPrepared(s, s.info.SizeDiff(), a);
        return Some(Other(3));
      }
      err := None;
    }

    method FinishUpload(s: FileSession, a: Answers) returns (err: Option<Error>)
      requires Wired(s) && s.id in store.files
      modifies fs, store, journal, s`info
      ensures
        var r := Finish(Conf(), old(State()), s.id, old(s.info), a);
        State() == r.world && (err.None? <==> r.Done?) && (r.Fail? ==> err.value == r.error)
    {
      ghost var w, info0, body := State(), s.info, store.files[s.id].bytes;
      err := VerifyAndStoreChecksums(s, a);
      if err.Some? {
        s.Cleanup();
        return;
      }
      if (s.info.mtime != "" && !MTimeToTime(s.info.mtime).ok) || s.info.sinceMalformed {
        s.Cleanup();
        return Some(BadRequest);
      }
      journal.Note(Verified(s.id, store.files[s.id].bytes, s.info.checksum));
      assert RefusalOf(Conf(), info0, body, a).None? && State() == w.Note(Verified(s.id, body, info0.checksum));
      err := TouchFile(s, a);
      if err.Some? {
        return;
      }
      err := PrepareSession(s, a);
      if err.Some? {
        return;
      }
      err := HandOverSession(s, a);
    }

    // -------------------------------------------------------------- requests

    /** InitiateUpload, the target resolved: a zero-length upload is finished on the spot. */
    method InitiateUpload(id: SessionId, info: Info, a: Answers) returns (err: Option<Error>)
      requires fs.journal == journal && Fresh(State(), id, info)
      modifies fs, store, journal
      ensures State() == Next(Conf(), old(State()), Initiate(id, info, a))
      ensures err.None? && info.size != 0 ==> id in store.files && store.files[id] == Stored(info, [])
      ensures err.None? && info.size == 0 ==> id !in store.files
      ensures err.None? <==> a.register && (info.size == 0 ==> Finish(Conf(), Registered(old(State()), id, info), id, info, a).Done?)
    {
      var s := new FileSession(store, id, info);
      if !a.register {
        return Some(Other(5));
      }
      store.files := store.files[id := Stored(s.info, [])];
      store.minted := store.minted + {id, info.nodeId};
      err := None;
      if info.size == 0 {
        if Finish(Conf(), State(), id, info, a).Done? {
          SuccessMeans(Conf(), State(), id, info, a);
        }
        err := FinishUpload(s, a);
      }
    }

    /** Upload: the whole body of a PUT, refused when bytes have already arrived. */
    method Upload(id: SessionId, received: Bytes, complete: bool, length: int, a: Answers) returns (err: Option<Error>)
      requires fs.journal == journal
      modifies fs, store, journal
      ensures State() == Next(Conf(), old(State()), Put(id, received, complete, length, a))
      ensures id !in old(store.files) ==> err == Some(NotFound)
      ensures id in old(store.files) && old(store.files)[id].bytes != [] ==> err == Some(Aborted)
      ensures id in old(store.files) && old(store.files)[id].bytes == [] ==>
        && (complete && |received| != length ==> err == Some(PartialContent))
        && (err.None? <==>
              && complete && |received| == length
              && Finish(Conf(), AppendTo(old(State()), id, received), id, old(store.files)[id].info, a).Done?)
    {
      var s := store.Get(id);
      if s == null {
        return Some(NotFound);
      }
      if s.offset > 0 {
        return Some(Aborted);
      }
      var n;
      n, err := s.WriteChunk(received, complete);
      if err.Some? {
        return;
      }
      if n != length {
        return Some(PartialContent);
      }
      err := FinishUpload(s, a);
    }

    method TusWriteChunk(id: SessionId, received: Bytes, complete: bool) returns (n: nat, err: Option<Error>)
      requires fs.journal == journal
      modifies store
      ensures State() == Next(Conf(), old(State()), Append(id, received))
      ensures err.None? <==> complete && id in old(store.files)
      ensures n == if id in old(store.files) then |received| else 0
    {
      var s := store.Get(id);
      if s == null {
        return 0, Some(NotFound);
      }
      n, err := s.WriteChunk(received, complete);
    }

    method TusFinish(id: SessionId, a: Answers) returns (err: Option<Error>)
      requires fs.journal == journal
      modifies fs, store, journal
      ensures State() == Next(Conf(), old(State()), FinishTus(id, a))
      ensures err.None? <==> id in old(store.files) && Finish(Conf(), old(State()), id, old(store.files)[id].info, a).Done?
    {
      var s := store.Get(id);
      if s == null {
        return Some(NotFound);
      }
      err := FinishUpload(s, a);
    }

    /** Terminate: roll back, unmark, clean up; a refused rollback is reported and keeps the session. */
    method TusTerminate(id: SessionId, a: Answers) returns (err: Option<Error>)
      requires fs.journal == journal
      modifies fs, store, journal
      ensures State() == Next(Conf(), old(State()), Terminate(id, a))
      ensures err.None? <==> id in old(store.files) && a.rollback
    {
      var s := store.Get(id);
      if s == null {
        return Some(NotFound);
      }
      fs.Rollback(s.id, s.info, s.info.SizeDiff(), a.rollback, store.files, store.minted);
      if !a.rollback {
        return Some(Other(6));
      }
      fs.MarkProcessing(s.id, s.info.nodeId, a.unmark, store.files, store.minted);
      s.Cleanup();
      err := None;
    }

    method TusDeclareLength(id: SessionId, size: Size, a: Answers) returns (err: Option<Error>)
      requires fs.journal == journal
      modifies store
      ensures State() == Next(Conf(), old(State()), DeclareLength(id, size, a))
      ensures err.None? <==> id in old(store.files) && a.persist
    {
      var s := store.Get(id);
      if s == null {
        return Some(NotFound);
      }
      s.info := s.info.(size := size);
      var done := s.Persist(a.persist);
      err := if done then None else Some(Other(7));
    }

    /** ConcatUploads: append the partials in the order given, stopping at the first that cannot be read. */
    method TusConcat(s: FileSession, partials: seq<SessionId>, readable: seq<nat>) returns (err: Option<Error>)
      requires s.store == store && |readable| == |partials|
      modifies store`files
      ensures s.id !in old(store.files) ==> err.Some? && State() == old(State())
      ensures s.id in old(store.files) ==>
        var parts := Parts(old(store.files), s.id, partials, readable, 0);
        && s.id in store.files && s.Staging() == Apply(old(s.Staging()), Concat(parts))
        && State() == Next(Conf(), old(State()), Append(s.id, CopyParts(parts)))
        && (err.None? <==> AllWhole(parts))
    {
      err := s.AppendPartials(partials, readable);
    }

    // -------------------------------------------------------------- postprocessing events

    method OnPostprocessingFinished(id: SessionId, storage: string, verdict: Verdict, actor: string, a: Answers)
      requires fs.journal == journal && Int64(maxRetries) && Int64(retryBackoff)
      modifies fs, store, journal
      ensures State() == Next(Conf(), old(State()), PostprocessingFinished(id, storage, verdict, actor, a))
      ensures mountId != "" && storage != "" && storage != mountId ==> State() == old(State())
    {
      if mountId != "" && storage != "" && storage != mountId {
        return;
      }
      var s := store.Get(id);
      if s == null {
        return;
      }
      HandleOutcome(s, verdict, actor, a);
    }

    /** The outcome of postprocessing for a session that could be loaded. */
    method HandleOutcome(s: FileSession, verdict: Verdict, actor: string, a: Answers)
      requires Wired(s) && s.id in store.files && s.info == store.files[s.id].info && Int64(maxRetries) && Int64(retryBackoff)
      modifies fs, store, journal
      ensures State() == VerdictStep(Conf(), old(State()), s.id, verdict, actor, a)
    {
      match verdict {
        case Continue =>
          var ok, _ := CommitWithRetry(s, a);
          if ok {
            return;
          }
          RollbackNode(s, a);
        case Delete => RollbackPrepared(s, s.info.SizeDiff(), a);
        case Abort => RollbackNode(s, a);
        case Unknown(_) => RollbackNode(s, a);
      }
      PublishReady(NoticeOf(s.id, s.info, true, actor), a.ready);
    }

    method OnRestartPostprocessing(id: SessionId, a: Answers)
      requires fs.journal == journal
      modifies journal
      ensures State() == Next(Conf(), old(State()), RestartPostprocessing(id, a))
    {
      var s := store.Get(id);
      if s == null {
        return;
      }
      journal.Note(BytesReceived(id, s.info.nodeId, a.publish));
    }

    method OnCleanUpload(id: SessionId, keep: bool, a: Answers)
      requires fs.journal == journal
      modifies fs, store, journal
      ensures State() == Next(Conf(), old(State()), CleanUpload(id, keep, a))
    {
      var s := store.Get(id);
      if s == null {
        return;
      }
      if !keep {
        RollbackPrepared(s, s.info.SizeDiff(), a);
      } else {
        RollbackNode(s, a);
      }
    }

    method OnStepFinished(id: SessionId, storage: string, antivirus: Option<AntivirusResult>, a: Answers)
      requires fs.journal == journal
      modifies store, journal
      ensures State() == Next(Conf(), old(State()), StepFinished(id, storage, antivirus, a))
      ensures antivirus.None? || antivirus.value.errorMsg != "" ==> State() == old(State())
    {
      if mountId != "" && storage != "" && storage != mountId {
        return;
      }
      if antivirus.None? || antivirus.value.errorMsg != "" {
        return;
      }
      var s := store.Get(id);
      if s == null {
        return;
      }
      s.info := s.info.(scanResult := antivirus.value.description, scanDate := Some(antivirus.value.seconds));
      var done := s.Persist(a.persist);
      if done {
        journal.Note(ScanSaved(id, Scan(antivirus.value.description, Some(antivirus.value.seconds))));
      }
    }
  }
}
