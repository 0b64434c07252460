/**
 * How the driver keeps the versions that an overwrite replaces.  PrepareUpload files the
 * current version under its modification time, and a rollback restores the revision with
 * the newest time, which comes from the client.  The upload lifecycle relies on a rollback
 * restoring what was filed last; this module says exactly when it does.
 */
module Revisions {
  import opened Base
  import opened Lifecycle

  // ---------------------------------------------------------------- data

  /** Nanoseconds since the start of year 1, which is the zero time the search starts from. */
  type Time = int

  /** The start of year 10000, from which on a name is no longer a date of RFC 3339. */
  const YEAR_10000: Time := 315_537_897_600_000_000_000

  /** A version as stored: what Lifecycle knows of it, its checksums, and its modification time. */
  datatype Revision = Revision(version: Version, sums: Sums, mtime: Time)

  /** A file and its revisions by the time in their name. */
  datatype File = File(cur: Revision, kept: map<Time, Revision>)

  /** The search can find a revision of this time. */
  predicate Datable(t: Time) {
    0 < t < YEAR_10000
  }

  /** The last of them is the last nanosecond of year 9999, counted in Gregorian years of 365 days and their leap days. */
  lemma LastDatable(t: Time)
    requires t == (9999 * 365 + 9999 / 4 - 9999 / 100 + 9999 / 400) * 86400 * 1_000_000_000
    ensures Datable(t - 1) && !Datable(t) && !Datable(0) && Datable(1)
  {
  }

  /** t is the newest time the search can find. */
  predicate IsNewest(kept: map<Time, Revision>, t: Time) {
    t in kept && Datable(t) && forall u :: u in kept && Datable(u) ==> u <= t
  }

  predicate NothingFound(kept: map<Time, Revision>) {
    forall u :: u in kept ==> !Datable(u)
  }

  /** Every revision is filed under its own time. */
  predicate Filed(f: File) {
    forall t :: t in f.kept ==> f.kept[t].mtime == t
  }

  /** What a revert may leave: the newest revision current and its slot free, or no file at all. */
  ghost predicate Reverts(f: File, r: Option<File>) {
    if NothingFound(f.kept) then r == None
    else r.Some? && exists t :: IsNewest(f.kept, t) && r.value == File(f.kept[t], f.kept - {t})
  }

  /** The snapshot is refused when its slot holds different content. */
  predicate SlotFree(f: File) {
    f.cur.mtime in f.kept ==> f.kept[f.cur.mtime].sums == f.cur.sums
  }

  /** The overwrite that PrepareUpload makes of a file. */
  function Overwrite(f: File, new_: Revision): File {
    File(new_, f.kept[f.cur.mtime := f.cur])
  }

  /** The blob of a revision whose slot the snapshot takes. */
  function Reclaimed(f: File): seq<Option<SessionId>> {
    if f.cur.mtime in f.kept then [f.kept[f.cur.mtime].version.blob] else []
  }

  /** The file still needs the blob, for its current version or a revision. */
  ghost predicate Needs(f: File, blob: Option<SessionId>) {
    f.cur.version.blob == blob || exists t :: t in f.kept && f.kept[t].version.blob == blob
  }

  // ---------------------------------------------------------------- the driver's loop

  /** A file on disk, updated in place. */
  class RevisionStore {
    var file: Option<File>
    /** The blobs whose deletion was asked for, in order. */
    var deleted: seq<Option<SessionId>>

    constructor (f: File)
      ensures file == Some(f) && deleted == []
    {
      file, deleted := Some(f), [];
    }

    /** The snapshot of PrepareUpload and the new metadata; false if the slot is taken. */
    method Snapshot(new_: Revision) returns (ok: bool)
      requires file.Some?
      modifies this
      ensures ok == SlotFree(old(file.value))
      ensures file == if ok then Some(Overwrite(old(file.value), new_)) else old(file)
      ensures deleted == old(deleted) + if ok then Reclaimed(old(file.value)) else []
    {
      var f := file.value;
      if f.cur.mtime in f.kept {
        if f.kept[f.cur.mtime].sums != f.cur.sums {
          return false;
        }
        deleted := deleted + [f.kept[f.cur.mtime].version.blob];
      }
      file := Some(File(new_, f.kept[f.cur.mtime := f.cur]));
      ok := true;
    }

    /** getLatestRevision over the listing of the revision files, in any order. */
    method LatestRevision(listing: seq<Time>) returns (latest: Option<Time>)
      requires file.Some? && forall t :: t in listing <==> t in file.value.kept
      ensures latest.None? <==> NothingFound(file.value.kept)
      ensures latest.Some? ==> IsNewest(file.value.kept, latest.value)
    {
      latest := None;
      var date: Time := 0;
      for i := 0 to |listing|
        invariant latest == if date == 0 then None else Some(date)
        invariant date != 0 ==> date in listing && Datable(date)
        invariant forall k :: 0 <= k < i && Datable(listing[k]) ==> date != 0 && listing[k] <= date
      {
        if listing[i] >= YEAR_10000 {
          continue;
        }
        if listing[i] > date {
          date, latest := listing[i], Some(listing[i]);
        }
      }
    }

    /** RevertCurrentRevision: the newest revision becomes current; without one the node is purged. */
    method Revert(listing: seq<Time>)
      requires file.Some? && forall t :: t in listing <==> t in file.value.kept
      modifies this`file
      ensures Reverts(old(file.value), file)
    {
      var f := file.value;
      var latest := LatestRevision(listing);
      if latest.None? {
        file := None;
        return;
      }
      file := Some(File(f.kept[latest.value], f.kept - {latest.value}));
    }
  }

  // ---------------------------------------------------------------- exactly when

  /** No revision the search can find is newer than the current version. */
  predicate CurrentIsNewest(f: File) {
    Datable(f.cur.mtime) && forall t :: t in f.kept && Datable(t) ==> t <= f.cur.mtime
  }

  /**
   * Reverting an overwrite restores the version it replaced exactly when the search can find
   * that version and no newer one.
   */
  lemma RevertRestoresVersion(f: File, new_: Revision, r: Option<File>)
    requires Filed(f) && Reverts(Overwrite(f, new_), r)
    ensures r.Some? && r.value.cur == f.cur <==> CurrentIsNewest(f)
  {
    var kept := Overwrite(f, new_).kept;
    if CurrentIsNewest(f) {
      assert IsNewest(kept, f.cur.mtime);
    }
  }

  /** It restores the whole file exactly when, besides, the slot was not taken before. */
  lemma RevertRestoresFile(f: File, new_: Revision, r: Option<File>)
    requires Filed(f) && Reverts(Overwrite(f, new_), r)
    ensures r == Some(f) <==> CurrentIsNewest(f) && f.cur.mtime !in f.kept
  {
    RevertRestoresVersion(f, new_, r);
    var kept := Overwrite(f, new_).kept;
    if CurrentIsNewest(f) {
      var t :| IsNewest(kept, t) && r.value == File(kept[t], kept - {t});
      assert t == f.cur.mtime && kept - {t} == f.kept - {t};
      if t !in f.kept {
        assert f.kept - {t} == f.kept;
      } else {
        assert t !in r.value.kept;
      }
    }
  }

  /** And it purges a file that existed exactly when the search finds nothing at all. */
  lemma RevertPurges(f: File, new_: Revision, r: Option<File>)
    requires Reverts(Overwrite(f, new_), r)
    ensures r.None? <==> !Datable(f.cur.mtime) && NothingFound(f.kept)
  {
    var kept := Overwrite(f, new_).kept;
    assert f.cur.mtime in kept;
    assert forall t :: t in f.kept ==> t in kept;
  }

  /** Content dated 50 over a revision dated 100: the upload that replaces it is rolled back to the older content. */
  lemma RevertPicksTheWrongOne(old_: Revision, cur: Revision, new_: Revision, r: Option<File>)
    requires old_.mtime == 100 && cur.mtime == 50
    requires Reverts(Overwrite(File(cur, map[100 := old_]), new_), r)
    ensures r == Some(File(old_, map[50 := cur]))
  {
    var kept := Overwrite(File(cur, map[100 := old_]), new_).kept;
    assert IsNewest(kept, 100);
    assert kept - {100} == map[50 := cur];
  }

  /** A snapshot deletes a blob still needed exactly when the revision that gives way shares it with another version. */
  lemma DeletesNeededBlob(f: File, new_: Revision)
    requires f.cur.mtime in f.kept
    ensures
      var t := f.cur.mtime;
      var blob := f.kept[t].version.blob;
      Needs(Overwrite(f, new_), blob) <==>
      new_.version.blob == blob || f.cur.version.blob == blob || exists u :: u in f.kept && u != t && f.kept[u].version.blob == blob
  {
    var kept, blob := Overwrite(f, new_).kept, f.kept[f.cur.mtime].version.blob;
    assert forall u :: u in kept && u != f.cur.mtime ==> u in f.kept && kept[u] == f.kept[u];
    assert forall u :: u in f.kept ==> u in kept;
    assert kept[f.cur.mtime] == f.cur;
  }

  // ---------------------------------------------------------------- the lifecycle's history

  /** The slots that filing these revisions one after the other leaves. */
  function Slots(history: seq<Revision>): map<Time, Revision> {
    if history == [] then map[]
    else
      var last := history[|history| - 1];
      Slots(history[..|history| - 1])[last.mtime := last]
  }

  /** What was filed last is what the search finds. */
  predicate LastIsNewest(history: seq<Revision>)
    requires history != []
  {
    var last := history[|history| - 1].mtime;
    Datable(last) && forall i :: 0 <= i < |history| && Datable(history[i].mtime) ==> history[i].mtime <= last
  }

  lemma {:induction false} SlotsHold(history: seq<Revision>)
    ensures forall i :: 0 <= i < |history| ==> history[i].mtime in Slots(history)
    ensures forall t :: t in Slots(history) ==> Slots(history)[t] in history && Slots(history)[t].mtime == t
  {
    if history != [] {
      var k := |history| - 1;
      SlotsHold(history[..k]);
      assert history == history[..k] + [history[k]];
    }
  }

  /** The slot of what was filed last was free before. */
  predicate LastWasFree(history: seq<Revision>)
    requires history != []
  {
    var k := |history| - 1;
    forall i :: 0 <= i < k ==> history[i].mtime != history[k].mtime
  }

  /** Clearing the slot that was taken last undoes the filing exactly when it was free before. */
  lemma SlotsWithoutLast(history: seq<Revision>)
    requires history != []
    ensures
      var k := |history| - 1;
      Slots(history) - {history[k].mtime} == Slots(history[..k]) <==> LastWasFree(history)
  {
    var k := |history| - 1;
    var t, before := history[k].mtime, Slots(history[..k]);
    SlotsHold(history[..k]);
    assert Slots(history) - {t} == before - {t};
    if LastWasFree(history) {
      assert t !in before;
      assert before - {t} == before;
    } else {
      var i :| 0 <= i < k && history[i].mtime == t;
      assert history[..k][i].mtime in before;
      assert t !in before - {t};
    }
  }

  /**
   * A revert takes back what was filed last, as the lifecycle has it, exactly when that is
   * the newest revision the search can find and did not take the slot of another.
   */
  lemma PopsExactlyWhen(f: File, history: seq<Revision>, r: Option<File>)
    requires history != [] && f.kept == Slots(history) && Reverts(f, r)
    ensures
      var k := |history| - 1;
      r == Some(File(history[k], Slots(history[..k]))) <==> LastIsNewest(history) && LastWasFree(history)
  {
    var k := |history| - 1;
    SlotsHold(history);
    SlotsWithoutLast(history);
    assert f.kept[history[k].mtime] == history[k];
    if LastIsNewest(history) {
      assert IsNewest(f.kept, history[k].mtime);
    }
  }

  /** The lifecycle's node is what the driver has on disk. */
  predicate Shows(node: Node, f: File, history: seq<Revision>) {
    && node.cur == f.cur.version && f.kept == Slots(history) && |node.history| == |history|
    && forall i :: 0 <= i < |history| ==> node.history[i] == history[i].version
  }

  /** PrepareUpload on the node is an overwrite of the file. */
  lemma PrepareShown(w: World, id: SessionId, info: Info, f: File, history: seq<Revision>, new_: Revision)
    requires info.existed && info.nodeId in w.nodes && Shows(w.nodes[info.nodeId], f, history)
    requires new_.version == Version(Some(id), info.size)
    ensures Shows(PrepareNode(w, id, info).nodes[info.nodeId], Overwrite(f, new_), history + [f.cur])
  {
    assert (history + [f.cur])[..|history|] == history;
  }

  /**
   * RollbackUpload on the node is the driver's revert exactly when what was filed last is
   * the newest and did not take the slot of another.
   */
  lemma RollbackShown(w: World, n: NodeId, diff: int, f: File, history: seq<Revision>, r: Option<File>)
    requires n in w.nodes && Shows(w.nodes[n], f, history) && Reverts(f, r) && history != []
    ensures
      var k := |history| - 1;
      && n in UndoNode(w, n, true, diff).nodes
      && (LastIsNewest(history) && LastWasFree(history) <==>
            r.Some? && r.value.cur == history[k] && Shows(UndoNode(w, n, true, diff).nodes[n], r.value, history[..k]))
  {
    PopsExactlyWhen(f, history, r);
  }
}
