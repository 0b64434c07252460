/**
 * The staging file of one session: WriteChunk and ConcatUploads append to it, Get reads
 * the offset back from it.
 */
module Staging {
  import opened Lifecycle

  datatype Staged = Staged(bytes: Bytes, offset: nat)

  /**
   * A partial upload as a concatenation meets it, and how many bytes can be copied before an
   * error.  An upload that lists itself reads what it has just appended, without end.
   */
  datatype Part = Unopened | File(content: Bytes, readable: nat) | Itself(content: Bytes, readable: nat) {
    function Copied(): Bytes {
      match this
      case Unopened => []
      case File(_, _) => content[..if readable < |content| then readable else |content|]
      case Itself(_, _) => Echo(content, readable)
    }

    predicate Whole() {
      match this
      case Unopened => false
      case File(_, _) => |content| <= readable
      case Itself(_, _) => content == []
    }
  }

  /** The n bytes a file hands over that is copied to its own end: each read sees what was appended before. */
  function Echo(content: Bytes, n: nat): (echo: Bytes)
    ensures |echo| == if content == [] then 0 else n
  {
    if content == [] || n == 0 then []
    else
      var before := Echo(content, n - 1);
      before + [(content + before)[n - 1]]
  }

  /** A file copied to its own end repeats itself for as long as the copying goes on. */
  lemma {:induction false} EchoRepeats(content: Bytes, n: nat, i: nat)
    requires content != [] && |content| <= i < |content| + n
    ensures
      var all := content + Echo(content, n);
      |all| == |content| + n && all[i] == all[i - |content|]
  {
    if i < |content| + n - 1 {
      EchoRepeats(content, n - 1, i);
    }
  }

  /** What is copied of another file is its beginning, all of it exactly when it is whole. */
  lemma CopiedIsPrefix(p: Part)
    requires p.File?
    ensures p.Copied() <= p.content && |p.Copied()| <= p.readable && (p.Copied() == p.content <==> p.Whole())
    ensures !p.Whole() ==> |p.Copied()| == p.readable
  {
  }

  datatype Op = Write(data: Bytes, complete: bool) | Concat(parts: seq<Part>) | Reload

  /** What a concatenation appends: the partials in order, up to and including the one that fails. */
  function CopyParts(parts: seq<Part>): Bytes {
    if parts == [] then []
    else if parts[0].Whole() then parts[0].Copied() + CopyParts(parts[1..])
    else parts[0].Copied()
  }

  predicate AllWhole(parts: seq<Part>) {
    parts != [] ==> parts[0].Whole() && AllWhole(parts[1..])
  }

  lemma {:induction false} AllWholeMeans(parts: seq<Part>)
    ensures AllWhole(parts) <==> forall i :: 0 <= i < |parts| ==> parts[i].Whole()
  {
    if parts != [] {
      AllWholeMeans(parts[1..]);
      assert forall i :: 0 < i < |parts| ==> parts[i] == parts[1..][i - 1];
    }
  }

  function Supplied(op: Op): Bytes {
    match op
    case Write(data, _) => data
    case Concat(parts) => CopyParts(parts)
    case Reload => []
  }

  function Apply(s: Staged, op: Op): Staged {
    match op
    case Write(data, complete) => Staged(s.bytes + data, if complete then s.offset + |data| else s.offset)
    case Concat(parts) => Staged(s.bytes + CopyParts(parts), s.offset)
    case Reload => Staged(s.bytes, |s.bytes|)
  }

  function ApplyAll(s: Staged, ops: seq<Op>): Staged
    decreases ops
  {
    if ops == [] then s else ApplyAll(Apply(s, ops[0]), ops[1..])
  }

  function AllSupplied(ops: seq<Op>): Bytes {
    if ops == [] then [] else Supplied(ops[0]) + AllSupplied(ops[1..])
  }

  /** One operation: an incomplete write leaves its bytes behind the offset, and only a reload catches up with them. */
  lemma OneGrows(s: Staged, op: Op)
    requires s.offset <= |s.bytes|
    ensures
      var s' := Apply(s, op);
      && s'.bytes == s.bytes + Supplied(op) && s.offset <= s'.offset <= |s'.bytes| && (op.Reload? ==> s'.offset == |s'.bytes|)
      && (op.Write? ==> s'.offset - s.offset == if op.complete then |op.data| else 0) && (op.Concat? ==> s'.offset == s.offset)
  {
  }

  lemma Regroup(a: Bytes, b: Bytes, c: Bytes)
    ensures (a + b) + c == a + (b + c)
  {
  }

  /** Staged bytes only grow, by the supplied data in order, and the offset never runs ahead of them. */
  lemma {:induction false} OnlyGrows(s: Staged, ops: seq<Op>)
    requires s.offset <= |s.bytes|
    ensures
      var s' := ApplyAll(s, ops);
      && s'.bytes == s.bytes + AllSupplied(ops)
      && s.offset <= s'.offset <= |s'.bytes|
      && (ops != [] && ops[|ops| - 1].Reload? ==> s'.offset == |s'.bytes|)
    decreases ops
  {
    if ops == [] {
      assert s.bytes + [] == s.bytes;
    } else {
      var s1, rest := Apply(s, ops[0]), ops[1..];
      OneGrows(s, ops[0]);
      OnlyGrows(s1, rest);
      Regroup(s.bytes, Supplied(ops[0]), AllSupplied(rest));
      assert rest != [] ==> rest[|rest| - 1] == ops[|ops| - 1];
      assert rest == [] ==> ApplyAll(s1, rest) == s1;
    }
  }

  // ---------------------------------------------------------------- partial uploads

  function Extended(files: map<SessionId, Stored>, id: SessionId, data: Bytes): map<SessionId, Stored>
    requires id in files
  {
    files[id := files[id].(bytes := files[id].bytes + data)]
  }

  lemma ExtendedTwice(files: map<SessionId, Stored>, id: SessionId, data: Bytes, more: Bytes)
    requires id in files
    ensures Extended(Extended(files, id, data), id, more) == Extended(files, id, data + more)
  {
    assert files[id].bytes + data + more == files[id].bytes + (data + more);
  }

  lemma ExtendedByNothing(files: map<SessionId, Stored>, id: SessionId)
    requires id in files
    ensures Extended(files, id, []) == files
  {
    assert files[id].bytes + [] == files[id].bytes;
  }

  function PartOf(files: map<SessionId, Stored>, id: SessionId, partial: SessionId, readable: nat): Part {
    if partial !in files then Unopened
    else if partial == id then Itself(files[id].bytes, readable)
    else File(files[partial].bytes, readable)
  }

  /** The partials from the i-th on, as ConcatUploads finds them one after the other. */
  function Parts(files: map<SessionId, Stored>, id: SessionId, partials: seq<SessionId>, readable: seq<nat>, i: nat): seq<Part>
    requires id in files && i <= |partials| == |readable|
    decreases |partials| - i
  {
    if i == |partials| then []
    else
      var p := PartOf(files, id, partials[i], readable[i]);
      [p] + Parts(Extended(files, id, p.Copied()), id, partials, readable, i + 1)
  }

  /** One round of the concatenation. */
  lemma PartsStep(files: map<SessionId, Stored>, id: SessionId, partials: seq<SessionId>, readable: seq<nat>, i: nat)
    requires id in files && i < |partials| == |readable|
    ensures
      var p := PartOf(files, id, partials[i], readable[i]);
      var files' := Extended(files, id, p.Copied());
      var all, rest := Parts(files, id, partials, readable, i), Parts(files', id, partials, readable, i + 1);
      && Extended(files, id, CopyParts(all)) == (if p.Whole() then Extended(files', id, CopyParts(rest)) else files')
      && (AllWhole(all) <==> p.Whole() && AllWhole(rest))
  {
    var p := PartOf(files, id, partials[i], readable[i]);
    var rest := Parts(Extended(files, id, p.Copied()), id, partials, readable, i + 1);
    assert ([p] + rest)[1..] == rest;
    ExtendedTwice(files, id, p.Copied(), CopyParts(rest));
  }
}
