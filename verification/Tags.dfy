/** The ordered, deduplicated, bounded list of tags on a resource. */
module Tags {
  import opened Lists
  import opened Text

  const SEPARATOR := ','
  const MAX_TAGS: nat := 100

  // ---------------------------------------------------------------- normalising

  /** unicode.IsSpace. */
  predicate IsSpace(c: char) {
    || '\t' <= c <= '\r' || c == ' ' || c as int == 0x85 || c as int == 0xA0 || c as int == 0x1680
    || 0x2000 <= c as int <= 0x200a || c as int in {0x2028, 0x2029, 0x202f, 0x205f, 0x3000}
  }

  function TrimLeft(s: string): string {
    if s != "" && IsSpace(s[0]) then TrimLeft(s[1..]) else s
  }

  function TrimRight(s: string): string {
    if s != "" && IsSpace(s[|s| - 1]) then TrimRight(s[..|s| - 1]) else s
  }

  function TrimSpace(s: string): string {
    TrimRight(TrimLeft(s))
  }

  /** A tag as the list stores it. */
  predicate IsTag(s: string) {
    s != "" && !IsSpace(s[0]) && !IsSpace(s[|s| - 1]) && SEPARATOR !in s
  }

  predicate AllTags(ts: seq<string>) {
    ts == [] || (AllTags(ts[..|ts| - 1]) && IsTag(ts[|ts| - 1]))
  }

  lemma {:induction false} AllTagsMeans(ts: seq<string>)
    ensures AllTags(ts) <==> forall x :: x in ts ==> IsTag(x)
  {
    if ts != [] {
      var k := |ts| - 1;
      AllTagsMeans(ts[..k]);
      assert ts == ts[..k] + [ts[k]];
    }
  }

  /** A list drawn from tags is a list of tags. */
  lemma AllTagsFrom(now: seq<string>, was: seq<string>, more: seq<string>)
    requires AllTags(was) && AllTags(more) && forall x :: x in now ==> x in was || x in more
    ensures AllTags(now)
  {
    AllTagsMeans(was);
    AllTagsMeans(more);
    AllTagsMeans(now);
  }

  /** Tags, and empty texts among them. */
  predicate TagsOrEmpty(ts: seq<string>) {
    forall x :: x in ts ==> x == "" || IsTag(x)
  }

  /** A list of tags has no empty text to skip. */
  lemma NothingToSkip(ts: seq<string>, known: set<string>)
    requires AllTags(ts)
    ensures TagsOrEmpty(ts) && News(ts, known + {""}) == News(ts, known)
  {
    AllTagsMeans(ts);
    NewsIgnore(ts, known, "");
  }

  /** What is added from it is tags. */
  lemma AddedAreTags(added: seq<string>, s: seq<string>, was: seq<string>)
    requires TagsOrEmpty(s) && AllTags(was) && forall x :: x in added ==> x in s && x != ""
    ensures AllTags(added + was)
  {
    AllTagsMeans(added);
    AllTagsFrom(added + was, added, was);
  }

  lemma {:induction false} TrimLeftOf(s: string)
    requires SEPARATOR !in s
    ensures SEPARATOR !in TrimLeft(s) && (TrimLeft(s) == "" || !IsSpace(TrimLeft(s)[0]))
  {
    if s != "" && IsSpace(s[0]) {
      TrimLeftOf(s[1..]);
    }
  }

  lemma {:induction false} TrimRightOf(s: string)
    requires SEPARATOR !in s && (s == "" || !IsSpace(s[0]))
    ensures TrimRight(s) == "" || IsTag(TrimRight(s))
  {
    if s != "" && IsSpace(s[|s| - 1]) {
      TrimRightOf(s[..|s| - 1]);
    }
  }

  /** Trimming a piece yields a tag or nothing. */
  lemma TrimmedIsTag(s: string)
    requires SEPARATOR !in s
    ensures TrimSpace(s) == "" || IsTag(TrimSpace(s))
  {
    TrimLeftOf(s);
    TrimRightOf(TrimLeft(s));
  }

  predicate AllSpaces(s: string) {
    forall i :: 0 <= i < |s| ==> IsSpace(s[i])
  }

  /** Trimming cuts off spaces at both ends and nothing else. */
  lemma TrimCutsSpaces(s: string) returns (left: string, right: string)
    ensures s == left + TrimSpace(s) + right && AllSpaces(left) && AllSpaces(right)
  {
    left := LeftSpaces(s);
    right := RightSpaces(TrimLeft(s));
  }

  lemma {:induction false} LeftSpaces(s: string) returns (left: string)
    ensures s == left + TrimLeft(s) && AllSpaces(left)
  {
    if s != "" && IsSpace(s[0]) {
      left := LeftSpaces(s[1..]);
      left := [s[0]] + left;
    } else {
      left := "";
    }
  }

  lemma {:induction false} RightSpaces(s: string) returns (right: string)
    ensures s == TrimRight(s) + right && AllSpaces(right)
  {
    if s != "" && IsSpace(s[|s| - 1]) {
      right := RightSpaces(s[..|s| - 1]);
      right := right + [s[|s| - 1]];
    } else {
      right := "";
    }
  }

  lemma TrimTag(s: string)
    requires IsTag(s)
    ensures TrimSpace(s) == s
  {
  }

  /** The non-empty trimmed pieces of one list. */
  function Pieces(parts: seq<string>): seq<string> {
    if parts == [] then []
    else
      var p := TrimSpace(parts[|parts| - 1]);
      Pieces(parts[..|parts| - 1]) + if p == "" then [] else [p]
  }

  function Normalize(ts: seq<string>): seq<string> {
    if ts == [] then [] else Normalize(ts[..|ts| - 1]) + Pieces(Split(SEPARATOR, ts[|ts| - 1]))
  }

  lemma PiecesStep(parts: seq<string>, j: nat)
    requires j < |parts|
    ensures
      var p := TrimSpace(parts[j]);
      Pieces(parts[..j + 1]) == Pieces(parts[..j]) + if p == "" then [] else [p]
  {
    assert parts[..j + 1][..j] == parts[..j];
  }

  lemma NormalizeStep(ts: seq<string>, i: nat)
    requires i < |ts|
    ensures Normalize(ts[..i + 1]) == Normalize(ts[..i]) + Pieces(Split(SEPARATOR, ts[i]))
  {
    assert ts[..i + 1][..i] == ts[..i];
  }

  lemma {:induction false} PiecesAreTags(parts: seq<string>)
    requires Without(SEPARATOR, parts)
    ensures AllTags(Pieces(parts))
  {
    if parts != [] {
      var k := |parts| - 1;
      PiecesAreTags(parts[..k]);
      TrimmedIsTag(parts[k]);
      var p := TrimSpace(parts[k]);
      if p != "" {
        assert [p][..0] == [];
        AllTagsFrom(Pieces(parts), Pieces(parts[..k]), [p]);
      } else {
        assert Pieces(parts) == Pieces(parts[..k]);
      }
    }
  }

  lemma {:induction false} PiecesSplit(ps: seq<string>, qs: seq<string>)
    ensures Pieces(ps + qs) == Pieces(ps) + Pieces(qs)
  {
    if qs == [] {
      assert ps + qs == ps;
    } else {
      var k := |qs| - 1;
      PiecesSplit(ps, qs[..k]);
      assert (ps + qs)[..|ps + qs| - 1] == ps + qs[..k];
    }
  }

  lemma NormalizeOne(s: string)
    ensures Normalize([s]) == Pieces(Split(SEPARATOR, s))
  {
    assert [s][..0] == [];
  }

  /** A comma separates: a text with commas counts as its parts given one by one. */
  lemma CommaSeparates(a: string, b: string)
    requires ',' !in a
    ensures Normalize([a + "," + b]) == Normalize([a]) + Normalize([b])
  {
    NormalizeOne(a + "," + b);
    NormalizeOne(a);
    NormalizeOne(b);
    SplitFirst(SEPARATOR, a, b);
    SplitN2Whole(a, SEPARATOR);
    PiecesSplit([a], Split(SEPARATOR, b));
  }

  /** Whatever comes in, only proper tags go on. */
  lemma {:induction false} NormalizeYieldsTags(ts: seq<string>)
    ensures AllTags(Normalize(ts))
  {
    if ts != [] {
      var k := |ts| - 1;
      NormalizeYieldsTags(ts[..k]);
      PiecesAreTags(Split(SEPARATOR, ts[k]));
      AllTagsFrom(Normalize(ts), Normalize(ts[..k]), Pieces(Split(SEPARATOR, ts[k])));
    }
  }

  lemma {:induction false} PiecesOfTags(ts: seq<string>)
    requires AllTags(ts)
    ensures Pieces(ts) == ts
  {
    if ts != [] {
      var k := |ts| - 1;
      PiecesOfTags(ts[..k]);
      TrimTag(ts[k]);
      assert ts[..k] + [ts[k]] == ts;
    }
  }

  /** A list joined and normalised again is the list. */
  lemma NormalizeJoined(ts: seq<string>)
    requires AllTags(ts)
    ensures Normalize([Join(SEPARATOR, ts)]) == ts
  {
    var s := Join(SEPARATOR, ts);
    assert [s][..0] == [] && Normalize([]) == [];
    if ts == [] {
      SplitN2Whole("", SEPARATOR);
      assert Pieces([""]) == Pieces([]) + [];
    } else {
      AllTagsMeans(ts);
      assert forall i :: 0 <= i < |ts| ==> ts[i] in ts;
      SplitJoin(SEPARATOR, ts);
      PiecesOfTags(ts);
    }
  }

  /** What New builds from some texts. */
  function Built(ts: seq<string>): seq<string> {
    Fit(News(Normalize(ts), {}), MAX_TAGS)
  }

  /** A list of tags survives being written out and read in again. */
  lemma ListRoundTrip(ts: seq<string>)
    requires AllTags(ts) && NoDuplicates(ts) && |ts| <= MAX_TAGS
    ensures Built([Join(SEPARATOR, ts)]) == ts
  {
    NormalizeJoined(ts);
    NewsOfDistinct(ts);
  }

  // ---------------------------------------------------------------- the list

  class TagList {
    const maxtags: nat
    var t: seq<string>
    var exists_: set<string>
    var numtags: nat
    /** All tags ever added, in the order of adding; removing does not give room back. */
    ghost var ever: seq<string>

    ghost predicate Valid()
      reads this
    {
      && NoDuplicates(t) && AllTags(t)
      && exists_ == Elements(t)
      && |t| <= numtags == |ever| <= maxtags
    }

    constructor (ts: seq<string>)
      ensures Valid() && maxtags == 100
      ensures t == Built(ts) == ever
    {
      maxtags := MAX_TAGS;
      t, exists_, numtags, ever := [], {}, 0, [];
      new;
      var norm := NormalizeAll(ts);
      NothingToSkip(norm, exists_);
      var added := AddTags(norm);
      assert added + [] == added;
    }

    /** normalize: split, trim, drop what is empty. */
    method NormalizeAll(s: seq<string>) returns (res: seq<string>)
      ensures res == Normalize(s) && AllTags(res)
    {
      res := [];
      assert s[..0] == [];
      for i := 0 to |s|
        invariant res == Normalize(s[..i])
      {
        var parts := Split(SEPARATOR, s[i]);
        assert parts[..0] == [];
        ghost var before := res;
        for j := 0 to |parts|
          invariant res == before + Pieces(parts[..j])
        {
          var tag := TrimSpace(parts[j]);
          PiecesStep(parts, j);
          if tag != "" {
            res := res + [tag];
          }
        }
        assert parts[..|parts|] == parts;
        NormalizeStep(s, i);
      }
      assert s[..|s|] == s;
      NormalizeYieldsTags(s);
    }

    /** addTags: new tags go in front in the given order, as far as there is room; empty ones are skipped. */
    method AddTags(s: seq<string>) returns (added: seq<string>)
      requires Valid() && TagsOrEmpty(s)
      modifies this
      ensures Valid()
      ensures added == Fit(News(s, old(exists_) + {""}), maxtags - old(numtags))
      ensures t == added + old(t) && ever == old(ever) + added
    {
      added := [];
      ghost var index, known, was := exists_, exists_ + {""}, t;
      Prefixes(s, 0);
      for i := 0 to |s|
        invariant t == was && ever == old(ever) && exists_ == index + Elements(added)
        invariant added == News(s[..i], known) && added <= News(s, known)
        invariant numtags == old(numtags) + |added| <= maxtags
      {
        var tag := s[i];
        NewsStep(s, i, known);
        NewsExtend(s, i, known);
        if tag == "" {
          continue;
        }
        if tag in exists_ {
          continue;
        }
        if numtags >= maxtags {
          break;
        }
        ElementsStep(added, tag);
        added := added + [tag];
        exists_ := exists_ + {tag};
        numtags := numtags + 1;
      }
      NewsPrefix(s, known, added);
      NewsInFront(added, was);
      AddedAreTags(added, s, was);
      t, ever := added + t, ever + added;
    }

    /** Add: true exactly when a new tag found room. */
    method Add(ts: seq<string>) returns (ok: bool)
      requires Valid()
      modifies this
      ensures Valid()
      ensures
        var added := Fit(News(Normalize(ts), old(exists_)), maxtags - old(numtags));
        t == added + old(t) && ever == old(ever) + added
      ensures ok <==> old(numtags) < maxtags && exists x :: x in Normalize(ts) && x !in old(exists_)
    {
      var norm := NormalizeAll(ts);
      RoomForNews(norm, exists_, maxtags - numtags);
      NothingToSkip(norm, exists_);
      var added := AddTags(norm);
      ok := |added| > 0;
    }

    /** AddValidated: nothing is added unless the validator accepts all of it. */
    method AddValidated(validator: seq<string> -> bool, ts: seq<string>) returns (ok: bool, valid: bool)
      requires Valid()
      modifies this
      ensures Valid() && valid == validator(Normalize(ts))
      ensures !valid ==> !ok && t == old(t) && exists_ == old(exists_) && ever == old(ever)
      ensures valid ==>
        var added := Fit(News(Normalize(ts), old(exists_)), maxtags - old(numtags));
        t == added + old(t) && ever == old(ever) + added
      ensures ok <==> valid && old(numtags) < maxtags && exists x :: x in Normalize(ts) && x !in old(exists_)
    {
      var norm := NormalizeAll(ts);
      valid := validator(norm);
      if !valid {
        return false, false;
      }
      RoomForNews(norm, exists_, maxtags - numtags);
      NothingToSkip(norm, exists_);
      var added := AddTags(norm);
      ok := |added| > 0;
    }

    /** One tag cut out of the list, if it is there. */
    method RemoveOne(tag: string) returns (found: bool)
      requires Valid()
      modifies this`t, this`exists_
      ensures Valid()
      ensures found <==> tag in old(t)
      ensures t == Minus(old(t), {tag})
    {
      found := tag in exists_;
      if !found {
        MinusAbsent(t, {tag});
        return;
      }
      var k := Find(tag);
      CutOut(t, k);
      AllTagsFrom(t[..k] + t[k + 1..], t, []);
      t := t[..k] + t[k + 1..];
      exists_ := exists_ - {tag};
    }

    /** Remove: the named tags go, the others keep their order, and no room is given back. */
    method Remove(ts: seq<string>) returns (removed: bool)
      requires Valid()
      modifies this`t, this`exists_
      ensures Valid()
      ensures t == Minus(old(t), Elements(Normalize(ts)))
      ensures removed <==> Meets(Normalize(ts), old(t))
    {
      var tags := NormalizeAll(ts);
      removed := false;
      ghost var was := t;
      MinusNothing(was);
      Prefixes(tags, 0);
      for i := 0 to |tags|
        invariant Valid()
        invariant t == Minus(was, Elements(tags[..i]))
        invariant removed <==> Meets(tags[..i], was)
      {
        Prefixes(tags, i);
        MinusStep(was, tags[..i], tags[i]);
        var found := RemoveOne(tags[i]);
        removed := removed || found;
      }
    }

    method Find(tag: string) returns (k: nat)
      requires tag in t
      ensures k < |t| && t[k] == tag
    {
      k := 0;
      while t[k] != tag
        invariant k < |t| && tag !in t[..k]
        decreases |t| - k
      {
        k := k + 1;
      }
    }

    /** AsList; New of it is the same list. */
    method AsList() returns (list: string)
      requires Valid()
      ensures list == Join(SEPARATOR, t)
      ensures maxtags == MAX_TAGS ==> Built([list]) == t
    {
      list := Join(SEPARATOR, t);
      if maxtags == MAX_TAGS {
        ListRoundTrip(t);
      }
    }
  }
}
