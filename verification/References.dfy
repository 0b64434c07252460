/** Resource ids "<storage>$<space>!<node>" and references "<id>/<path>", printed and parsed. */
module References {
  import opened Base
  import opened Text
  import opened Paths

  datatype ResourceId = ResourceId(storageId: string, spaceId: string, opaqueId: string)

  datatype Reference = Reference(id: ResourceId, path: string)

  // ---------------------------------------------------------------- ids

  /** SplitStorageID. */
  function SplitStorageID(s: string): (string, string) {
    var h := SplitN2(s, '$');
    if h.tail.Some? then (h.head, h.tail.value) else ("", s)
  }

  /** SplitID and ParseID: None is the error for the empty text. */
  function ParseID(s: string): Option<ResourceId> {
    if s == "" then None
    else
      var (storage, rest) := SplitStorageID(s);
      var h := SplitN2(rest, '!');
      Some(ResourceId(storage, h.head, if h.tail.None? then "" else h.tail.value))
  }

  function FormatStorageID(storage: string, space: string): string {
    if storage == "" then space else storage + "$" + space
  }

  function FormatResourceID(id: ResourceId): string {
    if id.opaqueId == "" then FormatStorageID(id.storageId, id.spaceId)
    else FormatStorageID(id.storageId, id.spaceId) + "!" + id.opaqueId
  }

  /** The ids whose text says everything about them. */
  predicate Printable(id: ResourceId) {
    && '$' !in id.storageId
    && '!' !in id.spaceId
    && (id.storageId == "" ==> '$' !in id.spaceId && '$' !in id.opaqueId)
    && id != ResourceId("", "", "")
  }

  /** What follows the storage part in the text. */
  function Rest(id: ResourceId): string {
    if id.opaqueId == "" then id.spaceId else id.spaceId + "!" + id.opaqueId
  }

  lemma FormatIsStorageThenRest(id: ResourceId)
    ensures FormatResourceID(id) == if id.storageId == "" then Rest(id) else id.storageId + "$" + Rest(id)
  {
  }

  lemma SplitRest(id: ResourceId)
    requires '!' !in id.spaceId
    ensures
      var h := SplitN2(Rest(id), '!');
      h.head == id.spaceId && (if h.tail.None? then "" else h.tail.value) == id.opaqueId
  {
    if id.opaqueId == "" {
      SplitN2Whole(id.spaceId, '!');
    } else {
      SplitN2Join(id.spaceId, '!', id.opaqueId);
    }
  }

  /** A separator inside the text shows: what is cut off before it has none. */
  lemma DollarInRest(id: ResourceId)
    ensures '$' in Rest(id) <==> '$' in id.spaceId || '$' in id.opaqueId
  {
  }

  /** Parsing undoes printing exactly for the printable ids. */
  lemma IdRoundTrip(id: ResourceId)
    ensures ParseID(FormatResourceID(id)) == Some(id) <==> Printable(id)
  {
    var s := FormatResourceID(id);
    FormatIsStorageThenRest(id);
    DollarInRest(id);
    if Printable(id) {
      SplitRest(id);
      if id.storageId == "" {
        SplitN2Whole(s, '$');
      } else {
        SplitN2Join(id.storageId, '$', Rest(id));
      }
    } else if ParseID(s) == Some(id) {
      // both halves of a parsed id are free of the separator that ended them
      assert '$' !in id.storageId && '!' !in id.spaceId;
      if id.storageId == "" && '$' in s {
        ParsedLength(SplitStorageID(s).1);
      }
    }
  }

  /** A parsed text is never longer than what it was parsed from. */
  lemma ParsedLength(rest: string)
    ensures
      var h := SplitN2(rest, '!');
      |Rest(ResourceId("", h.head, if h.tail.None? then "" else h.tail.value))| <= |rest|
  {
  }

  /** The texts whose id prints to a text that parses to the same id. */
  predicate Stable(s: string) {
    && s != "" && s != "!"
    && (s[0] == '$' ==> '$' !in s[1..] && s[1..] != "" && s[1..] != "!")
  }

  lemma ParsedAfterDollar(s: string)
    requires s != "" && s[0] == '$'
    ensures
      var id, (_, rest) := ParseID(s).value, SplitStorageID(s);
      && rest == s[1..] && ('$' in rest <==> '$' in Rest(id))
      && (id == ResourceId("", "", "") <==> rest == "" || rest == "!")
  {
    assert IndexOf(s, '$') == 0;
    var id, h := ParseID(s).value, SplitN2(s[1..], '!');
    assert Rest(id) == s[1..] || (h.tail == Some("") && s[1..] == h.head + "!");
  }

  /** Printing a parsed id and parsing it again gives the id back, exactly for the stable texts. */
  lemma ReparseExactlyWhen(s: string)
    requires s != ""
    ensures ParseID(FormatResourceID(ParseID(s).value)) == ParseID(s) <==> Stable(s)
  {
    var id := ParseID(s).value;
    IdRoundTrip(id);
    var (storage, rest) := SplitStorageID(s);
    var h := SplitN2(rest, '!');
    DollarInRest(id);
    assert Rest(id) == rest || (h.tail == Some("") && rest == h.head + "!");
    if storage == "" {
      if s[0] == '$' {
        ParsedAfterDollar(s);
      } else {
        assert rest == s && '$' !in s;
        assert id == ResourceId("", "", "") <==> s == "!";
      }
    } else {
      assert s[0] == storage[0];
    }
  }

  /** The text itself comes back unless it starts with "$" or names an empty node. */
  lemma TextRoundTrip(s: string)
    requires s != ""
    ensures FormatResourceID(ParseID(s).value) == s <==>
      s[0] != '$' && SplitN2(SplitStorageID(s).1, '!').tail != Some("")
  {
    var id := ParseID(s).value;
    FormatIsStorageThenRest(id);
    var (storage, rest) := SplitStorageID(s);
    var h := SplitN2(rest, '!');
    if h.tail == Some("") {
      assert |Rest(id)| < |rest|;
    } else {
      assert Rest(id) == rest;
    }
    if storage == "" {
      assert s[0] == '$' <==> |rest| < |s|;
    } else {
      assert s[0] == storage[0];
    }
  }

  // ---------------------------------------------------------------- references

  function ParseReference(s: string): Option<Reference> {
    var h := SplitN2(s, '/');
    var id := ParseID(h.head);
    if id.None? then None
    else Some(Reference(id.value, MakeRelativePath(if h.tail.None? then "" else h.tail.value)))
  }

  /** FormatReference: a reference without a space is refused. */
  function FormatReference(r: Reference): Option<string> {
    if r.id.spaceId == "" then None else Some(JoinPath(FormatResourceID(r.id), r.path))
  }

  /** Exactly the references without a space cannot be printed. */
  lemma UnprintableExactlyWhen(r: Reference)
    ensures FormatReference(r).None? <==> r.id.spaceId == ""
  {
  }

  /** What precedes the first slash is the id, what follows it the path. */
  lemma ParseReferenceMeans(head: string, path: string)
    requires '/' !in head && head != ""
    ensures ParseReference(head) == Some(Reference(ParseID(head).value, MakeRelativePath("")))
    ensures ParseReference(head + "/" + path) == Some(Reference(ParseID(head).value, MakeRelativePath(path)))
  {
    SplitN2Whole(head, '/');
    SplitN2Join(head, '/', path);
  }

  /** The printed id survives path normalisation in front of any relative path. */
  predicate Leading(text: string) {
    text != "" && text != "." && '/' !in text
  }

  lemma SplitReference(text: string, segs: seq<string>)
    requires '/' !in text && Tidy(true, segs)
    ensures Split('/', text + "/" + Relative(segs)) == [text] + (["."] + segs)
  {
    LocationOfRelative(segs);
    SplitFirst('/', text, Relative(segs));
  }

  lemma ResolveReference(text: string, segs: seq<string>)
    requires Leading(text) && Tidy(true, segs)
    ensures Resolve(false, [], [text] + (["."] + segs)) == [text] + segs
  {
    var dotted := ["."] + segs;
    assert ([text] + dotted)[1..] == dotted && dotted[1..] == segs && [] + [text] == [text];
    assert Resolve(false, [], [text] + dotted) == Resolve(false, [text], dotted) == Resolve(false, [text], segs);
    ResolveFixes(false, [text], segs);
  }

  /** What path.Join makes of an id and a relative path: the id is the first segment. */
  lemma JoinedReference(text: string, segs: seq<string>)
    requires Leading(text) && Tidy(true, segs)
    ensures JoinPath(text, Relative(segs)) == Join('/', [text] + segs)
  {
    SplitReference(text, segs);
    ResolveReference(text, segs);
    assert (text + "/" + Relative(segs))[0] == text[0];
  }

  /** The path part of a printed reference reads as the relative path it came from. */
  lemma RelativeAgain(segs: seq<string>)
    requires Tidy(true, segs)
    ensures MakeRelativePath(Join('/', segs)) == Relative(segs)
  {
    RelativePathOf(Join('/', segs));
    if segs == [] {
      SplitN2Whole("", '/');
      assert [""][1..] == [];
    } else {
      SplitJoin('/', segs);
      ResolveFixes(true, [], segs);
      assert [] + segs == segs;
    }
  }

  lemma CutJoined(text: string, segs: seq<string>)
    requires Leading(text)
    ensures SplitN2(Join('/', [text] + segs), '/') == Halves(text, if segs == [] then None else Some(Join('/', segs)))
  {
    if segs == [] {
      SplitN2Whole(text, '/');
    } else {
      assert ([text] + segs)[1..] == segs;
      SplitN2Join(text, '/', Join('/', segs));
    }
  }

  predicate RoundTrips(id: ResourceId, path: string) {
    var r := Reference(id, MakeRelativePath(path));
    FormatReference(r).Some? && ParseReference(FormatReference(r).value) == Some(r)
  }

  /** Parsing undoes printing for every printable id that can lead a path, and every relative path. */
  lemma ReferenceRoundTrip(id: ResourceId, path: string)
    requires Printable(id) && id.spaceId != "" && Leading(FormatResourceID(id))
    ensures RoundTrips(id, path)
  {
    var text, segs := FormatResourceID(id), Location(path);
    RelativePathOf(path);
    JoinedReference(text, segs);
    IdRoundTrip(id);
    CutJoined(text, segs);
    RelativeAgain(segs);
  }

  /** The parts of an id hold only what the text held. */
  lemma ParsedHasNoSlash(s: string)
    requires '/' !in s && ParseID(s).Some?
    ensures '/' !in FormatResourceID(ParseID(s).value)
  {
  }

  /** The id printed as "." disappears in front of a path. */
  lemma DotDisappears(id: ResourceId)
    requires FormatResourceID(id) == "." && id.spaceId != ""
    ensures !RoundTrips(id, "a")
  {
    FormatIsStorageThenRest(id);
    assert |Rest(id)| == 1 && id == ResourceId("", ".", "");
    assert Split('/', "a") == ["a"] by {
      SplitN2Whole("a", '/');
    }
    assert Location("a") == ["a"] by {
      assert ["a"][1..] == [] && [] + ["a"] == ["a"];
    }
    RelativePathOf("a");
    DotJoined(["a"]);
    SplitN2Whole("a", '/');
    SplitN2Whole("a", '$');
    SplitN2Whole("a", '!');
  }

  lemma DotJoined(segs: seq<string>)
    requires Tidy(true, segs) && segs != []
    ensures JoinPath(".", Relative(segs)) == Join('/', segs)
  {
    SplitReference(".", segs);
    var dotted := ["."] + segs;
    assert (["."] + dotted)[1..] == dotted && dotted[1..] == segs;
    assert Resolve(false, [], ["."] + dotted) == Resolve(false, [], dotted) == Resolve(false, [], segs);
    ResolveFixes(false, [], segs);
    assert [] + segs == segs;
  }

  /** References to an id round-trip with every path exactly when the id is printable and its text can lead a path. */
  lemma ReferenceRoundTripExactlyWhen(id: ResourceId)
    requires id.spaceId != ""
    ensures (forall path :: RoundTrips(id, path)) <==> Printable(id) && Leading(FormatResourceID(id))
  {
    var text := FormatResourceID(id);
    FormatIsStorageThenRest(id);
    if Printable(id) && Leading(text) {
      forall path
        ensures RoundTrips(id, path)
      {
        ReferenceRoundTrip(id, path);
      }
    } else if forall path :: RoundTrips(id, path) {
      assert RoundTrips(id, "") && RoundTrips(id, "a");
      var s := FormatReference(Reference(id, MakeRelativePath(""))).value;
      ParsedHasNoSlash(SplitN2(s, '/').head);
      assert '/' !in text;
      if text == "." {
        DotDisappears(id);
      } else {
        NotPrintable(id);
      }
      assert false;
    }
  }

  lemma NotPrintable(id: ResourceId)
    requires Leading(FormatResourceID(id)) && id.spaceId != "" && !Printable(id)
    ensures !RoundTrips(id, "")
  {
    var text := FormatResourceID(id);
    IdRoundTrip(id);
    SplitN2Whole("", '/');
    assert Location("") == [] by {
      assert [""][1..] == [];
    }
    RelativePathOf("");
    JoinedReference(text, []);
    CutJoined(text, []);
  }
}
