/**
 * Slash-separated paths: the lexical normalisation of Go's path.Clean, and the relative
 * form references carry.
 */
module Paths {
  import opened Text

  // ---------------------------------------------------------------- path.Clean

  predicate Rooted(p: string) {
    p != "" && p[0] == '/'
  }

  /** Walking the segments from the position the stack describes; above the root there is nothing. */
  function Resolve(rooted: bool, stack: seq<string>, segs: seq<string>): seq<string>
    decreases segs
  {
    if segs == [] then stack
    else if segs[0] == "" || segs[0] == "." then Resolve(rooted, stack, segs[1..])
    else if segs[0] != ".." then Resolve(rooted, stack + [segs[0]], segs[1..])
    else if stack != [] && stack[|stack| - 1] != ".." then Resolve(rooted, stack[..|stack| - 1], segs[1..])
    else if rooted then Resolve(rooted, stack, segs[1..])
    else Resolve(rooted, stack + [".."], segs[1..])
  }

  function Render(rooted: bool, segs: seq<string>): string {
    if rooted then "/" + Join('/', segs) else if segs == [] then "." else Join('/', segs)
  }

  function Clean(p: string): string {
    if p == "" then "." else Render(Rooted(p), Resolve(Rooted(p), [], Split('/', p)))
  }

  /** path.Join of two elements. */
  function JoinPath(a: string, b: string): string {
    if a == "" && b == "" then "" else Clean(if a == "" then b else a + "/" + b)
  }

  /** What cleaning produces: no empty or "." segment, and ".." only at the start of an unrooted path. */
  predicate Tidy(rooted: bool, segs: seq<string>) {
    forall i :: 0 <= i < |segs| ==>
      && '/' !in segs[i] && segs[i] != "" && segs[i] != "."
      && (segs[i] == ".." ==> !rooted && forall j :: 0 <= j < i ==> segs[j] == "..")
  }

  /** Walking is walking one part after the other. */
  lemma {:induction false} WalkInParts(rooted: bool, stack: seq<string>, segs: seq<string>, more: seq<string>)
    ensures Resolve(rooted, stack, segs + more) == Resolve(rooted, Resolve(rooted, stack, segs), more)
    decreases segs
  {
    if segs == [] {
      assert segs + more == more;
    } else {
      var rest := segs[1..];
      assert (segs + more)[1..] == rest + more;
      if segs[0] == "" || segs[0] == "." {
        WalkInParts(rooted, stack, rest, more);
      } else if segs[0] != ".." {
        WalkInParts(rooted, stack + [segs[0]], rest, more);
      } else if stack != [] && stack[|stack| - 1] != ".." {
        WalkInParts(rooted, stack[..|stack| - 1], rest, more);
      } else if rooted {
        WalkInParts(rooted, stack, rest, more);
      } else {
        WalkInParts(rooted, stack + [".."], rest, more);
      }
    }
  }

  /** A name goes down, ".." goes back up, "" and "." stay, and the root has no parent. */
  lemma WalkLaws(rooted: bool, stack: seq<string>, name: string)
    requires name != "" && name != "." && name != ".."
    ensures Resolve(rooted, stack, [name]) == stack + [name]
    ensures Resolve(rooted, stack, [name, ".."]) == stack
    ensures Resolve(rooted, stack, [""]) == stack && Resolve(rooted, stack, ["."]) == stack
    ensures Resolve(true, [], [".."]) == [] && Resolve(false, [], [".."]) == [".."]
  {
    assert [name][1..] == [] && [name, ".."][1..] == [".."] && [".."][1..] == [] && [""][1..] == [] && ["."][1..] == [];
    assert (stack + [name])[..|stack|] == stack;
    assert [] + [".."] == [".."];
  }

  lemma {:induction false} ResolveTidies(rooted: bool, stack: seq<string>, segs: seq<string>)
    requires Tidy(rooted, stack) && Without('/', segs)
    ensures Tidy(rooted, Resolve(rooted, stack, segs))
    decreases segs
  {
    if segs != [] {
      if segs[0] == "" || segs[0] == "." {
        ResolveTidies(rooted, stack, segs[1..]);
      } else if segs[0] != ".." {
        ResolveTidies(rooted, stack + [segs[0]], segs[1..]);
      } else if stack != [] && stack[|stack| - 1] != ".." {
        ResolveTidies(rooted, stack[..|stack| - 1], segs[1..]);
      } else if rooted {
        ResolveTidies(rooted, stack, segs[1..]);
      } else {
        assert forall j :: 0 <= j < |stack| ==> stack[j] == "..";
        ResolveTidies(rooted, stack + [".."], segs[1..]);
      }
    }
  }

  lemma {:induction false} ResolveFixes(rooted: bool, stack: seq<string>, segs: seq<string>)
    requires Tidy(rooted, stack + segs)
    ensures Resolve(rooted, stack, segs) == stack + segs
    decreases segs
  {
    if segs != [] {
      var all := stack + segs;
      assert all[|stack|] == segs[0];
      assert stack + [segs[0]] + segs[1..] == all;
      if segs[0] == ".." && stack != [] {
        assert all[|stack| - 1] == stack[|stack| - 1];
      }
      ResolveFixes(rooted, stack + [segs[0]], segs[1..]);
    }
  }

  /** A leading slash adds an empty segment, which resolving skips. */
  lemma ResolveRooted(q: string)
    ensures Resolve(true, [], Split('/', "/" + q)) == Resolve(true, [], Split('/', q)) && Rooted("/" + q)
  {
  }

  /** The segments of a rendered path are the ones it was rendered from. */
  lemma ResolveRendered(rooted: bool, segs: seq<string>)
    requires Tidy(rooted, segs)
    ensures
      var p := Render(rooted, segs);
      Resolve(rooted, [], Split('/', p)) == segs && Rooted(p) == rooted && p != ""
  {
    ResolveFixes(rooted, [], segs);
    assert [] + segs == segs;
    if segs == [] {
      SplitN2Whole("", '/');
      SplitN2Whole(".", '/');
      assert [""][1..] == [] && ["."][1..] == [];
    } else {
      SplitJoin('/', segs);
      assert Join('/', segs)[0] == segs[0][0];
    }
    if rooted {
      ResolveRooted(Join('/', segs));
    }
  }

  /** Cleaning what was rendered from tidy segments changes nothing. */
  lemma CleanRendered(rooted: bool, segs: seq<string>)
    requires Tidy(rooted, segs)
    ensures Clean(Render(rooted, segs)) == Render(rooted, segs)
  {
    ResolveRendered(rooted, segs);
  }

  lemma CleanIsTidy(p: string)
    ensures exists segs :: Tidy(Rooted(p), segs) && Clean(p) == Render(Rooted(p), segs)
  {
    if p == "" {
      assert Tidy(Rooted(p), []) && Clean(p) == Render(Rooted(p), []);
    } else {
      ResolveTidies(Rooted(p), [], Split('/', p));
    }
  }

  lemma CleanIdempotent(p: string)
    ensures Clean(Clean(p)) == Clean(p)
  {
    CleanIsTidy(p);
    var segs :| Tidy(Rooted(p), segs) && Clean(p) == Render(Rooted(p), segs);
    CleanRendered(Rooted(p), segs);
  }

  // ---------------------------------------------------------------- relative paths

  function MakeRelativePath(p: string): string {
    var q := JoinPath("/", p);
    if q == "/" then "." else "." + q
  }

  /** Where p leads, walking from the root. */
  function Location(p: string): seq<string> {
    Resolve(true, [], Split('/', p))
  }

  /** The relative spelling of a location. */
  function Relative(segs: seq<string>): string {
    Join('/', ["."] + segs)
  }

  lemma RelativePathOf(p: string)
    ensures MakeRelativePath(p) == Relative(Location(p)) && Tidy(true, Location(p))
  {
    ResolveRooted("/" + p);
    ResolveRooted(p);
    assert "/" + ("/" + p) == "/" + "/" + p;
    ResolveTidies(true, [], Split('/', p));
    RelativeRendered(Location(p));
  }

  /** Prefixing the rendered location with a dot spells it relatively. */
  lemma RelativeRendered(segs: seq<string>)
    requires Tidy(true, segs)
    ensures
      var q := Render(true, segs);
      Relative(segs) == if q == "/" then "." else "." + q
  {
  }

  lemma LocationOfRelative(segs: seq<string>)
    requires Tidy(true, segs)
    ensures Split('/', Relative(segs)) == ["."] + segs && Location(Relative(segs)) == segs
  {
    SplitJoin('/', ["."] + segs);
    ResolveFixes(true, [], segs);
    assert (["."] + segs)[1..] == segs && [] + segs == segs;
  }

  /** The result starts with ".", and has no other "." and no empty or ".." segment. */
  predicate Canonical(p: string) {
    Split('/', p)[0] == "." && Tidy(true, Split('/', p)[1..])
  }

  /** Every path is made canonical, keeps its location, and exactly the canonical ones are unchanged. */
  lemma MakeRelativeNormalises(p: string)
    ensures Canonical(MakeRelativePath(p))
    ensures ".." !in Split('/', MakeRelativePath(p))
    ensures Location(MakeRelativePath(p)) == Location(p)
    ensures MakeRelativePath(MakeRelativePath(p)) == MakeRelativePath(p)
    ensures MakeRelativePath(p) == p <==> Canonical(p)
  {
    RelativePathOf(p);
    LocationOfRelative(Location(p));
    RelativePathOf(MakeRelativePath(p));
    assert Split('/', MakeRelativePath(p))[1..] == Location(p);
    if Canonical(p) {
      var segs := Split('/', p)[1..];
      JoinSplit('/', p);
      assert Split('/', p) == ["."] + segs;
      LocationOfRelative(segs);
    }
  }
}
