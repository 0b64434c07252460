/** Telling a missing directory from an invisible one by walking up its ancestors. */
module MissingParent {
  import opened Base
  import opened Text
  import opened Paths

  datatype ParentError = Missing | Denied | Failed

  /** What GetMD says about a directory. */
  datatype Lookup = Found(mayUpload: bool) | Absent | Broken

  /** filepath.Dir: the text up to its last slash, cleaned. */
  function Dir(p: string): string {
    Clean(p[..AfterLastSlash(p)])
  }

  function AfterLastSlash(p: string): (i: nat)
    ensures i <= |p|
    ensures i > 0 ==> p[i - 1] == '/'
    ensures forall j :: i <= j < |p| ==> p[j] != '/'
  {
    if p == "" then 0 else if p[|p| - 1] == '/' then |p| else AfterLastSlash(p[..|p| - 1])
  }

  /** The directories filepath.Dir can return: those cleaning leaves alone. */
  predicate IsDir(p: string) {
    Clean(p) == p
  }

  lemma DirIsDir(p: string)
    ensures IsDir(Dir(p))
  {
    CleanIdempotent(p[..AfterLastSlash(p)]);
  }

  /** The segments of a cleaned directory; none for "." and "/". */
  function Depth(p: string): seq<string> {
    Resolve(Rooted(p), [], Split('/', p))
  }

  lemma DepthOf(p: string)
    requires IsDir(p)
    ensures p != "" && p == Render(Rooted(p), Depth(p)) && Tidy(Rooted(p), Depth(p))
    ensures p == "." || p == "/" <==> Depth(p) == []
  {
    ResolveTidies(Rooted(p), [], Split('/', p));
    var segs := Depth(p);
    if segs != [] {
      assert segs[0] != "" && segs[0] != ".";
      if |segs| > 1 {
        assert Join('/', segs)[|segs[0]|] == '/';
      }
    }
  }

  /** One level up: the last segment goes. */
  function Up(p: string, k: nat): string
    requires k <= |Depth(p)|
  {
    Render(Rooted(p), Depth(p)[..k])
  }

  lemma {:induction false} JoinLast(segs: seq<string>)
    requires |segs| > 1
    ensures
      var k := |segs| - 1;
      Join('/', segs) == Join('/', segs[..k]) + "/" + segs[k]
  {
    var k := |segs| - 1;
    if |segs| == 2 {
      assert segs[..1] == [segs[0]] && segs[1..] == [segs[1]];
    } else {
      JoinLast(segs[1..]);
      assert segs[1..][..k - 1] == segs[..k][1..];
      assert Join('/', segs) == segs[0] + "/" + (Join('/', segs[1..k]) + "/" + segs[k]);
    }
  }

  lemma {:induction false} LastSlashOf(head: string, last: string)
    requires '/' !in last
    ensures AfterLastSlash(head + "/" + last) == |head| + 1
    decreases |last|
  {
    var s := head + "/" + last;
    if last != "" {
      var k := |last| - 1;
      assert s[..|s| - 1] == head + "/" + last[..k];
      assert s[|s| - 1] == last[k];
      LastSlashOf(head, last[..k]);
    } else {
      assert s[|s| - 1] == '/';
    }
  }

  /** Dir drops exactly the last segment, so the walk ends although "a" does not get shorter. */
  lemma DirGoesUp(p: string)
    requires IsDir(p) && p != "." && p != "/"
    ensures
      var k := |Depth(p)| - 1;
      && k >= 0 && Dir(p) == Up(p, k) && Rooted(Dir(p)) == Rooted(p)
      && IsDir(Dir(p)) && Depth(Dir(p)) == Depth(p)[..k]
  {
    DepthOf(p);
    var rooted, segs := Rooted(p), Depth(p);
    var k := |segs| - 1;
    var up := segs[..k];
    assert Tidy(rooted, up);
    CleanRendered(rooted, up);
    assert p[..AfterLastSlash(p)] == CutOff(rooted, up) by {
      CutIsCutOff(rooted, segs);
    }
    CleanCutOff(rooted, up);
    ResolveRendered(rooted, up);
  }

  /** What remains of a rendered path once its last segment is cut off. */
  function CutOff(rooted: bool, up: seq<string>): string {
    if rooted then (if up == [] then "/" else "/" + Join('/', up) + "/") else (if up == [] then "" else Join('/', up) + "/")
  }

  lemma CutIsCutOff(rooted: bool, segs: seq<string>)
    requires Tidy(rooted, segs) && segs != []
    ensures
      var p := Render(rooted, segs);
      p[..AfterLastSlash(p)] == CutOff(rooted, segs[..|segs| - 1])
  {
    var p, k := Render(rooted, segs), |segs| - 1;
    if k == 0 {
      assert Join('/', segs) == segs[0];
      if rooted {
        LastSlashOf("", segs[0]);
        assert p == "" + "/" + segs[0];
      }
    } else {
      JoinLast(segs);
      if rooted {
        LastSlashOf("/" + Join('/', segs[..k]), segs[k]);
        assert p == "/" + Join('/', segs[..k]) + "/" + segs[k];
      } else {
        LastSlashOf(Join('/', segs[..k]), segs[k]);
      }
    }
  }

  lemma {:induction false} JoinTrailing(segs: seq<string>)
    requires segs != []
    ensures Join('/', segs + [""]) == Join('/', segs) + "/"
  {
    var all := segs + [""];
    assert all[1..] == segs[1..] + [""];
    if |segs| > 1 {
      JoinTrailing(segs[1..]);
      assert segs[0] + "/" + (Join('/', segs[1..]) + "/") == (segs[0] + "/" + Join('/', segs[1..])) + "/";
    } else {
      assert all[1..] == [""] && Join('/', [""]) == "";
      assert segs[0] + "/" + "" == segs[0] + "/";
    }
  }

  lemma {:induction false} ResolveTrailing(rooted: bool, stack: seq<string>, segs: seq<string>)
    ensures Resolve(rooted, stack, segs + [""]) == Resolve(rooted, stack, segs)
    decreases segs
  {
    if segs == [] {
      assert ([] + [""])[1..] == [];
    } else {
      assert (segs + [""])[1..] == segs[1..] + [""];
      assert (segs + [""])[0] == segs[0];
      var rest := segs[1..];
      if segs[0] == "" || segs[0] == "." {
        ResolveTrailing(rooted, stack, rest);
      } else if segs[0] != ".." {
        ResolveTrailing(rooted, stack + [segs[0]], rest);
      } else if stack != [] && stack[|stack| - 1] != ".." {
        ResolveTrailing(rooted, stack[..|stack| - 1], rest);
      } else if rooted {
        ResolveTrailing(rooted, stack, rest);
      } else {
        ResolveTrailing(rooted, stack + [".."], rest);
      }
    }
  }

  lemma ResolveCutOff(rooted: bool, up: seq<string>)
    requires Tidy(rooted, up) && up != []
    ensures Resolve(rooted, [], Split('/', Join('/', up) + "/")) == up
  {
    JoinTrailing(up);
    SplitJoin('/', up + [""]);
    ResolveTrailing(rooted, [], up);
    ResolveFixes(rooted, [], up);
    assert [] + up == up;
  }

  lemma CleanCutOffRooted(up: seq<string>)
    requires Tidy(true, up)
    ensures Clean(CutOff(true, up)) == Render(true, up)
  {
    var q := if up == [] then "" else Join('/', up) + "/";
    assert CutOff(true, up) == "/" + q;
    ResolveRooted(q);
    if up == [] {
      SplitN2Whole("", '/');
      assert [""][1..] == [];
    } else {
      ResolveCutOff(true, up);
    }
  }

  lemma CleanCutOff(rooted: bool, up: seq<string>)
    requires Tidy(rooted, up)
    ensures Clean(CutOff(rooted, up)) == Render(rooted, up)
  {
    if rooted {
      CleanCutOffRooted(up);
    } else if up != [] {
      ResolveCutOff(false, up);
      assert CutOff(false, up)[0] == up[0][0];
    }
  }

  /** Some proper ancestor of dir is visible. */
  ghost predicate AncestorVisible(dir: string, visible: string -> bool) {
    exists k :: 0 <= k < |Depth(dir)| && visible(Up(dir, k))
  }

  lemma TidyPrefix(rooted: bool, segs: seq<string>, n: nat)
    requires Tidy(rooted, segs) && n <= |segs|
    ensures Tidy(rooted, segs[..n]) && (n > 0 ==> segs[..n][..n - 1] == segs[..n - 1])
  {
  }

  lemma DepthRendered(rooted: bool, segs: seq<string>)
    requires Tidy(rooted, segs)
    ensures
      var p := Render(rooted, segs);
      IsDir(p) && Rooted(p) == rooted && Depth(p) == segs
  {
    CleanRendered(rooted, segs);
    ResolveRendered(rooted, segs);
  }

  lemma TopOfRendered(rooted: bool, segs: seq<string>)
    requires Tidy(rooted, segs)
    ensures
      var p := Render(rooted, segs);
      p == "." || p == "/" <==> segs == []
  {
    DepthRendered(rooted, segs);
    DepthOf(Render(rooted, segs));
  }

  /** Dir of a rendered path cuts off the last segment. */
  lemma DirOfRendered(rooted: bool, segs: seq<string>)
    requires Tidy(rooted, segs) && segs != []
    ensures Dir(Render(rooted, segs)) == Render(rooted, segs[..|segs| - 1])
  {
    CutIsCutOff(rooted, segs);
    TidyPrefix(rooted, segs, |segs| - 1);
    CleanCutOff(rooted, segs[..|segs| - 1]);
  }

  lemma WalkUp(rooted: bool, segs: seq<string>, n: nat)
    requires Tidy(rooted, segs) && n <= |segs|
    ensures
      var p := Render(rooted, segs[..n]);
      && (p == "." || p == "/" <==> n == 0)
      && (n > 0 ==> Dir(p) == Render(rooted, segs[..n - 1]))
  {
    TidyPrefix(rooted, segs, n);
    TopOfRendered(rooted, segs[..n]);
    if n > 0 {
      DirOfRendered(rooted, segs[..n]);
    }
  }

  /** The ancestors of dir from the top down to dir itself, as the walk meets them backwards. */
  ghost predicate IsChain(dir: string, chain: seq<string>) {
    && |chain| == |Depth(dir)| + 1 && chain[|chain| - 1] == dir
    && (forall k :: 0 <= k < |chain| ==> (chain[k] == "." || chain[k] == "/" <==> k == 0))
    && (forall k :: 0 < k < |chain| ==> Dir(chain[k]) == chain[k - 1])
    && (forall k :: 0 <= k < |Depth(dir)| ==> chain[k] == Up(dir, k))
  }

  lemma ChainOf(dir: string) returns (chain: seq<string>)
    requires IsDir(dir)
    ensures IsChain(dir, chain)
  {
    DepthOf(dir);
    var rooted, segs := Rooted(dir), Depth(dir);
    chain := seq(|segs| + 1, k requires 0 <= k <= |segs| => Render(rooted, segs[..k]));
    assert segs[..|segs|] == segs;
    forall k | 0 <= k < |chain|
      ensures chain[k] == "." || chain[k] == "/" <==> k == 0
      ensures k > 0 ==> Dir(chain[k]) == chain[k - 1]
    {
      WalkUp(rooted, segs, k);
    }
  }

  lemma ChainShowsAncestors(dir: string, chain: seq<string>, visible: string -> bool)
    requires IsChain(dir, chain)
    ensures (exists k :: 0 <= k < |chain| - 1 && visible(chain[k])) <==> AncestorVisible(dir, visible)
  {
  }

  /** missingParentError: a visible ancestor means the directory is missing, otherwise it may be hidden. */
  method MissingParentError(dir: string, visible: string -> bool) returns (err: ParentError)
    requires IsDir(dir)
    ensures err == if AncestorVisible(dir, visible) then Missing else Denied
  {
    ghost var chain := ChainOf(dir);
    ChainShowsAncestors(dir, chain, visible);
    var ancestor := dir;
    ghost var n := |chain| - 1;
    while ancestor != "." && ancestor != "/"
      invariant 0 <= n < |chain| && ancestor == chain[n]
      invariant forall k :: n <= k < |chain| - 1 ==> !visible(chain[k])
      decreases n
    {
      assert Dir(chain[n]) == chain[n - 1];
      ancestor := Dir(ancestor);
      n := n - 1;
      if visible(ancestor) {
        assert visible(chain[n]);
        return Missing;
      }
    }
    return Denied;
  }

  /**
   * describeNew: a new file is accepted exactly when its directory is found and may be
   * uploaded to.  A directory that is not found is missing only where an ancestor is seen.
   */
  method DescribeNew(path: string, stat: string -> Lookup) returns (err: Option<ParentError>)
    ensures err == None <==> stat(Dir(path)) == Found(true)
    ensures err == Some(Missing) <==> stat(Dir(path)).Absent? && AncestorVisible(Dir(path), p => stat(p).Found?)
    ensures err == Some(Failed) <==> stat(Dir(path)).Broken?
  {
    var dir := Dir(path);
    match stat(dir) {
      case Found(mayUpload) => err := if mayUpload then None else Some(Denied);
      case Absent =>
        DirIsDir(path);
        var e := MissingParentError(dir, p => stat(p).Found?);
        err := Some(e);
      case Broken => err := Some(Failed);
    }
  }
}
