/** Lists without duplicates: what adding and removing does to them. */
module Lists {
  predicate NoDuplicates<T(==)>(ts: seq<T>) {
    forall i, j :: 0 <= i < j < |ts| ==> ts[i] != ts[j]
  }

  function Elements<T(==)>(ts: seq<T>): set<T> {
    set x | x in ts
  }

  /** The first occurrences of what is not known yet, in order. */
  function News<T(==)>(ts: seq<T>, known: set<T>): seq<T> {
    if ts == [] then []
    else
      var before, last := News(ts[..|ts| - 1], known), ts[|ts| - 1];
      if last in known || last in before then before else before + [last]
  }

  /** What fits of it. */
  function Fit<T(==)>(ts: seq<T>, room: int): seq<T> {
    if room <= 0 then [] else if room < |ts| then ts[..room] else ts
  }

  /** The list without some of its elements. */
  function Minus<T(==)>(ts: seq<T>, gone: set<T>): seq<T> {
    if ts == [] then []
    else Minus(ts[..|ts| - 1], gone) + if ts[|ts| - 1] in gone then [] else [ts[|ts| - 1]]
  }

  lemma {:induction false} NewsAreNew<T>(ts: seq<T>, known: set<T>)
    ensures NoDuplicates(News(ts, known))
    ensures forall x :: x in News(ts, known) <==> x in ts && x !in known
  {
    if ts != [] {
      var k := |ts| - 1;
      NewsAreNew(ts[..k], known);
      assert ts == ts[..k] + [ts[k]];
    }
  }

  /** Removing keeps exactly the others. */
  lemma {:induction false} MinusKeeps<T>(ts: seq<T>, gone: set<T>)
    ensures forall x :: x in Minus(ts, gone) <==> x in ts && x !in gone
    ensures NoDuplicates(ts) ==> NoDuplicates(Minus(ts, gone))
    ensures |Minus(ts, gone)| <= |ts|
  {
    if ts != [] {
      var k := |ts| - 1;
      MinusKeeps(ts[..k], gone);
      assert ts == ts[..k] + [ts[k]];
    }
  }

  /** Cutting one element out, as a list and as a set. */
  lemma CutOut<T>(ts: seq<T>, i: nat)
    requires i < |ts| && NoDuplicates(ts)
    ensures
      var cut := ts[..i] + ts[i + 1..];
      cut == Minus(ts, {ts[i]}) && NoDuplicates(cut) && Elements(cut) == Elements(ts) - {ts[i]}
  {
    MinusOne(ts, i);
    MinusKeeps(ts, {ts[i]});
  }

  lemma {:induction false} MinusSplits<T>(ts: seq<T>, us: seq<T>, gone: set<T>)
    ensures Minus(ts + us, gone) == Minus(ts, gone) + Minus(us, gone)
  {
    if us == [] {
      assert ts + us == ts;
    } else {
      var k := |us| - 1;
      MinusSplits(ts, us[..k], gone);
      assert (ts + us)[..|ts + us| - 1] == ts + us[..k];
    }
  }

  lemma {:induction false} MinusAbsent<T>(ts: seq<T>, gone: set<T>)
    requires forall x :: x in ts ==> x !in gone
    ensures Minus(ts, gone) == ts
  {
    if ts != [] {
      var k := |ts| - 1;
      MinusAbsent(ts[..k], gone);
      assert ts == ts[..k] + [ts[k]];
    }
  }

  /** Cutting one element out of a list without duplicates. */
  lemma {:induction false} MinusOne<T>(ts: seq<T>, i: nat)
    requires i < |ts| && NoDuplicates(ts)
    ensures Minus(ts, {ts[i]}) == ts[..i] + ts[i + 1..]
  {
    var k := |ts| - 1;
    if i == k {
      MinusAbsent(ts[..k], {ts[k]});
      assert ts[..i] + ts[i + 1..] == ts[..k];
    } else {
      MinusOne(ts[..k], i);
      assert ts[..k][..i] == ts[..i] && ts[..k][i + 1..] + [ts[k]] == ts[i + 1..];
    }
  }

  lemma {:induction false} MinusTwice<T>(ts: seq<T>, gone: set<T>, more: set<T>)
    ensures Minus(Minus(ts, gone), more) == Minus(ts, gone + more)
  {
    if ts != [] {
      var k := |ts| - 1;
      MinusTwice(ts[..k], gone, more);
      MinusSplits(Minus(ts[..k], gone), if ts[k] in gone then [] else [ts[k]], more);
      assert Minus([ts[k]], more) == Minus([], more) + if ts[k] in more then [] else [ts[k]];
    }
  }

  lemma {:induction false} NewsOfDistinct<T>(ts: seq<T>)
    requires NoDuplicates(ts)
    ensures News(ts, {}) == ts
  {
    if ts != [] {
      var k := |ts| - 1;
      NewsOfDistinct(ts[..k]);
      assert ts == ts[..k] + [ts[k]];
    }
  }

  /** A element that is neither known nor among the news so far makes the news longer. */
  lemma {:induction false} NewsExtend<T>(s: seq<T>, i: nat, known: set<T>)
    requires i < |s|
    ensures News(s[..i], known) <= News(s, known)
    ensures s[i] !in known && s[i] !in News(s[..i], known) ==> |News(s[..i], known)| < |News(s, known)|
    decreases |s|
  {
    var k := |s| - 1;
    if i < k {
      NewsExtend(s[..k], i, known);
      assert s[..k][..i] == s[..i];
    } else {
      assert s[..i] == s[..k];
    }
  }

  /** One more element to look at. */
  lemma NewsStep<T>(s: seq<T>, i: nat, known: set<T>)
    requires i < |s|
    ensures
      var before, after := News(s[..i], known), News(s[..i + 1], known);
      && after == (if s[i] in known || s[i] in before then before else before + [s[i]])
      && before <= after <= News(s, known)
  {
    assert s[..i + 1][..i] == s[..i];
    if i + 1 < |s| {
      NewsExtend(s, i + 1, known);
    } else {
      assert s[..i + 1] == s;
    }
  }

  /** Knowing something that is not there changes nothing. */
  lemma {:induction false} NewsIgnore<T>(ts: seq<T>, known: set<T>, x: T)
    requires x !in ts
    ensures News(ts, known + {x}) == News(ts, known)
  {
    if ts != [] {
      var k := |ts| - 1;
      assert ts == ts[..k] + [ts[k]];
      NewsIgnore(ts[..k], known, x);
    }
  }

  /** Putting new elements in front of a list. */
  lemma NewsInFront<T>(added: seq<T>, was: seq<T>)
    requires NoDuplicates(added) && NoDuplicates(was) && forall x :: x in added ==> x !in was
    ensures NoDuplicates(added + was) && Elements(added + was) == Elements(was) + Elements(added)
    ensures forall x :: x in added + was <==> x in added || x in was
  {
    var all := added + was;
    forall i, j | 0 <= i < j < |all|
      ensures all[i] != all[j]
    {
      if i < |added| <= j {
        assert all[i] in added && all[j] in was;
      }
    }
  }

  /** Something fits exactly when there is room and something new. */
  lemma RoomForNews<T>(ts: seq<T>, known: set<T>, room: int)
    ensures Fit(News(ts, known), room) != [] <==> room > 0 && exists x :: x in ts && x !in known
  {
  }

  lemma ElementsStep<T>(ts: seq<T>, x: T)
    ensures Elements(ts + [x]) == Elements(ts) + {x}
  {
  }

  lemma Prefixes<T>(s: seq<T>, i: nat)
    ensures i < |s| ==> s[..i + 1] == s[..i] + [s[i]]
    ensures s[..0] == [] && s[..|s|] == s
  {
  }

  /** One more element to remove: it is cut out, or was not there. */
  lemma MinusStep<T>(was: seq<T>, gone: seq<T>, x: T)
    ensures Minus(was, Elements(gone + [x])) == Minus(Minus(was, Elements(gone)), {x})
    ensures Meets(gone + [x], was) <==> Meets(gone, was) || x in Minus(was, Elements(gone))
  {
    assert Elements(gone + [x]) == Elements(gone) + {x};
    MinusTwice(was, Elements(gone), {x});
    MinusKeeps(was, Elements(gone));
    assert x in gone + [x];
  }

  /** Something that is to go is there. */
  ghost predicate Meets<T>(gone: seq<T>, ts: seq<T>) {
    exists x :: x in gone && x in ts
  }

  lemma MinusNothing<T>(was: seq<T>)
    ensures Minus(was, Elements([])) == was
  {
  }

  /** A prefix of the news is new and without duplicates too. */
  lemma NewsPrefix<T>(ts: seq<T>, known: set<T>, some: seq<T>)
    requires some <= News(ts, known)
    ensures NoDuplicates(some) && forall x :: x in some ==> x in ts && x !in known
  {
    NewsAreNew(ts, known);
    var news := News(ts, known);
    assert forall i :: 0 <= i < |some| ==> some[i] == news[i];
    forall x | x in some
      ensures x in news
    {
    }
  }
}
