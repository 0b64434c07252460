/** The string splitting the rest of the model is written with. */
module Text {
  import opened Base

  /** Position of the first separator, or the length when there is none. */
  function IndexOf(s: string, sep: char): (i: nat)
    ensures i <= |s|
    ensures i < |s| ==> s[i] == sep
    ensures forall j :: 0 <= j < i ==> s[j] != sep
  {
    if s == "" || s[0] == sep then 0 else 1 + IndexOf(s[1..], sep)
  }

  /** strings.SplitN(s, sep, 2): what precedes the first separator, and what follows it if there is one. */
  datatype Halves = Halves(head: string, tail: Option<string>)

  function SplitN2(s: string, sep: char): (h: Halves)
    ensures sep !in h.head
    ensures h.tail.None? ==> h.head == s
    ensures h.tail.Some? ==> s == h.head + [sep] + h.tail.value
  {
    var i := IndexOf(s, sep);
    if i == |s| then Halves(s, None) else Halves(s[..i], Some(s[i + 1..]))
  }

  /** The first separator decides: a head without one is cut off exactly. */
  lemma SplitN2Join(head: string, sep: char, tail: string)
    requires sep !in head
    ensures SplitN2(head + [sep] + tail, sep) == Halves(head, Some(tail))
  {
    var s := head + [sep] + tail;
    var i := IndexOf(s, sep);
    assert s[|head|] == sep;
    assert forall j :: 0 <= j < |head| ==> s[j] == head[j];
    assert s[..|head|] == head;
    assert s[|head| + 1..] == tail;
  }

  lemma SplitN2Whole(s: string, sep: char)
    requires sep !in s
    ensures SplitN2(s, sep) == Halves(s, None)
  {
  }

  // ---------------------------------------------------------------- splitting at every separator

  /** No piece holds the separator. */
  predicate Without(sep: char, parts: seq<string>) {
    forall i :: 0 <= i < |parts| ==> sep !in parts[i]
  }

  /** strings.Split for a one-character separator. */
  function Split(sep: char, s: string): (parts: seq<string>)
    ensures parts != [] && Without(sep, parts)
    decreases |s|
  {
    var h := SplitN2(s, sep);
    if h.tail.None? then [h.head] else [h.head] + Split(sep, h.tail.value)
  }

  /** strings.Join. */
  function Join(sep: char, parts: seq<string>): string {
    if parts == [] then "" else if |parts| == 1 then parts[0] else parts[0] + [sep] + Join(sep, parts[1..])
  }

  lemma SplitFirst(sep: char, head: string, tail: string)
    requires sep !in head
    ensures Split(sep, head + [sep] + tail) == [head] + Split(sep, tail)
  {
    SplitN2Join(head, sep, tail);
  }

  /** Splitting undoes joining for pieces without the separator. */
  lemma {:induction false} SplitJoin(sep: char, parts: seq<string>)
    requires parts != [] && Without(sep, parts)
    ensures Split(sep, Join(sep, parts)) == parts
  {
    if |parts| == 1 {
      SplitN2Whole(parts[0], sep);
    } else {
      SplitJoin(sep, parts[1..]);
      SplitFirst(sep, parts[0], Join(sep, parts[1..]));
    }
  }

  /** Joining undoes splitting for every text. */
  lemma {:induction false} JoinSplit(sep: char, s: string)
    ensures Join(sep, Split(sep, s)) == s
    decreases |s|
  {
    var h := SplitN2(s, sep);
    if h.tail.Some? {
      JoinSplit(sep, h.tail.value);
      assert Split(sep, s)[1..] == Split(sep, h.tail.value);
    }
  }
}
