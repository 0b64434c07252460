/**
 * Share and link filters: grouped by type, any filter of a group suffices, every group has
 * to be satisfied.
 */
module Filters {
  import opened Base
  import opened References

  // ---------------------------------------------------------------- the logical formula

  /** Some filter of type k matches. */
  ghost predicate Satisfied<F(!new), K>(fs: seq<F>, kind: F -> K, matches: F -> bool, k: K) {
    exists f :: f in fs && kind(f) == k && matches(f)
  }

  /** For each filter type present, some filter of that type matches. */
  ghost predicate Formula<F(!new), K>(fs: seq<F>, kind: F -> K, matches: F -> bool) {
    forall f :: f in fs ==> Satisfied(fs, kind, matches, kind(f))
  }

  /** Only which filters there are counts, not their order or number. */
  lemma SameFilters<F(!new), K>(fs: seq<F>, gs: seq<F>, kind: F -> K, matches: F -> bool)
    requires forall f :: f in fs <==> f in gs
    ensures Formula(fs, kind, matches) <==> Formula(gs, kind, matches)
  {
  }

  /** One more filter of a type already present can only let more through, one of a new type only less. */
  lemma OneMore<F(!new), K>(fs: seq<F>, g: F, kind: F -> K, matches: F -> bool)
    ensures (exists f :: f in fs && kind(f) == kind(g)) && Formula(fs, kind, matches) ==> Formula(fs + [g], kind, matches)
    ensures (forall f :: f in fs ==> kind(f) != kind(g)) ==>
      (Formula(fs + [g], kind, matches) <==> Formula(fs, kind, matches) && matches(g))
  {
  }

  // ---------------------------------------------------------------- the evaluation

  /** The filters of type k, in order. */
  function OfType<F, K(==)>(fs: seq<F>, kind: F -> K, k: K): seq<F> {
    if fs == [] then []
    else OfType(fs[..|fs| - 1], kind, k) + if kind(fs[|fs| - 1]) == k then [fs[|fs| - 1]] else []
  }

  lemma {:induction false} OfTypeMeans<F(!new), K>(fs: seq<F>, kind: F -> K, k: K)
    ensures forall f :: f in OfType(fs, kind, k) <==> f in fs && kind(f) == k
  {
    if fs != [] {
      var n := |fs| - 1;
      OfTypeMeans(fs[..n], kind, k);
      assert fs == fs[..n] + [fs[n]];
    }
  }

  /** GroupFiltersByType: every type present maps to its filters in order. */
  method GroupFiltersByType<F(!new), K(==, !new)>(fs: seq<F>, kind: F -> K) returns (grouped: map<K, seq<F>>)
    ensures forall k :: k in grouped <==> exists f :: f in fs && kind(f) == k
    ensures forall k :: k in grouped ==> grouped[k] == OfType(fs, kind, k)
  {
    grouped := map[];
    assert fs[..0] == [];
    for i := 0 to |fs|
      invariant forall k :: k in grouped <==> exists f :: f in fs[..i] && kind(f) == k
      invariant forall k :: (if k in grouped then grouped[k] else []) == OfType(fs[..i], kind, k)
    {
      var t := kind(fs[i]);
      assert forall f :: f in fs[..i + 1] <==> f in fs[..i] || f == fs[i];
      ghost var was := grouped;
      grouped := grouped[t := (if t in grouped then grouped[t] else []) + [fs[i]]];
      forall k
        ensures (if k in grouped then grouped[k] else []) == OfType(fs[..i + 1], kind, k)
      {
        OfTypeStep(fs, i, kind, k);
        assert (if k in was then was[k] else []) == OfType(fs[..i], kind, k);
      }
    }
    assert fs[..|fs|] == fs;
  }

  lemma OfTypeStep<F, K>(fs: seq<F>, i: nat, kind: F -> K, k: K)
    requires i < |fs|
    ensures OfType(fs[..i + 1], kind, k) == if kind(fs[i]) == k then OfType(fs[..i], kind, k) + [fs[i]] else OfType(fs[..i], kind, k)
  {
    assert fs[..i + 1][..i] == fs[..i];
  }

  /** FilterFiltersByType: the empty list when the type is not there. */
  method FilterFiltersByType<F(!new), K(==, !new)>(fs: seq<F>, kind: F -> K, k: K) returns (r: seq<F>)
    ensures r == OfType(fs, kind, k)
    ensures r == [] <==> forall f :: f in fs ==> kind(f) != k
  {
    var grouped := GroupFiltersByType(fs, kind);
    OfTypeMeans(fs, kind, k);
    r := if k in grouped then grouped[k] else [];
    assert k !in grouped ==> OfType(fs, kind, k) == [] by {
      if OfType(fs, kind, k) != [] {
        assert OfType(fs, kind, k)[0] in OfType(fs, kind, k);
      }
    }
    assert r != [] ==> r[0] in r;
  }

  method MatchesAnyFilter<F>(fs: seq<F>, matches: F -> bool) returns (any: bool)
    ensures any <==> exists i :: 0 <= i < |fs| && matches(fs[i])
  {
    for i := 0 to |fs|
      invariant forall j :: 0 <= j < i ==> !matches(fs[j])
    {
      if matches(fs[i]) {
        return true;
      }
    }
    return false;
  }

  /** MatchesFilters: whatever the order the groups are visited in, the result is the formula. */
  method MatchesFilters<F(!new), K(==, !new)>(fs: seq<F>, kind: F -> K, matches: F -> bool) returns (ok: bool)
    ensures ok <==> Formula(fs, kind, matches)
  {
    if |fs| == 0 {
      return true;
    }
    var grouped := GroupFiltersByType(fs, kind);
    var left := grouped.Keys;
    while left != {}
      invariant left <= grouped.Keys
      invariant forall k :: k in grouped && k !in left ==> Satisfied(fs, kind, matches, k)
      decreases left
    {
      var k :| k in left;
      var any := MatchesAnyFilter(grouped[k], matches);
      OfTypeMeans(fs, kind, k);
      if !any {
        GroupFails(fs, kind, matches, k);
        return false;
      }
      left := left - {k};
    }
    return true;
  }

  lemma GroupFails<F(!new), K(!new)>(fs: seq<F>, kind: F -> K, matches: F -> bool, k: K)
    requires exists f :: f in fs && kind(f) == k
    requires forall f :: f in OfType(fs, kind, k) ==> !matches(f)
    ensures !Formula(fs, kind, matches)
  {
    OfTypeMeans(fs, kind, k);
    var f :| f in fs && kind(f) == k;
    assert !Satisfied(fs, kind, matches, kind(f));
  }

  // ---------------------------------------------------------------- user and group shares

  datatype Grantee = UserGrantee | GroupGrantee | OtherGrantee

  /** State is the code the share manager keeps; none is passed for shares nobody received. */
  type ShareState = int
  const NO_STATE: ShareState := -1

  datatype Share = Share(resource: Option<ResourceId>, grantee: Grantee, permissions: set<nat>)

  datatype ShareFilter =
    | ByResource(resource: Option<ResourceId>)
    | ByGrantee(grantee: Grantee)
    | ExcludeDenials
    | BySpace(spaceId: string)
    | ByState(state: ShareState)
    | ByOther(code: nat)

  datatype ShareFilterType = ResourceType | GranteeType | DenialType | SpaceType | StateType | OtherType(code: nat)

  function TypeOf(f: ShareFilter): ShareFilterType {
    match f
    case ByResource(_) => ResourceType
    case ByGrantee(_) => GranteeType
    case ExcludeDenials => DenialType
    case BySpace(_) => SpaceType
    case ByState(_) => StateType
    case ByOther(code) => OtherType(code)
  }

  /** utils.ResourceIDEqual: a missing id equals nothing. */
  predicate ResourceIDEqual(a: Option<ResourceId>, b: Option<ResourceId>) {
    a.Some? && b.Some? && a == b
  }

  predicate ShareMatches(share: Share, state: ShareState, f: ShareFilter) {
    match f
    case ByResource(id) => ResourceIDEqual(share.resource, id)
    case ByGrantee(g) => share.grantee == g
    case ExcludeDenials => share.permissions != {}
    case BySpace(space) => share.resource.Some? && share.resource.value.spaceId == space
    case ByState(s) => state == s
    case ByOther(_) => false
  }

  /** The one filter of the same type that names what the share has, if any does. */
  function Fitting(share: Share, state: ShareState, f: ShareFilter): Option<ShareFilter> {
    match f
    case ByResource(_) => if share.resource.None? then None else Some(ByResource(share.resource))
    case ByGrantee(_) => Some(ByGrantee(share.grantee))
    case ExcludeDenials => if share.permissions == {} then None else Some(ExcludeDenials)
    case BySpace(_) => if share.resource.None? then None else Some(BySpace(share.resource.value.spaceId))
    case ByState(_) => Some(ByState(state))
    case ByOther(_) => None
  }

  lemma MatchIsFitting(share: Share, state: ShareState, f: ShareFilter, g: ShareFilter)
    requires TypeOf(g) == TypeOf(f)
    ensures ShareMatches(share, state, g) <==> Fitting(share, state, f) == Some(g)
  {
  }

  predicate HasFitting(share: Share, state: ShareState, fs: seq<ShareFilter>, f: ShareFilter) {
    Fitting(share, state, f).Some? && Fitting(share, state, f).value in fs
  }

  /** A share passes exactly when for each filter the fitting one is among them. */
  ghost predicate Passes(share: Share, state: ShareState, fs: seq<ShareFilter>) {
    forall f {:trigger HasFitting(share, state, fs, f)} :: f in fs ==> HasFitting(share, state, fs, f)
  }

  lemma SatisfiedIsFitting(share: Share, state: ShareState, fs: seq<ShareFilter>, f: ShareFilter)
    ensures
      Satisfied(fs, TypeOf, f => ShareMatches(share, state, f), TypeOf(f)) <==> HasFitting(share, state, fs, f)
  {
    var matches := f => ShareMatches(share, state, f);
    if Satisfied(fs, TypeOf, matches, TypeOf(f)) {
      var g :| g in fs && TypeOf(g) == TypeOf(f) && matches(g);
      MatchIsFitting(share, state, f, g);
    }
    if HasFitting(share, state, fs, f) {
      var g := Fitting(share, state, f).value;
      MatchIsFitting(share, state, f, g);
      assert TypeOf(g) == TypeOf(f) && matches(g);
    }
  }

  lemma FormulaIsPasses(share: Share, state: ShareState, fs: seq<ShareFilter>)
    ensures Formula(fs, TypeOf, f => ShareMatches(share, state, f)) <==> Passes(share, state, fs)
  {
    forall f
      ensures
        Satisfied(fs, TypeOf, f => ShareMatches(share, state, f), TypeOf(f)) <==> HasFitting(share, state, fs, f)
    {
      SatisfiedIsFitting(share, state, fs, f);
    }
  }

  /** MatchesFiltersWithState, and MatchesFilters with NO_STATE; a space filter looks into the resource id unasked. */
  method ShareMatchesFilters(share: Share, state: ShareState, fs: seq<ShareFilter>) returns (ok: bool)
    requires forall f :: f in fs && f.BySpace? ==> share.resource.Some?
    ensures ok <==> Formula(fs, TypeOf, f => ShareMatches(share, state, f))
    ensures ok <==> Passes(share, state, fs)
    ensures (exists f :: f in fs && f.ByOther?) ==> !ok
    ensures state == NO_STATE && (exists f :: f in fs && f.ByState?) && (forall f :: f in fs && f.ByState? ==> f.state != NO_STATE) ==> !ok
  {
    ok := MatchesFilters(fs, TypeOf, f => ShareMatches(share, state, f));
    FormulaIsPasses(share, state, fs);
    if f :| f in fs && f.ByOther? {
      assert !HasFitting(share, state, fs, f);
    }
    if f :| f in fs && f.ByState? {
      assert HasFitting(share, state, fs, f) <==> ByState(state) in fs;
    }
  }

  // ---------------------------------------------------------------- public links

  datatype LinkFilter = LinkByResource(resource: Option<ResourceId>) | LinkByStorage(storageId: string) | LinkByOther(code: nat)

  datatype LinkFilterType = LinkResourceType | LinkStorageType | LinkOtherType(code: nat)

  function LinkTypeOf(f: LinkFilter): LinkFilterType {
    match f
    case LinkByResource(_) => LinkResourceType
    case LinkByStorage(_) => LinkStorageType
    case LinkByOther(code) => LinkOtherType(code)
  }

  predicate LinkMatches(resource: Option<ResourceId>, f: LinkFilter) {
    match f
    case LinkByResource(id) => ResourceIDEqual(resource, id)
    case LinkByStorage(storage) => (if resource.Some? then resource.value.storageId else "") == storage
    case LinkByOther(_) => false
  }

  /** The one filter of the same type that names what the link has; a link without a resource has the empty storage. */
  function LinkFitting(resource: Option<ResourceId>, f: LinkFilter): Option<LinkFilter> {
    match f
    case LinkByResource(_) => if resource.None? then None else Some(LinkByResource(resource))
    case LinkByStorage(_) => Some(LinkByStorage(if resource.None? then "" else resource.value.storageId))
    case LinkByOther(_) => None
  }

  predicate HasLinkFitting(resource: Option<ResourceId>, fs: seq<LinkFilter>, f: LinkFilter) {
    LinkFitting(resource, f).Some? && LinkFitting(resource, f).value in fs
  }

  ghost predicate LinkPasses(resource: Option<ResourceId>, fs: seq<LinkFilter>) {
    forall f {:trigger HasLinkFitting(resource, fs, f)} :: f in fs ==> HasLinkFitting(resource, fs, f)
  }

  lemma SatisfiedIsLinkFitting(resource: Option<ResourceId>, fs: seq<LinkFilter>, f: LinkFilter)
    ensures
      Satisfied(fs, LinkTypeOf, f => LinkMatches(resource, f), LinkTypeOf(f)) <==> HasLinkFitting(resource, fs, f)
  {
    var matches := f => LinkMatches(resource, f);
    if Satisfied(fs, LinkTypeOf, matches, LinkTypeOf(f)) {
      var g :| g in fs && LinkTypeOf(g) == LinkTypeOf(f) && matches(g);
      assert LinkFitting(resource, f) == Some(g);
    }
    if HasLinkFitting(resource, fs, f) {
      var g := LinkFitting(resource, f).value;
      assert LinkTypeOf(g) == LinkTypeOf(f) && matches(g);
    }
  }

  lemma FormulaIsLinkPasses(resource: Option<ResourceId>, fs: seq<LinkFilter>)
    ensures Formula(fs, LinkTypeOf, f => LinkMatches(resource, f)) <==> LinkPasses(resource, fs)
  {
    forall f
      ensures
        Satisfied(fs, LinkTypeOf, f => LinkMatches(resource, f), LinkTypeOf(f)) <==> HasLinkFitting(resource, fs, f)
    {
      SatisfiedIsLinkFitting(resource, fs, f);
    }
  }

  method LinkMatchesFilters(resource: Option<ResourceId>, fs: seq<LinkFilter>) returns (ok: bool)
    ensures ok <==> Formula(fs, LinkTypeOf, f => LinkMatches(resource, f))
    ensures ok <==> LinkPasses(resource, fs)
  {
    FormulaIsLinkPasses(resource, fs);
    ok := MatchesFilters(fs, LinkTypeOf, f => LinkMatches(resource, f));
  }
}
