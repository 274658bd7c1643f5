/** The property reducers (the classes under src/Reducer): each takes the serialized name of a
    collection and its variations, and returns a selection or reordering of them.
    Reducers only read the variations, so they work on snapshots of them. */
module Reducers {
  import opened Wrappers
  import opened Sequences
  import opened VersionOrder
  import opened VersionRanges
  import opened Variations

  datatype Reducer =
    | GroupReducer(groups: seq<string>)
    | VersionReducer(version: VersionNumber)
    | OldestVersionReducer
    | PreferredReducer
    | TakeBestReducer

  // ---------------------------------------------------------------- GroupReducer

  /** includeProperty: no groups requested, or the variation shares a group with them. */
  predicate InGroups(requested: seq<string>, v: Variation) {
    |requested| == 0 || exists g :: g in v.groups && g in requested
  }

  function GroupKeep(requested: seq<string>): Variation -> bool {
    (v: Variation) => InGroups(requested, v)
  }

  function GroupSelection(requested: seq<string>, vs: seq<Variation>): seq<Variation> {
    Filter(vs, GroupKeep(requested))
  }

  /** GroupReducer::reduce; the serialized name plays no part. */
  method ReduceByGroup(requested: seq<string>, vs: seq<Variation>) returns (r: seq<Variation>)
    ensures r == GroupSelection(requested, vs)
  {
    r := [];
    for i := 0 to |vs|
      invariant r == Filter(vs[..i], GroupKeep(requested))
    {
      assert vs[..i + 1] == vs[..i] + [vs[i]];
      FilterSnoc(vs[..i], vs[i], GroupKeep(requested));
      if InGroups(requested, vs[i]) {
        r := r + [vs[i]];
      }
    }
    assert vs[..|vs|] == vs;
  }

  /** The selection keeps the order, and keeps a variation iff it shares a requested group. */
  lemma {:induction false} GroupSelectionKeeps(requested: seq<string>, vs: seq<Variation>)
    ensures Subsequence(GroupSelection(requested, vs), vs)
    ensures forall v :: v in GroupSelection(requested, vs) <==>
      v in vs && (|requested| == 0 || exists g :: g in v.groups && g in requested)
  {
    FilterSubsequence(vs, GroupKeep(requested));
  }

  /** With no requested groups nothing is dropped. */
  lemma {:induction false} GroupSelectionNoGroups(vs: seq<Variation>)
    ensures GroupSelection([], vs) == vs
  {
    FilterAll(vs, GroupKeep([]));
  }

  /** A variation without groups never survives a group request. */
  lemma {:induction false} GroupSelectionDropsUngrouped(requested: seq<string>, vs: seq<Variation>, v: Variation)
    requires |requested| > 0 && v.groups == []
    ensures v !in GroupSelection(requested, vs)
  {
    FilterSubsequence(vs, GroupKeep(requested));
  }

  lemma {:induction false} GroupSelectionIdempotent(requested: seq<string>, vs: seq<Variation>)
    ensures GroupSelection(requested, GroupSelection(requested, vs)) == GroupSelection(requested, vs)
  {
    FilterIdempotent(vs, GroupKeep(requested));
  }

  // -------------------------------------------------------------- VersionReducer

  function VersionKeep(version: VersionNumber): Variation -> bool {
    (v: Variation) => v.versionRange.IsIncluded(version)
  }

  function VersionSelection(version: VersionNumber, vs: seq<Variation>): seq<Variation> {
    Filter(vs, VersionKeep(version))
  }

  /** VersionReducer::reduce */
  method ReduceByVersion(version: VersionNumber, vs: seq<Variation>) returns (r: seq<Variation>)
    ensures r == VersionSelection(version, vs)
  {
    r := [];
    for i := 0 to |vs|
      invariant r == Filter(vs[..i], VersionKeep(version))
    {
      assert vs[..i + 1] == vs[..i] + [vs[i]];
      FilterSnoc(vs[..i], vs[i], VersionKeep(version));
      if vs[i].versionRange.IsIncluded(version) {
        r := r + [vs[i]];
      }
    }
    assert vs[..|vs|] == vs;
  }

  /** The selection keeps the order, and keeps exactly the variations whose range includes
      the version; it is empty when no range does. */
  lemma {:induction false} VersionSelectionKeeps(version: VersionNumber, vs: seq<Variation>)
    ensures Subsequence(VersionSelection(version, vs), vs)
    ensures forall v :: v in VersionSelection(version, vs) <==> v in vs && v.versionRange.IsIncluded(version)
    ensures (forall i :: 0 <= i < |vs| ==> !vs[i].versionRange.IsIncluded(version)) ==>
      VersionSelection(version, vs) == []
  {
    FilterSubsequence(vs, VersionKeep(version));
    if forall i :: 0 <= i < |vs| ==> !vs[i].versionRange.IsIncluded(version) {
      FilterNone(vs, VersionKeep(version));
    }
  }

  lemma {:induction false} VersionSelectionIdempotent(version: VersionNumber, vs: seq<Variation>)
    ensures VersionSelection(version, VersionSelection(version, vs)) == VersionSelection(version, vs)
  {
    FilterIdempotent(vs, VersionKeep(version));
  }

  // -------------------------------------------------------- OldestVersionReducer

  function Unversioned(): Variation -> bool {
    (v: Variation) => v.versionRange.since.None?
  }

  /** `$lowest` after the loop has seen `vs`: the last versioned variation that allows a
      lower version than every versioned one before it. */
  function LowestOf(vs: seq<Variation>): Option<Variation> {
    if |vs| == 0 then None
    else
      var lowest := LowestOf(vs[..|vs| - 1]);
      var v := vs[|vs| - 1];
      if v.versionRange.since.None? then lowest
      else if lowest.None? || v.versionRange.AllowsLowerThan(lowest.value.versionRange) then Some(v)
      else lowest
  }

  /** There is a lowest variation iff some variation has a lower bound; it is the first
      variation whose lower bound is not above any other lower bound. */
  lemma {:induction false} LowestOfIsOldest(vs: seq<Variation>)
    ensures LowestOf(vs).None? <==> forall i :: 0 <= i < |vs| ==> vs[i].versionRange.since.None?
    ensures LowestOf(vs).Some? ==>
      var l := LowestOf(vs).value;
      l.versionRange.since.Some? &&
      (exists i :: 0 <= i < |vs| && vs[i] == l &&
        forall j :: 0 <= j < i && vs[j].versionRange.since.Some? ==>
          Less(l.versionRange.since.value, vs[j].versionRange.since.value)) &&
      (forall j :: 0 <= j < |vs| && vs[j].versionRange.since.Some? ==>
          !Less(vs[j].versionRange.since.value, l.versionRange.since.value))
  {
    if |vs| > 0 {
      var n := |vs| - 1;
      var p, x := vs[..n], vs[n];
      assert forall j :: 0 <= j < n ==> vs[j] == p[j];
      LowestOfIsOldest(p);
      var lowest := LowestOf(p);
      if x.versionRange.since.None? {
        if lowest.Some? {
          var l := lowest.value;
          var i :| 0 <= i < |p| && p[i] == l &&
            forall j :: 0 <= j < i && p[j].versionRange.since.Some? ==>
              Less(l.versionRange.since.value, p[j].versionRange.since.value);
          assert vs[i] == l;
        }
      } else if lowest.None? {
        LessIrreflexive(x.versionRange.since.value);
        assert vs[n] == x;
      } else {
        var l := lowest.value;
        var ls, xs := l.versionRange.since.value, x.versionRange.since.value;
        if Less(xs, ls) {
          forall j | 0 <= j < n && vs[j].versionRange.since.Some?
            ensures Less(xs, vs[j].versionRange.since.value) && !Less(vs[j].versionRange.since.value, xs)
          {
            var js := vs[j].versionRange.since.value;
            assert !Less(js, ls);
            if Less(js, xs) {
              LessTransitive(js, xs, ls);
            }
            assert js != xs;
            LessTotal(js, xs);
          }
          LessIrreflexive(xs);
          assert vs[n] == x;
        } else {
          var i :| 0 <= i < |p| && p[i] == l &&
            forall j :: 0 <= j < i && p[j].versionRange.since.Some? ==>
              Less(ls, p[j].versionRange.since.value);
          assert vs[i] == l;
        }
      }
    }
  }

  /** The lowest variation, when there is one, is a variation of the input. */
  lemma {:induction false} LowestOfIndex(vs: seq<Variation>) returns (i: nat)
    requires LowestOf(vs).Some?
    ensures i < |vs| && vs[i] == LowestOf(vs).value
  {
    LowestOfIsOldest(vs);
    i :| 0 <= i < |vs| && vs[i] == LowestOf(vs).value;
  }

  function OldestSelection(vs: seq<Variation>): seq<Variation> {
    var unversioned := Filter(vs, Unversioned());
    if |unversioned| > 0 then unversioned
    else match LowestOf(vs)
      case Some(l) => [l]
      case None => vs
  }

  /** OldestVersionReducer::reduce */
  method ReduceByOldestVersion(vs: seq<Variation>) returns (r: seq<Variation>)
    ensures r == OldestSelection(vs)
  {
    var lowest: Option<Variation> := None;
    var unversioned: seq<Variation> := [];
    for i := 0 to |vs|
      invariant lowest == LowestOf(vs[..i])
      invariant unversioned == Filter(vs[..i], Unversioned())
    {
      var v := vs[i];
      assert vs[..i + 1] == vs[..i] + [v] && vs[..i + 1][..i] == vs[..i];
      FilterSnoc(vs[..i], v, Unversioned());
      if v.versionRange.since.None? {
        unversioned := unversioned + [v];
      } else if lowest.None? || v.versionRange.AllowsLowerThan(lowest.value.versionRange) {
        lowest := Some(v);
      }
    }
    assert vs[..|vs|] == vs;
    if |unversioned| > 0 {
      return unversioned;
    }
    if lowest.Some? {
      return [lowest.value];
    }
    return vs;
  }

  /** Unversioned variations win as a group; otherwise a single oldest one is chosen. The
      result is a subsequence of the input, non-empty iff the input is. */
  lemma {:induction false} OldestSelectionShape(vs: seq<Variation>)
    ensures Subsequence(OldestSelection(vs), vs)
    ensures |OldestSelection(vs)| > 0 <==> |vs| > 0
    ensures (exists i :: 0 <= i < |vs| && vs[i].versionRange.since.None?) ==>
      OldestSelection(vs) == Filter(vs, Unversioned())
    ensures (forall i :: 0 <= i < |vs| ==> vs[i].versionRange.since.Some?) && |vs| > 0 ==>
      OldestSelection(vs) == [LowestOf(vs).value]
  {
    var unversioned := Filter(vs, Unversioned());
    FilterSubsequence(vs, Unversioned());
    LowestOfIsOldest(vs);
    if exists i :: 0 <= i < |vs| && vs[i].versionRange.since.None? {
      var i :| 0 <= i < |vs| && vs[i].versionRange.since.None?;
      assert vs[i] in unversioned;
    } else if |vs| > 0 {
      FilterNone(vs, Unversioned());
      var i := LowestOfIndex(vs);
      SingletonSubsequence(vs, i);
    } else {
      SubsequenceReflexive(vs);
    }
  }

  // ------------------------------------------------------------ PreferredReducer

  function IsPreferred(): Variation -> bool {
    (v: Variation) => v.preferred
  }

  /** PreferredReducer::reduce: the preferred variations if there are any, else all. */
  function PreferredSelection(vs: seq<Variation>): seq<Variation> {
    var preferred := Filter(vs, IsPreferred());
    if |preferred| > 0 then preferred else vs
  }

  lemma {:induction false} PreferredSelectionShape(vs: seq<Variation>)
    ensures Subsequence(PreferredSelection(vs), vs)
    ensures |PreferredSelection(vs)| > 0 <==> |vs| > 0
    ensures (exists i :: 0 <= i < |vs| && vs[i].preferred) ==>
      forall v :: v in PreferredSelection(vs) <==> v in vs && v.preferred
    ensures (forall i :: 0 <= i < |vs| ==> !vs[i].preferred) ==> PreferredSelection(vs) == vs
  {
    FilterSubsequence(vs, IsPreferred());
    SubsequenceReflexive(vs);
    if exists i :: 0 <= i < |vs| && vs[i].preferred {
      var i :| 0 <= i < |vs| && vs[i].preferred;
      assert vs[i] in Filter(vs, IsPreferred());
    } else {
      FilterNone(vs, IsPreferred());
    }
  }

  lemma {:induction false} PreferredSelectionIdempotent(vs: seq<Variation>)
    ensures PreferredSelection(PreferredSelection(vs)) == PreferredSelection(vs)
  {
    var preferred := Filter(vs, IsPreferred());
    if |preferred| > 0 {
      FilterIdempotent(vs, IsPreferred());
    }
  }

  // ------------------------------------------------------------- TakeBestReducer

  function NameIs(name: string): Variation -> bool {
    (v: Variation) => v.name == name
  }

  function NameIsNot(name: string): Variation -> bool {
    (v: Variation) => v.name != name
  }

  /** TakeBestReducer::reduce: lists of at most one element come back as they are; longer
      ones have the variations named like the serialized name moved to the front. */
  function TakeBestOrder(serializedName: string, vs: seq<Variation>): seq<Variation> {
    if |vs| <= 1 then vs
    else Filter(vs, NameIs(serializedName)) + Filter(vs, NameIsNot(serializedName))
  }

  /** A permutation whose head carries the serialized name when any variation does, and
      the identity when none does. */
  lemma {:induction false} TakeBestOrderShape(serializedName: string, vs: seq<Variation>)
    ensures multiset(TakeBestOrder(serializedName, vs)) == multiset(vs)
    ensures (exists i :: 0 <= i < |vs| && vs[i].name == serializedName) ==>
      TakeBestOrder(serializedName, vs)[0].name == serializedName
    ensures (forall i :: 0 <= i < |vs| ==> vs[i].name != serializedName) ==>
      TakeBestOrder(serializedName, vs) == vs
  {
    if |vs| > 1 {
      FilterPartition(vs, NameIs(serializedName), NameIsNot(serializedName));
      FilterSubsequence(vs, NameIs(serializedName));
      if exists i :: 0 <= i < |vs| && vs[i].name == serializedName {
        var i :| 0 <= i < |vs| && vs[i].name == serializedName;
        assert vs[i] in Filter(vs, NameIs(serializedName));
        assert Filter(vs, NameIs(serializedName))[0] in Filter(vs, NameIs(serializedName));
      } else {
        FilterNone(vs, NameIs(serializedName));
        FilterAll(vs, NameIsNot(serializedName));
      }
    }
  }

  // ------------------------------------------------------------------ dispatch

  /** What `$reducer->reduce($serializedName, $properties)` returns. */
  function Apply(r: Reducer, serializedName: string, vs: seq<Variation>): seq<Variation> {
    match r
    case GroupReducer(groups) => GroupSelection(groups, vs)
    case VersionReducer(version) => VersionSelection(version, vs)
    case OldestVersionReducer => OldestSelection(vs)
    case PreferredReducer => PreferredSelection(vs)
    case TakeBestReducer => TakeBestOrder(serializedName, vs)
  }

  method Reduce(r: Reducer, serializedName: string, vs: seq<Variation>) returns (out: seq<Variation>)
    ensures out == Apply(r, serializedName, vs)
  {
    match r
    case GroupReducer(groups) => out := ReduceByGroup(groups, vs);
    case VersionReducer(version) => out := ReduceByVersion(version, vs);
    case OldestVersionReducer => out := ReduceByOldestVersion(vs);
    case PreferredReducer => out := PreferredSelection(vs);
    case TakeBestReducer => out := TakeBestOrder(serializedName, vs);
  }

  /** Every reducer returns variations of its input and nothing else. */
  lemma {:induction false} ApplyFromInput(r: Reducer, serializedName: string, vs: seq<Variation>)
    ensures forall v :: v in Apply(r, serializedName, vs) ==> v in vs
  {
    match r
    case GroupReducer(groups) =>
      GroupSelectionKeeps(groups, vs);
    case VersionReducer(version) =>
      VersionSelectionKeeps(version, vs);
    case OldestVersionReducer =>
      OldestSelectionShape(vs);
      SubsequenceMembers(OldestSelection(vs), vs);
    case PreferredReducer =>
      PreferredSelectionShape(vs);
      SubsequenceMembers(PreferredSelection(vs), vs);
    case TakeBestReducer =>
      TakeBestOrderShape(serializedName, vs);
      forall v | v in TakeBestOrder(serializedName, vs) ensures v in vs {
        assert v in multiset(TakeBestOrder(serializedName, vs));
      }
  }

  /** The reducers run in the given order, each on the previous one's output. */
  function Chain(reducers: seq<Reducer>, serializedName: string, vs: seq<Variation>): seq<Variation> {
    if |reducers| == 0 then vs
    else Apply(reducers[|reducers| - 1], serializedName, Chain(reducers[..|reducers| - 1], serializedName, vs))
  }

  lemma {:induction false} ChainFromInput(reducers: seq<Reducer>, serializedName: string, vs: seq<Variation>)
    ensures forall v :: v in Chain(reducers, serializedName, vs) ==> v in vs
  {
    if |reducers| > 0 {
      var before := Chain(reducers[..|reducers| - 1], serializedName, vs);
      ChainFromInput(reducers[..|reducers| - 1], serializedName, vs);
      ApplyFromInput(reducers[|reducers| - 1], serializedName, before);
    }
  }
}
