/** Version numbers as dotted sequences of naturals, ordered the way version_compare
    orders purely numeric versions. */
module VersionOrder {
  import Strings

  type VersionNumber = seq<nat>

  /** version_compare(a, b, '<'): componentwise, and a proper prefix is lower ("1" < "1.0"). */
  predicate Less(a: VersionNumber, b: VersionNumber)
    decreases |a|
  {
    if |a| == 0 then |b| > 0
    else if |b| == 0 then false
    else a[0] < b[0] || (a[0] == b[0] && Less(a[1..], b[1..]))
  }

  function Render(v: VersionNumber): string {
    Strings.Join(seq(|v|, i requires 0 <= i < |v| => Strings.NatToString(v[i])), ".")
  }

  lemma {:induction false} LessIrreflexive(a: VersionNumber)
    ensures !Less(a, a)
  {
    if |a| > 0 {
      LessIrreflexive(a[1..]);
    }
  }

  lemma {:induction false} LessTransitive(a: VersionNumber, b: VersionNumber, c: VersionNumber)
    requires Less(a, b) && Less(b, c)
    ensures Less(a, c)
  {
    if |a| > 0 && |b| > 0 && |c| > 0 && a[0] == b[0] == c[0] {
      LessTransitive(a[1..], b[1..], c[1..]);
    }
  }

  /** Two different versions are always comparable. */
  lemma {:induction false} LessTotal(a: VersionNumber, b: VersionNumber)
    requires a != b
    ensures Less(a, b) || Less(b, a)
  {
    if |a| > 0 && |b| > 0 && a[0] == b[0] {
      assert a == [a[0]] + a[1..] && b == [b[0]] + b[1..];
      LessTotal(a[1..], b[1..]);
    }
  }

  lemma {:induction false} LessAsymmetric(a: VersionNumber, b: VersionNumber)
    requires Less(a, b)
    ensures !Less(b, a)
  {
    if |a| > 0 && |b| > 0 && a[0] == b[0] {
      LessAsymmetric(a[1..], b[1..]);
    }
  }
}

/** An immutable version range with optional inclusive bounds (VersionRange.php). */
module VersionRanges {
  import opened Wrappers
  import opened VersionOrder
  import Json

  datatype VersionRange = VersionRange(since: Option<VersionNumber>, until: Option<VersionNumber>) {
    /** Neither bound excludes `v`: it is not below `since` and not above `until`. */
    predicate IsIncluded(v: VersionNumber) {
      !(since.Some? && Less(v, since.value)) && !(until.Some? && Less(until.value, v))
    }

    predicate IsDefined() {
      since.Some? || until.Some?
    }

    /** This range admits versions below the other's lower bound. */
    predicate AllowsLowerThan(other: VersionRange) {
      if other.since.None? then false
      else if since.None? then true
      else Less(since.value, other.since.value)
    }

    /** This range admits versions above the other's upper bound. */
    predicate AllowsHigherThan(other: VersionRange) {
      if until.None? then false
      else if other.until.None? then true
      else Less(other.until.value, until.value)
    }

    function WithSince(v: VersionNumber): (r: VersionRange)
      ensures r.since == Some(v) && r.until == until
      ensures r.IsDefined()
    {
      this.(since := Some(v))
    }

    function WithUntil(v: VersionNumber): (r: VersionRange)
      ensures r.until == Some(v) && r.since == since
      ensures r.IsDefined()
    {
      this.(until := Some(v))
    }

    /** array_filter(['since' => ..., 'until' => ...]) */
    function ToJson(): Json.Json {
      Json.JObject(Json.ArrayFilter([
        ("since", if since.Some? then Json.JString(Render(since.value)) else Json.JNull),
        ("until", if until.Some? then Json.JString(Render(until.value)) else Json.JNull)]))
    }
  }

  /** The unbounded range: not defined, and every version is included. */
  function All(): (r: VersionRange)
    ensures !r.IsDefined()
    ensures forall v :: r.IsIncluded(v)
  {
    VersionRange(None, None)
  }

  /** Both bounds are inclusive: a non-empty range includes its own bounds. */
  lemma {:induction false} BoundsIncluded(r: VersionRange)
    requires r.since.Some? && r.until.Some? && !Less(r.until.value, r.since.value)
    ensures r.IsIncluded(r.since.value) && r.IsIncluded(r.until.value)
  {
    LessIrreflexive(r.since.value);
    LessIrreflexive(r.until.value);
  }

  /** Membership is exactly "since <= v <= until" for the bounds that are present. */
  lemma {:induction false} IsIncludedBetween(r: VersionRange, v: VersionNumber)
    ensures r.IsIncluded(v) <==>
      (r.since.None? || r.since.value == v || Less(r.since.value, v)) &&
      (r.until.None? || r.until.value == v || Less(v, r.until.value))
  {
    if r.since.Some? {
      if r.since.value == v {
        LessIrreflexive(v);
      } else {
        LessTotal(r.since.value, v);
        if Less(r.since.value, v) { LessAsymmetric(r.since.value, v); }
      }
    }
    if r.until.Some? {
      if r.until.value == v {
        LessIrreflexive(v);
      } else {
        LessTotal(r.until.value, v);
        if Less(v, r.until.value) { LessAsymmetric(v, r.until.value); }
      }
    }
  }

  /** "Allows lower than" is a strict order: equal lower bounds do not allow lower. */
  lemma {:induction false} AllowsLowerThanIrreflexive(r: VersionRange)
    ensures !r.AllowsLowerThan(r)
  {
    if r.since.Some? { LessIrreflexive(r.since.value); }
  }

  lemma {:induction false} AllowsLowerThanTransitive(a: VersionRange, b: VersionRange, c: VersionRange)
    requires a.AllowsLowerThan(b) && b.AllowsLowerThan(c)
    ensures a.AllowsLowerThan(c)
  {
    if a.since.Some? { LessTransitive(a.since.value, b.since.value, c.since.value); }
  }

  /** Of two ranges that do not allow lower than each other, both lower bounds are equal. */
  lemma {:induction false} AllowsLowerThanTotal(a: VersionRange, b: VersionRange)
    requires !a.AllowsLowerThan(b) && !b.AllowsLowerThan(a)
    ensures a.since == b.since
  {
    if a.since.Some? && b.since.Some? && a.since.value != b.since.value {
      LessTotal(a.since.value, b.since.value);
    }
  }

  /** If `a` allows lower than `b`, the lowest version `a` admits is rejected by `b`. */
  lemma {:induction false} AllowsLowerThanWitness(a: VersionRange, b: VersionRange)
    requires a.AllowsLowerThan(b) && a.since.Some?
    ensures !b.IsIncluded(a.since.value)
  {
  }

  lemma {:induction false} AllowsHigherThanIrreflexive(r: VersionRange)
    ensures !r.AllowsHigherThan(r)
  {
    if r.until.Some? { LessIrreflexive(r.until.value); }
  }

  lemma {:induction false} AllowsHigherThanTransitive(a: VersionRange, b: VersionRange, c: VersionRange)
    requires a.AllowsHigherThan(b) && b.AllowsHigherThan(c)
    ensures a.AllowsHigherThan(c)
  {
    if c.until.Some? { LessTransitive(c.until.value, b.until.value, a.until.value); }
  }

  /** If `a` allows higher than a bounded `b`, the highest version `a` admits is rejected by `b`. */
  lemma {:induction false} AllowsHigherThanWitness(a: VersionRange, b: VersionRange)
    requires a.AllowsHigherThan(b) && b.until.Some?
    ensures !b.IsIncluded(a.until.value)
  {
  }

  /** The export lists exactly the bounds that are present (a bound rendering as "0" is
      dropped as falsy, as array_filter does). */
  lemma {:induction false} ToJsonBounds(r: VersionRange)
    requires r.since.Some? && r.until.Some?
    requires Json.TruthyString(Render(r.since.value)) && Json.TruthyString(Render(r.until.value))
    ensures r.ToJson() == Json.JObject([("since", Json.JString(Render(r.since.value))),
                                        ("until", Json.JString(Render(r.until.value)))])
  {
    var entries := [("since", Json.JString(Render(r.since.value))), ("until", Json.JString(Render(r.until.value)))];
    assert entries[1..][1..] == [];
    assert Json.ArrayFilter(entries[1..]) == [("until", Json.JString(Render(r.until.value)))];
  }
}

/** The mutable version range of older releases (Version.php). */
module Versions {
  import opened Wrappers
  import opened VersionOrder
  import VersionRanges
  import Json

  class Version {
    var since: Option<VersionNumber>
    var until: Option<VersionNumber>

    constructor (since: Option<VersionNumber>, until: Option<VersionNumber>)
      ensures this.since == since && this.until == until
    {
      this.since := since;
      this.until := until;
    }

    /** The unbounded version: nothing defined, everything included. */
    static method All() returns (v: Version)
      ensures fresh(v) && !v.IsDefined()
      ensures forall x :: v.IsIncluded(x)
    {
      v := new Version(None, None);
    }

    function Range(): VersionRanges.VersionRange
      reads this
    {
      VersionRanges.VersionRange(since, until)
    }

    predicate IsDefined()
      reads this
    {
      since.Some? || until.Some?
    }

    /** Same inclusive rule as the immutable range. */
    predicate IsIncluded(x: VersionNumber)
      reads this
    {
      Range().IsIncluded(x)
    }

    method SetSince(v: VersionNumber)
      modifies this
      ensures since == Some(v) && until == old(until)
      ensures IsDefined()
    {
      since := Some(v);
    }

    method SetUntil(v: VersionNumber)
      modifies this
      ensures until == Some(v) && since == old(since)
      ensures IsDefined()
    {
      until := Some(v);
    }

    function ToJson(): Json.Json
      reads this
    {
      Range().ToJson()
    }
  }
}
