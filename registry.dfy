/** The raw records of one parse run, one per class name, in the order they were
    registered (RawClassMetadataRegistry.php). */
module Registry {
  import opened Wrappers
  import opened Errors
  import opened Sequences
  import opened RawClasses

  /** The class names of a list of records. */
  function ClassNames(records: seq<RawClassMetadata>): (r: set<string>)
    ensures forall n :: n in r <==> exists k :: 0 <= k < |records| && records[k].className == n
  {
    set k | 0 <= k < |records| :: records[k].className
  }

  /** A longer list of records names every class a prefix of it names. */
  lemma {:induction false} ClassNamesPrefix(a: seq<RawClassMetadata>, b: seq<RawClassMetadata>)
    requires a <= b
    ensures ClassNames(a) <= ClassNames(b)
  {
    forall n | n in ClassNames(a) ensures n in ClassNames(b) {
      var k :| 0 <= k < |a| && a[k].className == n;
      assert b[k] == a[k];
    }
  }

  /** Appending a record adds its class name. */
  lemma {:induction false} ClassNamesSnoc(a: seq<RawClassMetadata>, m: RawClassMetadata)
    ensures ClassNames(a + [m]) == ClassNames(a) + {m.className}
  {
    ClassNamesPrefix(a, a + [m]);
    assert (a + [m])[|a|] == m;
    forall n | n in ClassNames(a + [m]) ensures n in ClassNames(a) + {m.className} {
      var k :| 0 <= k < |a + [m]| && (a + [m])[k].className == n;
      if k < |a| {
        assert a[k] == (a + [m])[k];
      }
    }
  }

  class RawClassMetadataRegistry {
    /** The PHP array keyed by class name; its insertion order is the list order. */
    var classMetadata: seq<RawClassMetadata>

    /** The keys of the PHP array as a set. */
    function NameSet(): (r: set<string>)
      reads this
    {
      ClassNames(classMetadata)
    }

    /** A class name is in the key set exactly when a record for it was added. */
    lemma {:induction false} InNameSet(n: string)
      ensures n in NameSet() <==> Contains(n)
    {
      if Contains(n) {
        var i :| 0 <= i < |classMetadata| && classMetadata[i].className == n;
      }
    }

    /** An array key occurs once. */
    ghost predicate Valid()
      reads this
    {
      forall i, j :: 0 <= i < j < |classMetadata| ==> classMetadata[i].className != classMetadata[j].className
    }

    /** A fresh registry holds no record. */
    constructor ()
      ensures classMetadata == [] && Valid()
      ensures forall n :: !Contains(n)
    {
      classMetadata := [];
    }

    /** contains: whether a record for the class name was added. */
    predicate Contains(className: string)
      reads this
    {
      exists i :: 0 <= i < |classMetadata| && classMetadata[i].className == className
    }

    /** add: refuses a second record for a registered class name, otherwise appends. */
    method Add(m: RawClassMetadata) returns (o: Outcome)
      requires Valid()
      modifies this
      ensures Valid()
      ensures Contains(m.className)
      ensures old(Contains(m.className)) ==> o == Fail(AlreadyRegistered(m.className)) && classMetadata == old(classMetadata)
      ensures !old(Contains(m.className)) ==> o == Pass && classMetadata == old(classMetadata) + [m]
      ensures NameSet() == old(NameSet()) + {m.className}
    {
      if Contains(m.className) {
        return Fail(AlreadyRegistered(m.className));
      }
      classMetadata := classMetadata + [m];
      ClassNamesSnoc(old(classMetadata), m);
      return Pass;
    }

    /** getAll: the records in insertion order, one per class name. */
    function GetAll(): (all: seq<RawClassMetadata>)
      reads this
      requires Valid()
      ensures all == classMetadata
      ensures |all| == |classMetadata| && forall n :: Contains(n) <==> n in ClassNames(all)
      ensures forall i, j :: 0 <= i < j < |all| ==> all[i].className != all[j].className
    {
      classMetadata
    }
  }
}
