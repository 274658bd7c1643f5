/** The parse-time record of one class (RawClassMetadata.php): property collections
    keyed by serialized name, post-deserialize hooks and constructor parameters. */
module RawClasses {
  import opened Wrappers
  import opened Errors
  import Json
  import opened Sequences
  import opened Variations
  import opened Collections
  import opened Parameters

  /** The states of the variations of each list, list by list. */
  function SnapsOf(ls: seq<seq<PropertyVariationMetadata>>): (r: seq<seq<Variation>>)
    reads set k, v | 0 <= k < |ls| && v in ls[k] :: v
    ensures |r| == |ls| && forall k :: 0 <= k < |ls| ==> r[k] == Snapshots(ls[k])
  {
    seq(|ls|, k requires 0 <= k < |ls| reads set a, v | 0 <= a < |ls| && v in ls[a] :: v => Snapshots(ls[k]))
  }

  /** The index of the first list holding a variation named `name`. */
  function Holder(ls: seq<seq<PropertyVariationMetadata>>, name: string): (r: Option<nat>)
    ensures r.None? <==> forall i :: 0 <= i < |ls| ==> FirstNamed(ls[i], name).None?
    ensures r.Some? ==> r.value < |ls| && FirstNamed(ls[r.value], name).Some?
    ensures r.Some? ==> forall k :: 0 <= k < r.value ==> FirstNamed(ls[k], name).None?
  {
    if |ls| == 0 then None
    else if FirstNamed(ls[0], name).Some? then Some(0)
    else match Holder(ls[1..], name)
      case None => None
      case Some(k) => Some(k + 1)
  }

  lemma {:induction false} HolderIsFirst(ls: seq<seq<PropertyVariationMetadata>>, name: string, i: nat)
    requires i < |ls| && FirstNamed(ls[i], name).Some?
    requires forall k :: 0 <= k < i ==> FirstNamed(ls[k], name).None?
    ensures Holder(ls, name) == Some(i)
  {
  }

  /** Adding one variation to list k adds exactly that variation to the flattened lists. */
  lemma {:induction false} AppendAddsOne(ls: seq<seq<PropertyVariationMetadata>>, k: nat, v: PropertyVariationMetadata)
    requires k < |ls|
    ensures multiset(Flatten(ls[k := ls[k] + [v]])) == multiset(Flatten(ls)) + multiset{v}
  {
    var a, b := ls[..k], ls[k + 1..];
    assert ls == a + [ls[k]] + b;
    assert ls[k := ls[k] + [v]] == a + [ls[k] + [v]] + b;
    FlattenConcat(a + [ls[k]], b);
    FlattenConcat(a, [ls[k]]);
    FlattenConcat(a + [ls[k] + [v]], b);
    FlattenConcat(a, [ls[k] + [v]]);
    FlattenSingle(ls[k]);
    FlattenSingle(ls[k] + [v]);
  }

  lemma {:induction false} AppendListAddsOne(ls: seq<seq<PropertyVariationMetadata>>, v: PropertyVariationMetadata)
    ensures multiset(Flatten(ls + [[v]])) == multiset(Flatten(ls)) + multiset{v}
  {
    FlattenConcat(ls, [[v]]);
    FlattenSingle([v]);
  }

  /** Removing the first variation of a name from list k takes exactly that variation out of
      the flattened lists, whether or not the emptied list is then dropped. */
  lemma {:induction false} RemoveFromListKeepsOthers(ls: seq<seq<PropertyVariationMetadata>>, k: nat, name: string)
    requires k < |ls| && FirstNamed(ls[k], name).Some?
    ensures multiset(Flatten(ls[k := RemoveFirst(ls[k], name)])) + multiset{ls[k][FirstNamed(ls[k], name).value]}
            == multiset(Flatten(ls))
    ensures RemoveFirst(ls[k], name) == [] ==>
      multiset(Flatten(RemoveAt(ls, k))) + multiset{ls[k][FirstNamed(ls[k], name).value]} == multiset(Flatten(ls))
  {
    var rest := RemoveFirst(ls[k], name);
    var x := ls[k][FirstNamed(ls[k], name).value];
    RemoveFirstDropsOne(ls[k], name);
    FlattenUpdate(ls, k, rest);
    assert multiset(rest) + multiset{x} == multiset(ls[k]);
    MultisetCancelOne(multiset(Flatten(ls[k := rest])), multiset(ls[k]), multiset(Flatten(ls)), multiset(rest), x);
    if rest == [] {
      FlattenRemoveAt(ls, k);
      assert multiset(ls[k]) == multiset{x};
    }
  }

  lemma {:induction false} FillLastList(ls: seq<seq<PropertyVariationMetadata>>, v: PropertyVariationMetadata)
    ensures (ls + [[]])[|ls| := (ls + [[]])[|ls|] + [v]] == ls + [[v]]
  {
    assert (ls + [[]])[|ls|] + [v] == [v];
  }

  class RawClassMetadata {
    const className: string
    var properties: seq<PropertyCollection>
    var postDeserializeMethods: seq<string>
    var constructorParameters: seq<ParameterMetadata>

    /** Every collection's name is normalised and no two collections share one. */
    ghost predicate Valid()
      reads this, properties
    {
      (forall i :: 0 <= i < |properties| ==> properties[i].Valid()) && Unique(Names())
    }

    /** The serialized names of the collections, in order. */
    function Names(): seq<string>
      reads this, properties
    {
      seq(|properties|, i requires 0 <= i < |properties| reads this, properties => properties[i].serializedName)
    }

    /** The variation lists of the collections, in order. */
    function Lists(): seq<seq<PropertyVariationMetadata>>
      reads this, properties
    {
      seq(|properties|, i requires 0 <= i < |properties| reads this, properties => properties[i].variations)
    }

    /** The position of the collection a name normalises to. */
    function Position(name: string): (r: Option<nat>)
      reads this, properties
      ensures r.Some? ==> r.value < |properties| && properties[r.value].serializedName == SerializedName(name)
      ensures r.None? <==> SerializedName(name) !in Names()
    {
      IndexIn(Names(), SerializedName(name))
    }

    /** Distinct names make the collections distinct objects. */
    lemma {:induction false} OthersDiffer(k: nat)
      requires Valid() && k < |properties|
      ensures forall m :: 0 <= m < |properties| && m != k ==> properties[m] != properties[k]
    {
      UniqueIsDistinct(Names());
      forall m | 0 <= m < |properties| && m != k
        ensures properties[m] != properties[k]
      {
        DistinctAt(Names(), m, k);
      }
    }

    constructor (className: string)
      ensures Valid()
      ensures this.className == className && properties == []
      ensures postDeserializeMethods == [] && constructorParameters == []
    {
      this.className := className;
      properties := [];
      postDeserializeMethods := [];
      constructorParameters := [];
    }

    /** __toString */
    function Render(): string {
      className
    }

    /** findPropertyCollection: the collection whose name equals the normalised query. */
    method FindPropertyCollection(name: string) returns (r: Option<PropertyCollection>)
      ensures r.None? <==> Position(name).None?
      ensures r.Some? ==> r.value == properties[Position(name).value]
    {
      var n := SerializedName(name);
      var i := 0;
      while i < |properties|
        invariant 0 <= i <= |properties|
        invariant forall m :: 0 <= m < i ==> properties[m].serializedName != n
      {
        if properties[i].serializedName == n {
          IndexInIsFirst(Names(), n, i);
          return Some(properties[i]);
        }
        i := i + 1;
      }
      return None;
    }

    method HasPropertyCollection(name: string) returns (found: bool)
      ensures found <==> SerializedName(name) in Names()
    {
      var r := FindPropertyCollection(name);
      found := r.Some?;
    }

    /** The collection for a name, or UnexpectedValueException. */
    method GetPropertyCollection(name: string) returns (r: Result<PropertyCollection>)
      ensures r.Err? <==> SerializedName(name) !in Names()
      ensures r.Err? ==> r.error == NotFound(name)
      ensures r.Ok? ==> r.value == properties[Position(name).value]
    {
      var found := FindPropertyCollection(name);
      if found.None? {
        return Err(NotFound(name));
      }
      return Ok(found.value);
    }

    /** Appends a collection unless its name is taken (UnexpectedValueException). */
    method AddPropertyCollection(c: PropertyCollection) returns (o: Outcome)
      requires Valid() && c.Valid()
      modifies this
      ensures Valid()
      ensures postDeserializeMethods == old(postDeserializeMethods) && constructorParameters == old(constructorParameters)
      ensures c.serializedName in old(Names()) ==>
        o == Fail(PropertyAlreadyExists(c.serializedName, className)) && properties == old(properties)
      ensures c.serializedName !in old(Names()) ==> o == Pass && properties == old(properties) + [c]
    {
      NormalisedFixpoint(c.serializedName);
      var has := HasPropertyCollection(c.serializedName);
      assert properties == old(properties) && Names() == old(Names());
      if has {
        return Fail(PropertyAlreadyExists(c.serializedName, className));
      }
      properties := properties + [c];
      assert Names() == old(Names()) + [c.serializedName];
      return Pass;
    }

    /** Adds a variation to the collection of its normalised serialized name, creating
        that collection at the end when there is none yet. */
    method AddPropertyVariation(serializedName: string, v: PropertyVariationMetadata)
      requires Valid()
      modifies this, properties
      ensures Valid()
      ensures postDeserializeMethods == old(postDeserializeMethods) && constructorParameters == old(constructorParameters)
      ensures old(Position(serializedName)).Some? ==>
        properties == old(properties) && Names() == old(Names())
        && Lists() == old(Lists())[old(Position(serializedName)).value := old(Lists())[old(Position(serializedName)).value] + [v]]
      ensures old(Position(serializedName)).None? ==>
        |properties| == |old(properties)| + 1 && properties[..|old(properties)|] == old(properties)
        && fresh(properties[|old(properties)|])
        && Names() == old(Names()) + [SerializedName(serializedName)] && Lists() == old(Lists()) + [[v]]
      ensures multiset(Flatten(Lists())) == multiset(Flatten(old(Lists()))) + multiset{v}
    {
      ghost var ls := Lists();
      ghost var ns := Names();
      var found := FindPropertyCollection(serializedName);
      assert properties == old(properties) && Names() == ns && Lists() == ls;
      if found.Some? {
        AppendToCollection(Position(serializedName).value, v);
      } else {
        AddCollectionWith(serializedName, v);
      }
    }

    /** The branch of addPropertyVariation for a name with no collection yet: a new
        collection for it, holding the variation, goes last. */
    method AddCollectionWith(serializedName: string, v: PropertyVariationMetadata)
      requires Valid() && Position(serializedName).None?
      modifies this
      ensures Valid()
      ensures postDeserializeMethods == old(postDeserializeMethods) && constructorParameters == old(constructorParameters)
      ensures |properties| == |old(properties)| + 1 && properties[..|old(properties)|] == old(properties)
      ensures fresh(properties[|old(properties)|])
      ensures Names() == old(Names()) + [SerializedName(serializedName)] && Lists() == old(Lists()) + [[v]]
      ensures multiset(Flatten(Lists())) == multiset(Flatten(old(Lists()))) + multiset{v}
    {
      ghost var ls := Lists();
      ghost var ns := Names();
      var c := new PropertyCollection(serializedName);
      var o := AddPropertyCollection(c);
      assert properties == old(properties) + [c];
      ghost var mid := ls + [[]];
      assert Lists() == mid && Names() == ns + [SerializedName(serializedName)] by {
        forall m | 0 <= m < |properties|
          ensures properties[m].variations == mid[m]
          ensures properties[m].serializedName == (ns + [SerializedName(serializedName)])[m]
        {
        }
      }
      FlattenConcat(ls, [[]]);
      FlattenSingle<PropertyVariationMetadata>([]);
      assert Flatten(mid) == Flatten(ls);
      AppendToCollection(|properties| - 1, v);
      FillLastList(ls, v);
    }

    /** addVariation on the collection at position k, seen from the class. */
    method AppendToCollection(k: nat, v: PropertyVariationMetadata)
      requires Valid() && k < |properties|
      modifies properties[k]
      ensures Valid() && Names() == old(Names())
      ensures Lists() == old(Lists())[k := old(Lists())[k] + [v]]
      ensures multiset(Flatten(Lists())) == multiset(Flatten(old(Lists()))) + multiset{v}
    {
      ghost var ls := Lists();
      ghost var ns := Names();
      var prop := properties[k];
      OthersDiffer(k);
      prop.AddVariation(v);
      forall m | 0 <= m < |properties|
        ensures properties[m].serializedName == ns[m]
        ensures properties[m].variations == ls[k := ls[k] + [v]][m]
      {
      }
      assert Names() == ns;
      assert Lists() == ls[k := ls[k] + [v]];
      AppendAddsOne(ls, k, v);
    }

    /** Renames the collection found under `propertyName`. When the new name already has a
        collection, its variations move over to the renamed one and it is dropped. */
    method RenameProperty(propertyName: string, serializedName: string) returns (o: Outcome)
      requires Valid()
      modifies this, properties
      ensures Valid()
      ensures postDeserializeMethods == old(postDeserializeMethods) && constructorParameters == old(constructorParameters)
      ensures old(Position(propertyName)).None? ==>
        o == Fail(NotFound(propertyName))
        && properties == old(properties) && Names() == old(Names()) && Lists() == old(Lists())
      ensures old(Position(propertyName)).Some? && SerializedName(serializedName) == SerializedName(propertyName) ==>
        o == Fail(SameProperty(propertyName))
        && properties == old(properties) && Names() == old(Names()) && Lists() == old(Lists())
      ensures old(Position(propertyName)).Some? && SerializedName(serializedName) != SerializedName(propertyName)
              && old(Position(serializedName)).None? ==>
        o == Pass && properties == old(properties) && Lists() == old(Lists())
        && Names() == old(Names())[old(Position(propertyName)).value := SerializedName(serializedName)]
      ensures old(Position(propertyName)).Some? && SerializedName(serializedName) != SerializedName(propertyName)
              && old(Position(serializedName)).Some? ==>
        var i, j := old(Position(propertyName)).value, old(Position(serializedName)).value;
        o == Pass && properties == RemoveAt(old(properties), j)
        && Names() == RemoveAt(old(Names())[i := SerializedName(serializedName)], j)
        && Lists() == RemoveAt(old(Lists())[i := old(Lists())[i] + old(Lists())[j]], j)
      ensures multiset(Flatten(Lists())) == multiset(Flatten(old(Lists())))
      ensures forall c :: c in properties ==> c in old(properties)
    {
      ghost var ns, ls := Names(), Lists();
      var found := FindPropertyCollection(propertyName);
      assert properties == old(properties) && Names() == ns && Lists() == ls;
      if found.None? {
        return Fail(NotFound(propertyName));
      }
      var prop := found.value;
      ghost var i := Position(propertyName).value;
      var targetFound := FindPropertyCollection(serializedName);
      assert properties == old(properties) && Names() == ns && Lists() == ls;
      if targetFound.Some? {
        var target := targetFound.value;
        ghost var j := Position(serializedName).value;
        if target == prop {
          OthersDiffer(i);
          return Fail(SameProperty(propertyName));
        }
        AbsorbAndRename(prop, target, i, j, serializedName);
      } else {
        forall m | 0 <= m < |properties|
          ensures properties[m].serializedName != SerializedName(serializedName)
        {
          assert properties[m].serializedName == ns[m];
        }
        RenameAt(prop, i, serializedName);
        assert Lists() == ls;
      }
      return Pass;
    }

    /** The second half of renameProperty when the new name is taken by another collection. */
    method AbsorbAndRename(prop: PropertyCollection, target: PropertyCollection, ghost i: nat, ghost j: nat,
                           serializedName: string)
      requires Valid() && i < |properties| && j < |properties| && i != j
      requires prop == properties[i] && target == properties[j]
      requires target.serializedName == SerializedName(serializedName)
      modifies this, properties
      ensures Valid()
      ensures postDeserializeMethods == old(postDeserializeMethods) && constructorParameters == old(constructorParameters)
      ensures properties == RemoveAt(old(properties), j)
      ensures Names() == RemoveAt(old(Names())[i := SerializedName(serializedName)], j)
      ensures Lists() == RemoveAt(old(Lists())[i := old(Lists())[i] + old(Lists())[j]], j)
      ensures multiset(Flatten(Lists())) == multiset(Flatten(old(Lists())))
    {
      ghost var ns, ls := Names(), Lists();
      ghost var merged := ls[i := ls[i] + ls[j]];
      MergeVariations(prop, target, i, j);
      assert Names() == ns && Lists() == merged && properties == old(properties);
      var key := SearchCollection(target);
      assert Names() == ns && Lists() == merged;
      OthersDiffer(j);
      assert key == j;
      DropCollection(key);
      assert Names() == RemoveAt(ns, j) && Lists() == RemoveAt(merged, j);
      RemoveAtUpdate(ns, i, j, SerializedName(serializedName));
      ghost var i' := if j < i then i - 1 else i;
      UniqueIsDistinct(ns);
      forall m | 0 <= m < |properties| && m != i'
        ensures properties[m].serializedName != SerializedName(serializedName)
      {
        var m' := if m < j then m else m + 1;
        assert properties[m].serializedName == ns[m'];
        DistinctAt(ns, m', j);
      }
      RenameAt(prop, i', serializedName);
      assert Lists() == RemoveAt(merged, j);
      MergeIntoKeepsAll(ls, i, j);
    }

    /** The loop of renameProperty that adds the target's variations to the renamed collection. */
    method MergeVariations(prop: PropertyCollection, target: PropertyCollection, ghost i: nat, ghost j: nat)
      requires Valid() && i < |properties| && j < |properties| && i != j
      requires prop == properties[i] && target == properties[j]
      modifies prop
      ensures Valid() && Names() == old(Names())
      ensures Lists() == old(Lists())[i := old(Lists())[i] + old(Lists())[j]]
    {
      ghost var ns, ls := Names(), Lists();
      OthersDiffer(i);
      var vs := target.variations;
      var k := 0;
      while k < |vs|
        invariant 0 <= k <= |vs|
        invariant prop.variations == ls[i] + vs[..k] && prop.serializedName == ns[i]
        modifies prop
      {
        prop.AddVariation(vs[k]);
        assert vs[..k + 1] == vs[..k] + [vs[k]];
        k := k + 1;
      }
      assert vs[..k] == vs;
      forall m | 0 <= m < |properties|
        ensures properties[m].serializedName == ns[m]
        ensures properties[m].variations == ls[i := ls[i] + ls[j]][m]
      {
      }
      assert Names() == ns;
    }

    /** array_search with strict comparison: the position of that very collection. */
    method SearchCollection(c: PropertyCollection) returns (key: nat)
      requires c in properties
      ensures key < |properties| && properties[key] == c
      ensures forall m :: 0 <= m < key ==> properties[m] != c
    {
      key := 0;
      while properties[key] != c
        invariant key < |properties|
        invariant forall m :: 0 <= m < key ==> properties[m] != c
        decreases |properties| - key
      {
        key := key + 1;
      }
    }

    /** setSerializedName on the collection at position i, which no other collection's name clashes with. */
    method RenameAt(prop: PropertyCollection, ghost i: nat, name: string)
      requires Valid() && i < |properties| && prop == properties[i]
      requires forall m :: 0 <= m < |properties| && m != i ==> properties[m].serializedName != SerializedName(name)
      modifies prop
      ensures Valid() && Lists() == old(Lists())
      ensures Names() == old(Names())[i := SerializedName(name)]
    {
      ghost var ns, ls := Names(), Lists();
      OthersDiffer(i);
      prop.SetSerializedName(name);
      forall m | 0 <= m < |properties|
        ensures properties[m].serializedName == ns[i := SerializedName(name)][m]
        ensures properties[m].variations == ls[m]
        ensures properties[m].Valid()
      {
      }
      assert Names() == ns[i := SerializedName(name)];
      assert Lists() == ls;
      assert Distinct(Names()) by {
        UniqueIsDistinct(ns);
      }
      UniqueIsDistinct(Names());
    }

    /** Removes the first variation of that PHP name from the first collection holding one,
        and drops that collection when it is left empty. */
    method RemovePropertyVariation(name: string)
      requires Valid()
      modifies this, properties
      ensures Valid()
      ensures postDeserializeMethods == old(postDeserializeMethods) && constructorParameters == old(constructorParameters)
      ensures forall c :: c in properties ==> c in old(properties)
      ensures multiset(Flatten(Lists())) <= multiset(Flatten(old(Lists())))
      ensures old(Holder(Lists(), name)).None? ==>
        properties == old(properties) && Names() == old(Names()) && Lists() == old(Lists())
      ensures old(Holder(Lists(), name)).Some? ==>
        var k := old(Holder(Lists(), name)).value;
        var rest := RemoveFirst(old(Lists())[k], name);
        (rest == [] ==> properties == RemoveAt(old(properties), k)
                        && Names() == RemoveAt(old(Names()), k) && Lists() == RemoveAt(old(Lists()), k))
        && (rest != [] ==> properties == old(properties) && Names() == old(Names()) && Lists() == old(Lists())[k := rest])
      ensures old(Holder(Lists(), name)).Some? ==>
        var k := old(Holder(Lists(), name)).value;
        multiset(Flatten(Lists())) + multiset{old(Lists())[k][FirstNamed(old(Lists())[k], name).value]}
          == multiset(Flatten(old(Lists())))
    {
      var holder := HolderIndex(name);
      if holder.None? {
        return;
      }
      RemoveFromCollection(holder.value, name);
    }

    /** The removal from the collection at position i, which holds a variation of that name. */
    method RemoveFromCollection(i: nat, name: string)
      requires Valid() && i < |properties| && FirstNamed(Lists()[i], name).Some?
      modifies this, properties
      ensures Valid()
      ensures postDeserializeMethods == old(postDeserializeMethods) && constructorParameters == old(constructorParameters)
      ensures forall c :: c in properties ==> c in old(properties)
      ensures multiset(Flatten(Lists())) <= multiset(Flatten(old(Lists())))
      ensures var rest := RemoveFirst(old(Lists())[i], name);
        (rest == [] ==> properties == RemoveAt(old(properties), i)
                        && Names() == RemoveAt(old(Names()), i) && Lists() == RemoveAt(old(Lists()), i))
        && (rest != [] ==> properties == old(properties) && Names() == old(Names()) && Lists() == old(Lists())[i := rest])
      ensures multiset(Flatten(Lists())) + multiset{old(Lists())[i][FirstNamed(old(Lists())[i], name).value]}
          == multiset(Flatten(old(Lists())))
    {
      ghost var ls := Lists();
      var prop := properties[i];
      RemoveVariationAt(i, name);
      RemoveFromListKeepsOthers(ls, i, name);
      assert prop.variations == Lists()[i] == RemoveFirst(ls[i], name);
      if |prop.variations| == 0 {
        ghost var ls' := Lists();
        DropCollection(i);
        assert RemoveAt(ls', i) == RemoveAt(ls, i);
      }
      MultisetPlusOne(multiset(Flatten(Lists())), multiset(Flatten(ls)), ls[i][FirstNamed(ls[i], name).value]);
    }

    /** unset followed by array_values on the list of collections. */
    method DropCollection(k: nat)
      requires Valid() && k < |properties|
      modifies this
      ensures Valid()
      ensures postDeserializeMethods == old(postDeserializeMethods) && constructorParameters == old(constructorParameters)
      ensures properties == RemoveAt(old(properties), k)
      ensures Names() == RemoveAt(old(Names()), k) && Lists() == RemoveAt(old(Lists()), k)
    {
      ghost var ns, ls := Names(), Lists();
      properties := RemoveAt(properties, k);
      UniqueIsDistinct(ns);
      DistinctRemoveAt(ns, k);
      assert Names() == RemoveAt(ns, k);
      assert Lists() == RemoveAt(ls, k);
      UniqueIsDistinct(Names());
    }

    /** removeVariation on the collection at position k, seen from the class. */
    method RemoveVariationAt(k: nat, name: string)
      requires Valid() && k < |properties|
      modifies properties[k]
      ensures Valid() && Names() == old(Names())
      ensures Lists() == old(Lists())[k := RemoveFirst(old(Lists())[k], name)]
    {
      ghost var ns, ls := Names(), Lists();
      var prop := properties[k];
      OthersDiffer(k);
      prop.RemoveVariation(name);
      forall m | 0 <= m < |properties|
        ensures properties[m].serializedName == ns[m]
        ensures properties[m].variations == ls[k := RemoveFirst(ls[k], name)][m]
      {
      }
      assert Names() == ns;
    }

    /** findPropertyVariation: the first variation of that PHP name, looking through the
        collections in order. */
    method FindPropertyVariation(name: string) returns (r: Option<PropertyVariationMetadata>)
      ensures r.None? <==> Holder(Lists(), name).None?
      ensures r.Some? ==> r.value == Lists()[Holder(Lists(), name).value][FirstNamed(Lists()[Holder(Lists(), name).value], name).value]
    {
      var holder := HolderIndex(name);
      if holder.None? {
        return None;
      }
      var c := properties[holder.value];
      assert c.variations == Lists()[holder.value];
      var got := c.GetVariation(name);
      return Some(got.value);
    }

    /** The foreach over the collections that stops at the first one with hasVariation. */
    method HolderIndex(name: string) returns (r: Option<nat>)
      ensures r == Holder(Lists(), name)
    {
      ghost var ls := Lists();
      var i := 0;
      while i < |properties|
        invariant 0 <= i <= |properties| == |ls|
        invariant forall k :: 0 <= k < i ==> FirstNamed(ls[k], name).None?
      {
        assert properties[i].variations == ls[i];
        var has := properties[i].HasVariation(name);
        if has {
          HolderIsFirst(ls, name, i);
          return Some(i);
        }
        i := i + 1;
      }
      return None;
    }

    method HasPropertyVariation(name: string) returns (found: bool)
      ensures found <==> Holder(Lists(), name).Some?
    {
      var r := FindPropertyVariation(name);
      found := r.Some?;
    }

    /** The first variation of that PHP name, or UnexpectedValueException. */
    method GetPropertyVariation(name: string) returns (r: Result<PropertyVariationMetadata>)
      ensures r.Err? <==> Holder(Lists(), name).None?
      ensures r.Err? ==> r.error == NotFound(name)
      ensures r.Ok? ==> r.value.name == name
      ensures r.Ok? ==> r.value == Lists()[Holder(Lists(), name).value][FirstNamed(Lists()[Holder(Lists(), name).value], name).value]
    {
      var found := FindPropertyVariation(name);
      if found.None? {
        return Err(NotFound(name));
      }
      return Ok(found.value);
    }

    /** All variations, collection by collection. */
    method GetPropertyVariations() returns (vs: seq<PropertyVariationMetadata>)
      ensures vs == Flatten(Lists())
    {
      vs := [];
      var i := 0;
      while i < |properties|
        invariant 0 <= i <= |properties|
        invariant vs == Flatten(Lists()[..i])
      {
        assert Lists()[..i + 1] == Lists()[..i] + [properties[i].variations];
        FlattenConcat(Lists()[..i], [properties[i].variations]);
        FlattenSingle(properties[i].variations);
        vs := vs + properties[i].variations;
        i := i + 1;
      }
      assert Lists()[..i] == Lists();
    }

    method AddPostDeserializeMethod(m: string)
      modifies this
      ensures postDeserializeMethods == old(postDeserializeMethods) + [m]
      ensures properties == old(properties) && constructorParameters == old(constructorParameters)
    {
      postDeserializeMethods := postDeserializeMethods + [m];
    }

    method AddConstructorParameter(p: ParameterMetadata)
      modifies this
      ensures constructorParameters == old(constructorParameters) + [p]
      ensures properties == old(properties) && postDeserializeMethods == old(postDeserializeMethods)
    {
      constructorParameters := constructorParameters + [p];
    }
 
    /** usort with a comparator that orders two collections by the keys of their names
        (the spaceship operator on the positions an AccessorOrder computed). */
    method SortProperties(key: string -> int)
      requires Valid()
      modifies this
      ensures Valid()
      ensures postDeserializeMethods == old(postDeserializeMethods) && constructorParameters == old(constructorParameters)
      ensures multiset(properties) == multiset(old(properties))
      ensures forall a, b :: 0 <= a < b < |properties| ==> key(properties[a].serializedName) <= key(properties[b].serializedName)
    {
      var names := map c | c in properties :: c.serializedName;
      var ps := SortByKey(properties, c => if c in names then key(names[c]) else 0);
      forall a | 0 <= a < |ps| ensures ps[a] in names && names[ps[a]] == ps[a].serializedName {
        assert ps[a] in multiset(properties);
      }
      PermutationStaysValid(ps);
      properties := ps;
      assert Distinct(Names());
      UniqueIsDistinct(Names());
    }

    /** A reordering of the collections keeps the names normalised and distinct. */
    lemma {:induction false} PermutationStaysValid(ps: seq<PropertyCollection>)
      requires Valid() && multiset(ps) == multiset(properties)
      ensures forall k :: 0 <= k < |ps| ==> ps[k].Valid()
      ensures forall a, b :: 0 <= a < b < |ps| ==> ps[a].serializedName != ps[b].serializedName
    {
      var ns := Names();
      UniqueIsDistinct(ns);
      assert Distinct(properties) by {
        forall a, b | 0 <= a < b < |properties| ensures properties[a] != properties[b] {
          DistinctAt(ns, a, b);
        }
      }
      PermutationDistinct(properties, ps);
      forall k | 0 <= k < |ps| ensures ps[k].Valid() {
        assert ps[k] in multiset(properties);
      }
      forall a, b | 0 <= a < b < |ps| ensures ps[a].serializedName != ps[b].serializedName {
        assert ps[a] in multiset(properties) && ps[b] in multiset(properties);
        var a' :| 0 <= a' < |properties| && properties[a'] == ps[a];
        var b' :| 0 <= b' < |properties| && properties[b'] == ps[b];
        DistinctAt(ps, a, b);
        DistinctAt(ns, a', b');
      }
    }

    /** array_filter over class_name, properties, post_deserialize_method and constructor_parameters. */
    function ToJson(): Json.Json
      reads this, Footprint(properties)
    {
      Json.JObject(Json.ArrayFilter([
        ("class_name", Json.JString(className)),
        ("properties", Json.JList(CollectionsJson(properties))),
        ("post_deserialize_method", Json.JList(seq(|postDeserializeMethods|, i requires 0 <= i < |postDeserializeMethods| reads this => Json.JString(postDeserializeMethods[i])))),
        ("constructor_parameters", Json.JList(seq(|constructorParameters|, i requires 0 <= i < |constructorParameters| reads this => constructorParameters[i].ToJson())))]))
    }
  }

  /** The collections and their variations: what exporting them reads. */
  function Footprint(cs: seq<PropertyCollection>): set<object>
    reads cs
  {
    (set c | c in cs) + (set c, v | c in cs && v in c.variations :: v)
  }

  /** The states of the variations of each collection, collection by collection. */
  function CollectionSnapshots(cs: seq<PropertyCollection>): (r: seq<seq<Variation>>)
    reads Footprint(cs)
    ensures |r| == |cs|
    ensures forall k :: 0 <= k < |cs| ==> r[k] == Snapshots(cs[k].variations)
  {
    if |cs| == 0 then []
    else
      assert cs[0] in Footprint(cs);
      assert forall v :: v in cs[0].variations ==> v in Footprint(cs);
      assert forall o :: o in Footprint(cs[1..]) ==> o in Footprint(cs);
      [Snapshots(cs[0].variations)] + CollectionSnapshots(cs[1..])
  }

  function CollectionsJson(cs: seq<PropertyCollection>): (r: seq<Json.Json>)
    reads Footprint(cs)
    ensures |r| == |cs|
  {
    if |cs| == 0 then []
    else
      assert cs[0] in Footprint(cs);
      assert forall v :: v in cs[0].variations ==> v in Footprint(cs);
      assert forall o :: o in Footprint(cs[1..]) ==> o in Footprint(cs);
      [cs[0].ToJson()] + CollectionsJson(cs[1..])
  }
}
