/** PropertyReducer::reduce: runs the reducer chain over the variations of each collection
    of a raw record and keeps one property per collection, built from the first survivor. */
module PropertyReducer {
  import opened Wrappers
  import opened Sequences
  import opened Variations
  import opened Properties
  import opened RawClasses
  import opened Classes
  import Reducers
  import Collections

  /** What one collection contributes: nothing when the chain leaves no variation, else
      the property built from the first variation left. */
  function Contribution(name: string, vs: seq<Variation>, reducers: seq<Reducers.Reducer>): (r: seq<PropertyMetadata>)
    ensures |r| <= 1
    ensures |r| == 1 <==> |Reducers.Chain(reducers, name, vs)| > 0
    ensures |r| == 1 ==> r[0] == FromRawProperty(name, Reducers.Chain(reducers, name, vs)[0])
  {
    var out := Reducers.Chain(reducers, name, vs);
    if |out| > 0 then [FromRawProperty(name, out[0])] else []
  }

  /** The properties of the reduced class: the contributions of the collections named
      `names` with variation lists `lists`, in collection order. */
  function Reduced(names: seq<string>, lists: seq<seq<Variation>>, reducers: seq<Reducers.Reducer>): seq<PropertyMetadata>
    requires |names| == |lists|
  {
    if |names| == 0 then []
    else
      var k := |names| - 1;
      Reduced(names[..k], lists[..k], reducers) + Contribution(names[k], lists[k], reducers)
  }

  function SerializedNames(ps: seq<PropertyMetadata>): (r: seq<string>)
    ensures |r| == |ps| && forall i :: 0 <= i < |ps| ==> r[i] == ps[i].serializedName
  {
    seq(|ps|, i requires 0 <= i < |ps| => ps[i].serializedName)
  }

  /** Property `p` is the one collection k contributes. */
  predicate BuiltFrom(p: PropertyMetadata, names: seq<string>, lists: seq<seq<Variation>>,
                      reducers: seq<Reducers.Reducer>, k: nat)
    requires |names| == |lists|
  {
    k < |names| && p in Contribution(names[k], lists[k], reducers)
  }

  /** Output follows collection order and each property carries its collection's name. */
  lemma {:induction false} ReducedOrder(names: seq<string>, lists: seq<seq<Variation>>, reducers: seq<Reducers.Reducer>)
    requires |names| == |lists|
    ensures Subsequence(SerializedNames(Reduced(names, lists, reducers)), names)
  {
    if |names| > 0 {
      var k := |names| - 1;
      var front := Reduced(names[..k], lists[..k], reducers);
      var c := Contribution(names[k], lists[k], reducers);
      ReducedOrder(names[..k], lists[..k], reducers);
      assert names == names[..k] + [names[k]];
      SubsequenceSnoc(SerializedNames(front), names[..k], names[k]);
      if |c| == 1 {
        assert SerializedNames(front + c) == SerializedNames(front) + [names[k]];
      } else {
        assert front + c == front;
      }
    }
  }

  /** Every property is the one some collection contributes. */
  lemma {:induction false} ReducedOrigins(names: seq<string>, lists: seq<seq<Variation>>, reducers: seq<Reducers.Reducer>)
    requires |names| == |lists|
    ensures forall p :: p in Reduced(names, lists, reducers) ==> exists k: nat :: BuiltFrom(p, names, lists, reducers, k)
  {
    if |names| > 0 {
      var k := |names| - 1;
      var front := Reduced(names[..k], lists[..k], reducers);
      var c := Contribution(names[k], lists[k], reducers);
      ReducedOrigins(names[..k], lists[..k], reducers);
      forall p | p in front + c ensures exists m: nat :: BuiltFrom(p, names, lists, reducers, m) {
        if p in front {
          var m: nat :| BuiltFrom(p, names[..k], lists[..k], reducers, m);
          assert names[..k][m] == names[m] && lists[..k][m] == lists[m];
          assert BuiltFrom(p, names, lists, reducers, m);
        } else {
          assert BuiltFrom(p, names, lists, reducers, k);
        }
      }
    }
  }

  /** A collection whose chain leaves a variation contributes the property built from the
      first one left. */
  lemma {:induction false} ReducedCovers(names: seq<string>, lists: seq<seq<Variation>>, reducers: seq<Reducers.Reducer>)
    requires |names| == |lists|
    ensures forall k :: 0 <= k < |names| && |Reducers.Chain(reducers, names[k], lists[k])| > 0 ==>
      FromRawProperty(names[k], Reducers.Chain(reducers, names[k], lists[k])[0]) in Reduced(names, lists, reducers)
  {
    if |names| > 0 {
      var k := |names| - 1;
      var front := Reduced(names[..k], lists[..k], reducers);
      var c := Contribution(names[k], lists[k], reducers);
      ReducedCovers(names[..k], lists[..k], reducers);
      forall m | 0 <= m < |names| && |Reducers.Chain(reducers, names[m], lists[m])| > 0
        ensures FromRawProperty(names[m], Reducers.Chain(reducers, names[m], lists[m])[0]) in front + c
      {
        if m < k {
          assert names[..k][m] == names[m] && lists[..k][m] == lists[m];
        }
      }
    }
  }

  /** Distinct collection names, as a raw record keeps them, give distinct property names,
      so building the ClassMetadata never reports a duplicate. */
  lemma {:induction false} ReducedDistinct(names: seq<string>, lists: seq<seq<Variation>>, reducers: seq<Reducers.Reducer>)
    requires |names| == |lists| && Distinct(names)
    ensures DistinctSerializedNames(Reduced(names, lists, reducers))
    ensures Create("", Reduced(names, lists, reducers), [], []).Ok?
  {
    var r := Reduced(names, lists, reducers);
    ReducedOrder(names, lists, reducers);
    SubsequenceDistinct(SerializedNames(r), names);
    forall i, j | 0 <= i < j < |r| ensures r[i].serializedName != r[j].serializedName {
      assert SerializedNames(r)[i] != SerializedNames(r)[j];
    }
  }

  /** A collection that the chain empties contributes no property. */
  lemma {:induction false} DroppedCollection(names: seq<string>, lists: seq<seq<Variation>>, reducers: seq<Reducers.Reducer>, k: nat)
    requires |names| == |lists| && Distinct(names) && k < |names|
    requires Reducers.Chain(reducers, names[k], lists[k]) == []
    ensures forall p :: p in Reduced(names, lists, reducers) ==> p.serializedName != names[k]
  {
    ReducedOrigins(names, lists, reducers);
    forall p | p in Reduced(names, lists, reducers) ensures p.serializedName != names[k] {
      var m: nat :| BuiltFrom(p, names, lists, reducers, m);
      if m != k {
        DistinctAt(names, m, k);
      }
    }
  }

  /** With no reducers, every non-empty collection contributes its first variation. */
  lemma {:induction false} ReducedWithoutReducers(names: seq<string>, lists: seq<seq<Variation>>)
    requires |names| == |lists|
    requires forall k :: 0 <= k < |lists| ==> |lists[k]| > 0
    ensures |Reduced(names, lists, [])| == |names|
    ensures forall k :: 0 <= k < |names| ==> Reduced(names, lists, [])[k] == FromRawProperty(names[k], lists[k][0])
  {
    if |names| > 0 {
      var k := |names| - 1;
      ReducedWithoutReducers(names[..k], lists[..k]);
      var front := Reduced(names[..k], lists[..k], []);
      assert Reduced(names, lists, []) == front + [FromRawProperty(names[k], lists[k][0])];
    }
  }

  /** The body of the outer foreach for one collection: copy its variations, then run
      the reducers in the given order, each on the previous output. */
  method ReduceCollection(collection: Collections.PropertyCollection, reducers: seq<Reducers.Reducer>)
    returns (properties: seq<Variation>)
    ensures properties == Reducers.Chain(reducers, collection.serializedName, Snapshots(collection.variations))
  {
    ghost var vs := Snapshots(collection.variations);
    properties := [];
    var i := 0;
    while i < |collection.variations|
      invariant 0 <= i <= |collection.variations|
      invariant properties == vs[..i]
    {
      properties := properties + [collection.variations[i].Snapshot()];
      i := i + 1;
    }
    assert vs[..i] == vs;
    var j := 0;
    while j < |reducers|
      invariant 0 <= j <= |reducers|
      invariant properties == Reducers.Chain(reducers[..j], collection.serializedName, vs)
    {
      properties := Reducers.Reduce(reducers[j], collection.serializedName, properties);
      assert reducers[..j + 1][..j] == reducers[..j];
      j := j + 1;
    }
    assert reducers[..j] == reducers;
  }

  /** The outer foreach of reduce over the collections `cs`, whose names and variation
      lists were `names` and `lists` when it started. */
  method ReduceEach(cs: seq<Collections.PropertyCollection>, reducers: seq<Reducers.Reducer>,
                    ghost names: seq<string>, ghost lists: seq<seq<Variation>>)
    returns (classProperties: seq<PropertyMetadata>)
    requires |names| == |cs| && |lists| == |cs|
    requires forall k :: 0 <= k < |cs| ==> names[k] == cs[k].serializedName && lists[k] == Snapshots(cs[k].variations)
    ensures classProperties == Reduced(names, lists, reducers)
  {
    classProperties := [];
    var k := 0;
    while k < |cs|
      invariant 0 <= k <= |cs|
      invariant classProperties == Reduced(names[..k], lists[..k], reducers)
    {
      var collection := cs[k];
      var properties := ReduceCollection(collection, reducers);
      assert names[..k + 1][..k] == names[..k] && lists[..k + 1][..k] == lists[..k];
      if |properties| > 0 {
        classProperties := classProperties + [FromRawProperty(collection.serializedName, properties[0])];
      }
      k := k + 1;
    }
    assert names[..k] == names && lists[..k] == lists;
  }

  /** reduce: one property per collection whose chain leaves a variation, in collection
      order; the class name, constructor parameters and hooks carry over. `names` and `lists`
      are the record's collection names and variation states when the call starts. */
  method Reduce(raw: RawClassMetadata, reducers: seq<Reducers.Reducer>,
                ghost names: seq<string>, ghost lists: seq<seq<Variation>>) returns (cm: ClassMetadata)
    requires raw.Valid() && names == raw.Names() && lists == CollectionSnapshots(raw.properties)
    ensures cm.Valid()
    ensures cm.className == raw.className && cm.constructorParameters == raw.constructorParameters
    ensures cm.postDeserializeMethods == raw.postDeserializeMethods
    ensures cm.properties == Reduced(names, lists, reducers)
  {
    var classProperties := ReduceEach(raw.properties, reducers, names, lists);
    UniqueIsDistinct(names);
    ReducedDistinct(names, lists, reducers);
    var r := FromRawClassMetadata(raw, classProperties);
    cm := r.value;
  }
}
