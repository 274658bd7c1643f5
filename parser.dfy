/** Parser.php: builds the raw record of a class with the configured model parsers, then
    the records of every class its variations refer to, each class once. */
module Parsing {
  import opened Wrappers
  import opened Errors
  import opened Sequences
  import opened Accessors
  import opened VersionRanges
  import opened PropertyTypes
  import opened PropertyTypeLaws
  import opened Parameters
  import opened Variations
  import opened RawClasses
  import opened ParserContexts
  import opened Registry
  import opened ParserSteps
  import Collections
  import Json

  /** The class a type leads to once arrays are peeled lies in `names`, if it leads to one. */
  predicate TargetWithin(t: PropertyType, names: set<string>) {
    LeafClass(t).Some? ==> LeafClass(t).value in names
  }

  /** The type a step puts into a variation, if it puts one. */
  function StepType(s: Step): Option<PropertyType> {
    match s
    case AddVariation(_, x) => Some(x.propertyType)
    case Update(_, SetType(t)) => Some(t)
    case MergeType(_, _, t) => Some(t)
    case _ => None
  }

  /** Every variation type the parser puts into a record leads, if anywhere, into `names`. */
  predicate ParserWithin(parser: ModelParser, names: set<string>) {
    forall c, j :: c in parser && 0 <= j < |parser[c]| && StepType(parser[c][j]).Some? ==>
      TargetWithin(StepType(parser[c][j]).value, names)
  }

  /** Every configured parser stays within `names`. */
  predicate ParsersWithin(parsers: seq<ModelParser>, names: set<string>) {
    forall k :: 0 <= k < |parsers| ==> ParserWithin(parsers[k], names)
  }

  /** Every class some parser can put into a variation type. */
  function ParserTargets(parsers: seq<ModelParser>): (r: set<string>)
    ensures ParsersWithin(parsers, r)
    ensures forall names :: ParsersWithin(parsers, names) ==> r <= names
  {
    set k, c, j | 0 <= k < |parsers| && c in parsers[k] && 0 <= j < |parsers[k][c]|
                  && StepType(parsers[k][c][j]).Some? && LeafClass(StepType(parsers[k][c][j]).value).Some?
      :: LeafClass(StepType(parsers[k][c][j]).value).value
  }

  /** Every variation of the list leads, if anywhere, to a class of `names`. */
  ghost predicate AllWithin(vs: seq<PropertyVariationMetadata>, names: set<string>)
    reads set v | v in vs
  {
    forall v :: v in vs ==> TargetWithin(v.propertyType, names)
  }

  /** A record as the parse leaves it: well formed, and every class its variations refer
      to is among `names`. */
  ghost predicate Closed(m: RawClassMetadata, names: set<string>)
    reads m, Footprint(m.properties)
  {
    VariationsInFootprint(m);
    m.Valid() && AllWithin(Flatten(m.Lists()), names)
  }

  /** A closed record that is a possible outcome of the parsers' calls for its class on an
      empty record. */
  ghost predicate Parsed(parsers: seq<ModelParser>, m: RawClassMetadata, names: set<string>)
    reads m, Footprint(m.properties)
  {
    Closed(m, names) && Produced(parsers, m.className, Ok(View(m)))
  }

  /** The variations of a record belong to the footprint of its collections. */
  lemma {:induction false} VariationsInFootprint(m: RawClassMetadata)
    ensures forall w :: w in Flatten(m.Lists()) ==> w in Footprint(m.properties)
  {
    forall w | w in Flatten(m.Lists()) ensures w in Footprint(m.properties) {
      FlattenMember(m.Lists(), w);
      var k :| 0 <= k < |m.Lists()| && w in m.Lists()[k];
      assert m.properties[k] in m.properties;
    }
  }

  /** A registered record whose variations, listed in order as `vs`, all lead into `u`. */
  ghost predicate Listed(m: RawClassMetadata, vs: seq<PropertyVariationMetadata>, u: set<string>)
    reads m, Footprint(m.properties)
  {
    VariationsInFootprint(m);
    m.Valid() && Flatten(m.Lists()) == vs && AllWithin(vs, u)
  }

  /** A listed record the parsers produced, whose every variation leads into `names`, is
      parsed and closed under `names`. */
  lemma {:induction false} ListedParsed(parsers: seq<ModelParser>, m: RawClassMetadata, vs: seq<PropertyVariationMetadata>,
                                        u: set<string>, names: set<string>)
    requires Listed(m, vs, u) && Produced(parsers, m.className, Ok(View(m)))
    requires forall q :: 0 <= q < |vs| ==> TargetWithin(vs[q].propertyType, names)
    ensures Parsed(parsers, m, names)
  {
    forall w | w in vs ensures TargetWithin(w.propertyType, names) {
      var q :| 0 <= q < |vs| && vs[q] == w;
    }
  }

  /** The types of a list of variations, as values. */
  ghost function TypesOf(vs: seq<PropertyVariationMetadata>): (r: seq<PropertyType>)
    reads set v | v in vs
    ensures |r| == |vs| && forall q :: 0 <= q < |vs| ==> r[q] == vs[q].propertyType
  {
    if vs == [] then [] else [vs[0].propertyType] + TypesOf(vs[1..])
  }

  /** The collections of a record as a set of objects: what a call on the record may modify. */
  function CollectionSet(cs: seq<Collections.PropertyCollection>): set<object> {
    set c | c in cs
  }

  /** A record the parsers can go on filling: well formed, leading only into `u`, and
      holding each variation once. */
  ghost predicate Filling(raw: RawClassMetadata, u: set<string>)
    reads raw, raw.properties, VarsOf(raw)
  {
    raw.Valid() && AllWithin(Flatten(raw.Lists()), u) && NoRepeats(Flatten(raw.Lists()))
  }

  /** The variations of a record as a set of objects: what a call on them may modify. */
  ghost function VarsOf(raw: RawClassMetadata): set<PropertyVariationMetadata>
    reads raw, raw.properties
  {
    set w | w in Flatten(raw.Lists())
  }

  /** getPropertyVariation as a value: the first variation of that PHP name, looking
      through the lists in order. */
  function Lookup(ls: seq<seq<PropertyVariationMetadata>>, name: string): (r: Option<PropertyVariationMetadata>)
    ensures r.None? <==> forall k :: 0 <= k < |ls| ==> Collections.FirstNamed(ls[k], name).None?
    ensures r.Some? ==> r.value.name == name && r.value in Flatten(ls)
  {
    match Holder(ls, name)
    case None => None
    case Some(k) =>
      var j := Collections.FirstNamed(ls[k], name).value;
      FlattenHas(ls, k, ls[k][j]);
      Some(ls[k][j])
  }

  /** A raw record as a value: what the model parsers' calls are specified on. */
  ghost function View(raw: RawClassMetadata): (b: Shape)
    reads raw, Footprint(raw.properties)
    ensures Aligned(b) && |b.lists| == |raw.properties|
    ensures b.hooks == raw.postDeserializeMethods && b.parameters == raw.constructorParameters
  {
    ShapeUpTo(raw.properties, |raw.properties|).(hooks := raw.postDeserializeMethods, parameters := raw.constructorParameters)
  }

  /** The names and variation states of the first `n` collections, built one collection at
      a time, with no hooks and no parameters. */
  ghost function ShapeUpTo(cs: seq<Collections.PropertyCollection>, n: nat): (b: Shape)
    requires n <= |cs|
    reads Footprint(cs)
    ensures Aligned(b) && |b.lists| == n && b.hooks == [] && b.parameters == []
  {
    if n == 0 then EmptyShape
    else
      var b := ShapeUpTo(cs, n - 1);
      assert cs[n - 1] in Footprint(cs);
      assert forall v :: v in cs[n - 1].variations ==> v in Footprint(cs);
      b.(names := b.names + [cs[n - 1].serializedName], lists := b.lists + [Snapshots(cs[n - 1].variations)])
  }

  /** The value form of a sequence of collections, with the given hooks and parameters. */
  ghost function ShapeOf(cs: seq<Collections.PropertyCollection>, hooks: seq<string>, ps: seq<ParameterMetadata>): (b: Shape)
    reads Footprint(cs)
    ensures Aligned(b) && |b.names| == |cs|
  {
    Shape(seq(|cs|, i requires 0 <= i < |cs| reads cs => cs[i].serializedName), CollectionSnapshots(cs), hooks, ps)
  }

  lemma {:induction false} ShapeUpToIs(cs: seq<Collections.PropertyCollection>, n: nat)
    requires n <= |cs|
    ensures var b := ShapeUpTo(cs, n);
      |b.names| == n &&
      forall k :: 0 <= k < n ==> b.names[k] == cs[k].serializedName && b.lists[k] == Snapshots(cs[k].variations)
    decreases n
  {
    if n > 0 {
      ShapeUpToIs(cs, n - 1);
    }
  }

  /** The record's value form holds its names, the states of its variations collection by
      collection, its hooks and its parameters. */
  lemma ViewIs(raw: RawClassMetadata)
    ensures View(raw) == Shape(raw.Names(), CollectionSnapshots(raw.properties), raw.postDeserializeMethods,
                               raw.constructorParameters)
  {
    var cs := raw.properties;
    ShapeUpToIs(cs, |cs|);
    var b := ShapeUpTo(cs, |cs|);
    assert b.names == raw.Names();
    assert b.lists == CollectionSnapshots(cs);
  }

  /** The variation lists of a sequence of collections. */
  ghost function ListsOf(cs: seq<Collections.PropertyCollection>): (r: seq<seq<PropertyVariationMetadata>>)
    reads cs
    ensures |r| == |cs| && forall k :: 0 <= k < |cs| ==> r[k] == cs[k].variations
  {
    seq(|cs|, i requires 0 <= i < |cs| reads cs => cs[i].variations)
  }

  lemma ViewIsShapeOf(raw: RawClassMetadata)
    ensures View(raw) == ShapeOf(raw.properties, raw.postDeserializeMethods, raw.constructorParameters)
    ensures raw.Lists() == ListsOf(raw.properties)
  {
    ViewIs(raw);
  }

  /** Reordering the collections reorders their (name, states) pairs. */
  lemma {:induction false} ReorderedPairs(cs: seq<Collections.PropertyCollection>, ds: seq<Collections.PropertyCollection>,
                                          hooks: seq<string>, ps: seq<ParameterMetadata>)
    requires multiset(ds) == multiset(cs)
    ensures multiset(Pairs(ShapeOf(ds, hooks, ps))) == multiset(Pairs(ShapeOf(cs, hooks, ps)))
  {
    var pairs := map c | c in cs :: (c.serializedName, Snapshots(c.variations));
    forall i | 0 <= i < |ds| ensures ds[i] in pairs {
      assert ds[i] in multiset(cs);
    }
    assert Pairs(ShapeOf(cs, hooks, ps)) == Image(cs, pairs);
    assert Pairs(ShapeOf(ds, hooks, ps)) == Image(ds, pairs);
    ImagePermutation(cs, ds, pairs);
  }

  /** Reordering the collections reorders their variations. */
  lemma {:induction false} ReorderedLists(cs: seq<Collections.PropertyCollection>, ds: seq<Collections.PropertyCollection>)
    requires multiset(ds) == multiset(cs)
    ensures multiset(Flatten(ListsOf(ds))) == multiset(Flatten(ListsOf(cs)))
  {
    var lists := map c | c in cs :: c.variations;
    forall i | 0 <= i < |ds| ensures ds[i] in lists {
      assert ds[i] in multiset(cs);
    }
    assert ListsOf(cs) == Image(cs, lists);
    assert ListsOf(ds) == Image(ds, lists);
    ImagePermutation(cs, ds, lists);
    FlattenPermutation(ListsOf(cs), ListsOf(ds));
  }

  lemma {:induction false} ViewLists(raw: RawClassMetadata)
    ensures View(raw).lists == SnapsOf(raw.Lists()) && View(raw).names == raw.Names()
    ensures View(raw).hooks == raw.postDeserializeMethods && View(raw).parameters == raw.constructorParameters
  {
    ViewIs(raw);
  }

  /** The outcome of a call together with the record it leaves. */
  function After(o: Outcome, b: Shape): (r: Result<Shape>)
    ensures r.Ok? <==> o.Pass?
  {
    if o.Pass? then Ok(b) else Err(o.error)
  }

  /** The states of a list with one more variation, and of the lists with one more list. */
  lemma {:induction false} SnapsAdd(ls: seq<seq<PropertyVariationMetadata>>, k: nat, v: PropertyVariationMetadata)
    ensures k < |ls| ==> SnapsOf(ls[k := ls[k] + [v]]) == SnapsOf(ls)[k := SnapsOf(ls)[k] + [v.Snapshot()]]
    ensures SnapsOf(ls + [[v]]) == SnapsOf(ls) + [[v.Snapshot()]]
  {
    if k < |ls| {
      assert Snapshots(ls[k] + [v]) == Snapshots(ls[k]) + [v.Snapshot()];
    }
    assert Snapshots([v]) == [v.Snapshot()];
  }

  lemma {:induction false} SnapsUpdate(ls: seq<seq<PropertyVariationMetadata>>, k: nat, x: seq<PropertyVariationMetadata>)
    requires k < |ls|
    ensures SnapsOf(ls[k := x]) == SnapsOf(ls)[k := Snapshots(x)]
  {
  }

  lemma {:induction false} SnapsRemoveAt(ls: seq<seq<PropertyVariationMetadata>>, k: nat)
    requires k < |ls|
    ensures SnapsOf(RemoveAt(ls, k)) == RemoveAt(SnapsOf(ls), k)
  {
  }

  /** The states after renameProperty merges list j into list i. */
  lemma {:induction false} SnapsAbsorb(ls: seq<seq<PropertyVariationMetadata>>, i: nat, j: nat)
    requires i < |ls| && j < |ls| && i != j
    ensures var s := SnapsOf(ls);
      SnapsOf(RemoveAt(ls[i := ls[i] + ls[j]], j)) == RemoveAt(s[i := s[i] + s[j]], j)
  {
    var s := SnapsOf(ls);
    assert Snapshots(ls[i] + ls[j]) == s[i] + s[j];
    SnapsUpdate(ls, i, ls[i] + ls[j]);
    SnapsRemoveAt(ls[i := ls[i] + ls[j]], j);
  }

  /** Looking a name up among the variations or among their states finds the same place. */
  lemma {:induction false} FirstSnaps(vs: seq<PropertyVariationMetadata>, name: string)
    ensures Collections.FirstNamed(vs, name) == FirstWith(Snapshots(vs), name)
  {
    var r := Collections.FirstNamed(vs, name);
    if r.Some? {
      FirstWithIsFirst(Snapshots(vs), name, r.value);
    }
  }

  lemma {:induction false} HolderSnaps(ls: seq<seq<PropertyVariationMetadata>>, name: string)
    ensures Holder(ls, name) == HolderOf(SnapsOf(ls), name)
  {
    forall k | 0 <= k < |ls| ensures Collections.FirstNamed(ls[k], name) == FirstWith(SnapsOf(ls)[k], name) {
      FirstSnaps(ls[k], name);
    }
    var r := Holder(ls, name);
    if r.Some? {
      HolderOfIsFirst(SnapsOf(ls), name, r.value);
    }
  }

  lemma {:induction false} WithoutSnaps(vs: seq<PropertyVariationMetadata>, name: string)
    ensures Snapshots(Collections.RemoveFirst(vs, name)) == Without(Snapshots(vs), name)
  {
    FirstSnaps(vs, name);
    var r := Collections.FirstNamed(vs, name);
    if r.Some? {
      var i := r.value;
      SnapsConcat(vs[..i], vs[i + 1..]);
      SnapsSlice(vs, i);
    }
  }

  lemma {:induction false} SnapsConcat(a: seq<PropertyVariationMetadata>, b: seq<PropertyVariationMetadata>)
    ensures Snapshots(a + b) == Snapshots(a) + Snapshots(b)
  {
  }

  lemma {:induction false} SnapsSlice(vs: seq<PropertyVariationMetadata>, i: nat)
    requires i < |vs|
    ensures Snapshots(vs[..i]) == Snapshots(vs)[..i] && Snapshots(vs[i + 1..]) == Snapshots(vs)[i + 1..]
  {
  }

  /** A variation with the given state, as a model parser creates and fills one. */
  method NewVariation(x: Variation) returns (v: PropertyVariationMetadata)
    ensures fresh(v) && v.Snapshot() == x
  {
    v := new PropertyVariationMetadata(x.name, x.readOnly, x.public, x.preferred);
    v.SetGroups(x.groups);
    v.SetAccessor(x.accessor);
    v.SetVersionRange(x.versionRange);
    v.SetType(x.propertyType);
    v.customInformation := x.customInformation;
  }

  /** Adding one variation that leads into `u` keeps every variation leading into `u`. */
  lemma {:induction false} WithinAdd(before: seq<PropertyVariationMetadata>, after: seq<PropertyVariationMetadata>,
                  v: PropertyVariationMetadata, u: set<string>)
    requires AllWithin(before, u) && TargetWithin(v.propertyType, u)
    requires multiset(after) == multiset(before) + multiset{v}
    ensures AllWithin(after, u)
    ensures forall w :: w in after && w != v ==> w in before
  {
    forall w | w in after ensures TargetWithin(w.propertyType, u) && (w != v ==> w in before) {
      assert w in multiset(after);
      if w != v {
        assert w in multiset(before);
      }
    }
  }

  /** Dropping variations keeps the rest leading into `u`. */
  lemma {:induction false} WithinSub(before: seq<PropertyVariationMetadata>, after: seq<PropertyVariationMetadata>, u: set<string>)
    requires AllWithin(before, u)
    requires multiset(after) <= multiset(before)
    ensures AllWithin(after, u)
    ensures forall w :: w in after ==> w in before
  {
    forall w | w in after ensures TargetWithin(w.propertyType, u) && w in before {
      assert w in multiset(after);
    }
  }

  /** The variations of a record are objects of the heap, so a call that modifies only the
      record and its collections leaves them as they are. */
  lemma {:induction false} Allocated(raw: RawClassMetadata)
    ensures forall w :: w in Flatten(raw.Lists()) ==> allocated(w)
  {
    forall w | w in Flatten(raw.Lists()) ensures allocated(w) {
      FlattenMember(raw.Lists(), w);
    }
  }

  lemma AllocatedAt(raw: RawClassMetadata)
    ensures forall a, j :: 0 <= a < |raw.Lists()| && 0 <= j < |raw.Lists()[a]| ==> allocated(raw.Lists()[a][j])
  {
  }

  /** addPropertyVariation with a variation built from the step. */
  method StepAddVariation(raw: RawClassMetadata, name: string, x: Variation, ghost u: set<string>)
    requires raw.Valid() && AllWithin(Flatten(raw.Lists()), u) && NoRepeats(Flatten(raw.Lists()))
    requires TargetWithin(x.propertyType, u)
    modifies raw, raw.properties
    ensures raw.Valid() && AllWithin(Flatten(raw.Lists()), u) && NoRepeats(Flatten(raw.Lists()))
    ensures fresh(CollectionSet(raw.properties) - CollectionSet(old(raw.properties)))
    ensures fresh(VarsOf(raw) - old(VarsOf(raw)))
    ensures View(raw) == ShapeAdd(old(View(raw)), name, x)
  {
    ghost var b := View(raw);
    ghost var ls := raw.Lists();
    ghost var vars := VarsOf(raw);
    ghost var cs := CollectionSet(raw.properties);
    ViewLists(raw);
    Allocated(raw);
    var v := NewVariation(x);
    assert raw.Valid() && VarsOf(raw) == vars && CollectionSet(raw.properties) == cs;
    assert raw.Lists() == ls && raw.Names() == b.names && SnapsOf(ls) == b.lists;
    ViewLists(raw);
    AddStep(raw, name, v, u);
  }

  /** addPropertyVariation of a variation the record does not hold yet. */
  method AddStep(raw: RawClassMetadata, name: string, v: PropertyVariationMetadata, ghost u: set<string>)
    requires raw.Valid() && AllWithin(Flatten(raw.Lists()), u) && NoRepeats(Flatten(raw.Lists()))
    requires TargetWithin(v.Snapshot().propertyType, u) && v !in VarsOf(raw)
    modifies raw, raw.properties
    ensures raw.Valid() && AllWithin(Flatten(raw.Lists()), u) && NoRepeats(Flatten(raw.Lists()))
    ensures fresh(CollectionSet(raw.properties) - CollectionSet(old(raw.properties)))
    ensures VarsOf(raw) <= old(VarsOf(raw)) + {v}
    ensures v.Snapshot() == old(v.Snapshot())
    ensures View(raw) == ShapeAdd(old(View(raw)), name, v.Snapshot())
  {
    ghost var ls := raw.Lists();
    ghost var b := View(raw);
    ViewLists(raw);
    ghost var k := raw.Position(name);
    assert k == Collections.IndexIn(b.names, Collections.SerializedName(name));
    Allocated(raw);
    AddTo(raw, name, v);
    SnapsFrom(ls, b.lists);
    assert k.Some? ==> raw.Names() == b.names && raw.Lists() == ls[k.value := ls[k.value] + [v]];
    assert k.None? ==> raw.Names() == b.names + [Collections.SerializedName(name)] && raw.Lists() == ls + [[v]];
    assert v.propertyType == v.Snapshot().propertyType;
    WithinAdd(Flatten(ls), Flatten(raw.Lists()), v, u);
    NoRepeatsAddOne(Flatten(ls), Flatten(raw.Lists()), v);
    MembersGrow(Flatten(ls), Flatten(raw.Lists()), v);
    ViewLists(raw);
    AddedShape(b, ls, name, v, View(raw), raw.Lists());
  }

  /** The shape after addPropertyVariation, from the lists before and after it. */
  lemma AddedShape(b: Shape, ls: seq<seq<PropertyVariationMetadata>>, name: string, v: PropertyVariationMetadata,
                   c: Shape, ms: seq<seq<PropertyVariationMetadata>>)
    requires Aligned(b) && b.lists == SnapsOf(ls) && c.lists == SnapsOf(ms)
    requires c.hooks == b.hooks && c.parameters == b.parameters
    requires Collections.IndexIn(b.names, Collections.SerializedName(name)).Some? ==>
      var k := Collections.IndexIn(b.names, Collections.SerializedName(name)).value;
      k < |ls| && c.names == b.names && ms == ls[k := ls[k] + [v]]
    requires Collections.IndexIn(b.names, Collections.SerializedName(name)).None? ==>
      c.names == b.names + [Collections.SerializedName(name)] && ms == ls + [[v]]
    ensures c == ShapeAdd(b, name, v.Snapshot())
  {
    var k := Collections.IndexIn(b.names, Collections.SerializedName(name));
    SnapsAdd(ls, if k.Some? then k.value else 0, v);
  }

  /** addPropertyVariation seen from a step: one more variation, at the end of the
      collection of its serialized name or in a new collection at the end; any collection
      that was not there before is new, and the variations keep their state. */
  method AddTo(raw: RawClassMetadata, name: string, v: PropertyVariationMetadata)
    requires raw.Valid()
    modifies raw, raw.properties
    ensures raw.Valid()
    ensures raw.postDeserializeMethods == old(raw.postDeserializeMethods)
    ensures raw.constructorParameters == old(raw.constructorParameters)
    ensures old(raw.Position(name)).Some? ==>
      var k := old(raw.Position(name)).value;
      raw.Names() == old(raw.Names()) && raw.Lists() == old(raw.Lists())[k := old(raw.Lists())[k] + [v]]
    ensures old(raw.Position(name)).None? ==>
      raw.Names() == old(raw.Names()) + [Collections.SerializedName(name)] && raw.Lists() == old(raw.Lists()) + [[v]]
    ensures multiset(Flatten(raw.Lists())) == multiset(Flatten(old(raw.Lists()))) + multiset{v}
    ensures fresh(CollectionSet(raw.properties) - CollectionSet(old(raw.properties)))
    ensures v.Snapshot() == old(v.Snapshot())
    ensures forall a, j :: 0 <= a < |old(raw.Lists())| && 0 <= j < |old(raw.Lists())[a]| ==>
      old(raw.Lists())[a][j].Snapshot() == old(raw.Lists()[a][j].Snapshot())
  {
    ghost var cs := raw.properties;
    ghost var known := raw.Position(name).Some?;
    AllocatedAt(raw);
    raw.AddPropertyVariation(name, v);
    if !known {
      GrownByOne(cs, raw.properties);
    }
  }

  /** A sequence holding one more element than another holds nothing else. */
  lemma MembersGrow<T>(a: seq<T>, b: seq<T>, x: T)
    requires multiset(b) == multiset(a) + multiset{x}
    ensures forall w :: w in b ==> w in a || w == x
  {
    forall w | w in b ensures w in a || w == x {
      assert w in multiset(b);
    }
  }

  /** A sequence grown by one element at its end holds nothing else that is new. */
  lemma GrownByOne(cs: seq<Collections.PropertyCollection>, ds: seq<Collections.PropertyCollection>)
    requires |ds| == |cs| + 1 && ds[..|cs|] == cs
    ensures CollectionSet(ds) - CollectionSet(cs) <= {ds[|cs|]}
  {
    assert ds == cs + [ds[|cs|]];
  }

  /** The shape after renameProperty, from the lists before and after it. */
  lemma RenamedShape(b: Shape, ls: seq<seq<PropertyVariationMetadata>>, from: string, to: string, o: Outcome,
                     c: Shape, ms: seq<seq<PropertyVariationMetadata>>)
    requires Aligned(b) && b.lists == SnapsOf(ls) && c.lists == SnapsOf(ms)
    requires c.hooks == b.hooks && c.parameters == b.parameters
    requires
      var i, j := Collections.IndexIn(b.names, Collections.SerializedName(from)),
                  Collections.IndexIn(b.names, Collections.SerializedName(to));
      && (i.None? ==> o == Fail(NotFound(from)))
      && (i.Some? && Collections.SerializedName(to) == Collections.SerializedName(from) ==> o == Fail(SameProperty(from)))
      && (i.Some? && Collections.SerializedName(to) != Collections.SerializedName(from) && j.None? ==>
            o == Pass && ms == ls && c.names == b.names[i.value := Collections.SerializedName(to)])
      && (i.Some? && Collections.SerializedName(to) != Collections.SerializedName(from) && j.Some? ==>
            o == Pass && c.names == RemoveAt(b.names[i.value := Collections.SerializedName(to)], j.value)
            && ms == RemoveAt(ls[i.value := ls[i.value] + ls[j.value]], j.value))
    ensures After(o, c) == ShapeRename(b, from, to)
  {
    var i, j := Collections.IndexIn(b.names, Collections.SerializedName(from)),
                Collections.IndexIn(b.names, Collections.SerializedName(to));
    if o.Pass? && j.Some? {
      SnapsAbsorb(ls, i.value, j.value);
    }
  }

  /** renameProperty seen from a step: no variation and no collection is new, and every
      variation keeps its state. */
  method RenameIn(raw: RawClassMetadata, from: string, to: string) returns (o: Outcome)
    requires raw.Valid()
    modifies raw, raw.properties
    ensures raw.Valid()
    ensures raw.postDeserializeMethods == old(raw.postDeserializeMethods)
    ensures raw.constructorParameters == old(raw.constructorParameters)
    ensures multiset(Flatten(raw.Lists())) == multiset(Flatten(old(raw.Lists())))
    ensures CollectionSet(raw.properties) <= CollectionSet(old(raw.properties))
    ensures
      var i, j := old(raw.Position(from)), old(raw.Position(to));
      var ns, ls := old(raw.Names()), old(raw.Lists());
      && (i.None? ==> o == Fail(NotFound(from)))
      && (i.Some? && Collections.SerializedName(to) == Collections.SerializedName(from) ==> o == Fail(SameProperty(from)))
      && (i.Some? && Collections.SerializedName(to) != Collections.SerializedName(from) && j.None? ==>
            o == Pass && raw.Lists() == ls && raw.Names() == ns[i.value := Collections.SerializedName(to)])
      && (i.Some? && Collections.SerializedName(to) != Collections.SerializedName(from) && j.Some? ==>
            o == Pass && raw.Names() == RemoveAt(ns[i.value := Collections.SerializedName(to)], j.value)
            && raw.Lists() == RemoveAt(ls[i.value := ls[i.value] + ls[j.value]], j.value))
    ensures forall a, j :: 0 <= a < |old(raw.Lists())| && 0 <= j < |old(raw.Lists())[a]| ==>
      old(raw.Lists())[a][j].Snapshot() == old(raw.Lists()[a][j].Snapshot())
  {
    AllocatedAt(raw);
    o := raw.RenameProperty(from, to);
  }

  /** renameProperty, which fails when the name has no collection or is renamed onto itself. */
  method StepRename(raw: RawClassMetadata, from: string, to: string, ghost u: set<string>) returns (o: Outcome)
    requires raw.Valid() && AllWithin(Flatten(raw.Lists()), u) && NoRepeats(Flatten(raw.Lists()))
    modifies raw, raw.properties
    ensures raw.Valid() && AllWithin(Flatten(raw.Lists()), u) && NoRepeats(Flatten(raw.Lists()))
    ensures fresh(CollectionSet(raw.properties) - CollectionSet(old(raw.properties)))
    ensures fresh(VarsOf(raw) - old(VarsOf(raw)))
    ensures o.Fail? ==> o.error.NotFound? || o.error.SameProperty?
    ensures After(o, View(raw)) == ShapeRename(old(View(raw)), from, to)
  {
    ghost var ls := raw.Lists();
    ghost var b := View(raw);
    ViewLists(raw);
    ghost var before := Flatten(ls);
    Allocated(raw);
    o := RenameIn(raw, from, to);
    assert AllWithin(before, u);
    SnapsFrom(ls, b.lists);
    ViewLists(raw);
    RenamedShape(b, ls, from, to, o, View(raw), raw.Lists());
    WithinSub(before, Flatten(raw.Lists()), u);
    NoRepeatsSub(before, Flatten(raw.Lists()));
  }

  /** removePropertyVariation. */
  method StepRemove(raw: RawClassMetadata, name: string, ghost u: set<string>)
    requires raw.Valid() && AllWithin(Flatten(raw.Lists()), u) && NoRepeats(Flatten(raw.Lists()))
    modifies raw, raw.properties
    ensures raw.Valid() && AllWithin(Flatten(raw.Lists()), u) && NoRepeats(Flatten(raw.Lists()))
    ensures fresh(CollectionSet(raw.properties) - CollectionSet(old(raw.properties)))
    ensures fresh(VarsOf(raw) - old(VarsOf(raw)))
    ensures View(raw) == ShapeRemove(old(View(raw)), name)
  {
    ghost var ls := raw.Lists();
    ghost var b := View(raw);
    ghost var h := Holder(ls, name);
    ViewLists(raw);
    HolderSnaps(ls, name);
    ghost var before := Flatten(ls);
    Allocated(raw);
    RemoveFrom(raw, name);
    assert AllWithin(before, u);
    SnapsFrom(ls, b.lists);
    ViewLists(raw);
    RemovedShape(b, ls, name, h, View(raw), raw.Lists());
    WithinSub(before, Flatten(raw.Lists()), u);
    NoRepeatsSub(before, Flatten(raw.Lists()));
  }

  /** The shape after removePropertyVariation, from the lists before and after it. */
  lemma RemovedShape(b: Shape, ls: seq<seq<PropertyVariationMetadata>>, name: string, h: Option<nat>,
                     c: Shape, ms: seq<seq<PropertyVariationMetadata>>)
    requires Aligned(b) && b.lists == SnapsOf(ls) && c.lists == SnapsOf(ms)
    requires c.hooks == b.hooks && c.parameters == b.parameters && h == HolderOf(b.lists, name)
    requires h.None? ==> c.names == b.names && ms == ls
    requires h.Some? ==>
      var rest := Collections.RemoveFirst(ls[h.value], name);
      (rest == [] ==> c.names == RemoveAt(b.names, h.value) && ms == RemoveAt(ls, h.value))
      && (rest != [] ==> c.names == b.names && ms == ls[h.value := rest])
    ensures c == ShapeRemove(b, name)
  {
    if h.Some? {
      var k := h.value;
      WithoutSnaps(ls[k], name);
      SnapsUpdate(ls, k, Collections.RemoveFirst(ls[k], name));
      SnapsRemoveAt(ls, k);
    }
  }

  /** removePropertyVariation seen from a step: the first variation of the name leaves the
      first collection holding one, which goes when emptied; no variation and no
      collection is new. */
  method RemoveFrom(raw: RawClassMetadata, name: string)
    requires raw.Valid()
    modifies raw, raw.properties
    ensures raw.Valid()
    ensures raw.postDeserializeMethods == old(raw.postDeserializeMethods)
    ensures raw.constructorParameters == old(raw.constructorParameters)
    ensures multiset(Flatten(raw.Lists())) <= multiset(Flatten(old(raw.Lists())))
    ensures CollectionSet(raw.properties) <= CollectionSet(old(raw.properties))
    ensures old(Holder(raw.Lists(), name)).None? ==> raw.Names() == old(raw.Names()) && raw.Lists() == old(raw.Lists())
    ensures old(Holder(raw.Lists(), name)).Some? ==>
      var k := old(Holder(raw.Lists(), name)).value;
      var rest := Collections.RemoveFirst(old(raw.Lists())[k], name);
      (rest == [] ==> raw.Names() == RemoveAt(old(raw.Names()), k) && raw.Lists() == RemoveAt(old(raw.Lists()), k))
      && (rest != [] ==> raw.Names() == old(raw.Names()) && raw.Lists() == old(raw.Lists())[k := rest])
    ensures forall a, j :: 0 <= a < |old(raw.Lists())| && 0 <= j < |old(raw.Lists())[a]| ==>
      old(raw.Lists())[a][j].Snapshot() == old(raw.Lists()[a][j].Snapshot())
  {
    AllocatedAt(raw);
    raw.RemovePropertyVariation(name);
  }

  /** The setter a change names, called on the variation. */
  method ApplyChange(v: PropertyVariationMetadata, c: Change)
    modifies v
    ensures v.Snapshot() == Changed(old(v.Snapshot()), c)
  {
    match c
    case SetType(t) => v.SetType(t);
    case SetPublic(b) => v.SetPublic(b);
    case SetReadOnly(b) => v.SetReadOnly(b);
    case SetPreferred(b) => v.SetPreferred(b);
    case SetGroups(g) => v.SetGroups(g);
    case SetAccessor(a) => v.SetAccessor(a);
    case SetVersionRange(r) => v.SetVersionRange(r);
    case SetCustomInformation(k, x) => v.SetCustomInformation(k, x);
  }

  /** Where getPropertyVariation finds a name: the first list holding a variation of that
      name, the first such variation in it, and the same place among the states. */
  lemma {:induction false} LookupPlace(ls: seq<seq<PropertyVariationMetadata>>, name: string)
    ensures Lookup(ls, name).None? <==> HolderOf(SnapsOf(ls), name).None?
    ensures Lookup(ls, name).Some? ==>
      var k := Holder(ls, name).value;
      var j := Collections.FirstNamed(ls[k], name).value;
      HolderOf(SnapsOf(ls), name) == Some(k) && FirstWith(SnapsOf(ls)[k], name) == Some(j)
      && Lookup(ls, name).value == ls[k][j]
  {
    HolderSnaps(ls, name);
    if Lookup(ls, name).Some? {
      FirstSnaps(ls[Holder(ls, name).value], name);
    }
  }

  /** getPropertyVariation followed by one setter: the variation found changes as the
      setter says and no other changes; a name no variation has is not found. */
  method StepUpdate(raw: RawClassMetadata, name: string, c: Change, ghost u: set<string>) returns (o: Outcome)
    requires raw.Valid() && AllWithin(Flatten(raw.Lists()), u) && NoRepeats(Flatten(raw.Lists()))
    requires c.SetType? ==> TargetWithin(c.propertyType, u)
    modifies VarsOf(raw)
    ensures raw.Valid() && AllWithin(Flatten(raw.Lists()), u) && NoRepeats(Flatten(raw.Lists()))
    ensures raw.Lists() == old(raw.Lists())
    ensures Lookup(raw.Lists(), name).None? ==> o == Fail(NotFound(name))
    ensures Lookup(raw.Lists(), name).Some? ==>
      o == Pass && Lookup(raw.Lists(), name).value.Snapshot() == Changed(old(Lookup(raw.Lists(), name).value.Snapshot()), c)
    ensures forall w :: w in VarsOf(raw) && Some(w) != Lookup(raw.Lists(), name) ==> w.Snapshot() == old(w.Snapshot())
    ensures After(o, View(raw)) == ShapeUpdate(old(View(raw)), name, c)
  {
    Allocated(raw);
    ViewLists(raw);
    ghost var ls := raw.Lists();
    LookupPlace(ls, name);
    var found := Lookup(raw.Lists(), name);
    if found.None? {
      return Fail(NotFound(name));
    }
    var v := found.value;
    ghost var k := Holder(ls, name).value;
    ChangeVariation(raw, v, c, u, k, Collections.FirstNamed(ls[k], name).value);
    o := Pass;
  }

  /** One setter on the variation at place (k, j) of the record; a type it sets leads
      into `u`. No other variation of the record changes, since none is the same object. */
  method ChangeVariation(raw: RawClassMetadata, v: PropertyVariationMetadata, c: Change, ghost u: set<string>,
                         ghost k: nat, ghost j: nat)
    requires raw.Valid() && AllWithin(Flatten(raw.Lists()), u) && NoRepeats(Flatten(raw.Lists()))
    requires k < |raw.Lists()| && j < |raw.Lists()[k]| && v == raw.Lists()[k][j]
    requires c.SetType? ==> TargetWithin(c.propertyType, u)
    modifies v
    ensures raw.Valid() && AllWithin(Flatten(raw.Lists()), u)
    ensures raw.Lists() == old(raw.Lists()) && VarsOf(raw) == old(VarsOf(raw))
    ensures v.Snapshot() == Changed(old(v.Snapshot()), c)
    ensures forall w :: w in VarsOf(raw) && w != v ==> w.Snapshot() == old(w.Snapshot())
    ensures View(raw) == SetVariation(old(View(raw)), k, j, Changed(old(v.Snapshot()), c))
  {
    ghost var ls := raw.Lists();
    ghost var names := raw.Names();
    ViewLists(raw);
    Allocated(raw);
    ChangeAt(v, ls, k, j, c);
    assert raw.Lists() == ls && raw.Names() == names;
    forall w | w in Flatten(raw.Lists()) ensures TargetWithin(w.propertyType, u) {
      if w != v {
        assert w in old(Flatten(raw.Lists()));
      }
    }
    ViewLists(raw);
  }

  /** The setter a change names, called on the variation at place (k, j) of the lists:
      only the state at that place changes, since no other place holds the same object. */
  method ChangeAt(v: PropertyVariationMetadata, ghost ls: seq<seq<PropertyVariationMetadata>>, ghost k: nat,
                  ghost j: nat, c: Change)
    requires NoRepeats(Flatten(ls)) && k < |ls| && j < |ls[k]| && v == ls[k][j]
    modifies v
    ensures v.Snapshot() == Changed(old(v.Snapshot()), c)
    ensures SnapsOf(ls) == old(SnapsOf(ls))[k := old(SnapsOf(ls))[k][j := v.Snapshot()]]
  {
    ghost var snaps := SnapsOf(ls);
    NoRepeatsIsDistinct(Flatten(ls));
    ApplyChange(v, c);
    forall a, b | 0 <= a < |ls| && 0 <= b < |ls[a]| && (a != k || b != j) ensures ls[a][b].Snapshot() == snaps[a][b] {
      DistinctFlattenAt(ls, a, b, k, j);
      assert snaps[a][b] == old(ls[a][b].Snapshot());
    }
    SnapsReplace(ls, k, j, snaps);
  }

  /** Lists whose variations are in the given states have those states. */
  lemma {:induction false} SnapsFrom(ls: seq<seq<PropertyVariationMetadata>>, snaps: seq<seq<Variation>>)
    requires |snaps| == |ls| && forall a :: 0 <= a < |ls| ==> |snaps[a]| == |ls[a]|
    requires forall a, b :: 0 <= a < |ls| && 0 <= b < |ls[a]| ==> ls[a][b].Snapshot() == snaps[a][b]
    ensures SnapsOf(ls) == snaps
  {
    forall a | 0 <= a < |ls| ensures SnapsOf(ls)[a] == snaps[a] {
      assert |SnapsOf(ls)[a]| == |snaps[a]|;
    }
  }

  /** When every place but (k, j) keeps its state, the states differ at (k, j) alone. */
  lemma {:induction false} SnapsReplace(ls: seq<seq<PropertyVariationMetadata>>, k: nat, j: nat, snaps: seq<seq<Variation>>)
    requires k < |ls| && j < |ls[k]|
    requires |snaps| == |ls| && forall a :: 0 <= a < |ls| ==> |snaps[a]| == |ls[a]|
    requires forall a, b :: 0 <= a < |ls| && 0 <= b < |ls[a]| && (a != k || b != j) ==> ls[a][b].Snapshot() == snaps[a][b]
    ensures SnapsOf(ls) == snaps[k := snaps[k][j := ls[k][j].Snapshot()]]
  {
    var want := snaps[k := snaps[k][j := ls[k][j].Snapshot()]];
    forall a | 0 <= a < |ls| ensures SnapsOf(ls)[a] == want[a] {
      assert |SnapsOf(ls)[a]| == |want[a]|;
    }
  }

  /** getPropertyVariation, then the variation's type merged with `t`: on a conflict the
      variation keeps its type and the parse fails with the class and property names. */
  method StepMergeType(raw: RawClassMetadata, name: string, env: Environment, t: PropertyType, ghost u: set<string>)
    returns (o: Outcome)
    requires raw.Valid() && AllWithin(Flatten(raw.Lists()), u) && NoRepeats(Flatten(raw.Lists()))
    requires TargetWithin(t, u)
    modifies VarsOf(raw)
    ensures raw.Valid() && AllWithin(Flatten(raw.Lists()), u) && NoRepeats(Flatten(raw.Lists()))
    ensures raw.Lists() == old(raw.Lists())
    ensures Lookup(raw.Lists(), name).None? ==> o == Fail(NotFound(name))
    ensures Lookup(raw.Lists(), name).Some? ==>
      var v := Lookup(raw.Lists(), name).value;
      var m := Merge(env, old(v.propertyType), t);
      (m.Err? <==> o.Fail?)
      && (m.Err? ==> o.error == ParseError(raw.className, name) && v.Snapshot() == old(v.Snapshot()))
      && (m.Ok? ==> v.Snapshot() == old(v.Snapshot()).(propertyType := m.value))
    ensures forall w :: w in VarsOf(raw) && Some(w) != Lookup(raw.Lists(), name) ==> w.Snapshot() == old(w.Snapshot())
    ensures After(o, View(raw)) == ShapeMerge(old(View(raw)), name, env, t, raw.className)
  {
    Allocated(raw);
    ViewLists(raw);
    ghost var ls := raw.Lists();
    LookupPlace(ls, name);
    var found := Lookup(raw.Lists(), name);
    if found.None? {
      return Fail(NotFound(name));
    }
    var v := found.value;
    ghost var k := Holder(ls, name).value;
    ghost var j := Collections.FirstNamed(ls[k], name).value;
    var merged := Merge(env, v.propertyType, t);
    if merged.Err? {
      return Fail(ParseError(raw.className, name));
    }
    assert TargetWithin(v.propertyType, u);
    MergeLeafClass(env, v.propertyType, t);
    ChangeVariation(raw, v, SetType(merged.value), u, k, j);
    return Pass;
  }

  /** addPostDeserializeMethod or addConstructorParameter: the record's hooks or
      parameters grow, its collections stay as they are. */
  method StepHook(raw: RawClassMetadata, s: Step)
    requires raw.Valid() && (s.AddPostDeserializeMethod? || s.AddConstructorParameter?)
    modifies raw
    ensures raw.Valid() && raw.properties == old(raw.properties)
    ensures raw.Names() == old(raw.Names()) && raw.Lists() == old(raw.Lists())
    ensures s.AddPostDeserializeMethod? ==> raw.postDeserializeMethods == old(raw.postDeserializeMethods) + [s.hook]
    ensures s.AddConstructorParameter? ==> raw.constructorParameters == old(raw.constructorParameters) + [s.parameter]
    ensures Apply(old(View(raw)), s, raw.className) == Ok(View(raw))
  {
    ghost var cs := raw.properties;
    ghost var b := ShapeUpTo(cs, |cs|);
    assert raw !in Footprint(cs);
    if s.AddPostDeserializeMethod? {
      raw.AddPostDeserializeMethod(s.hook);
    } else {
      raw.AddConstructorParameter(s.parameter);
    }
    assert raw.Names() == old(raw.Names()) && raw.Lists() == old(raw.Lists());
    assert forall i :: 0 <= i < |raw.properties| ==> raw.properties[i].Valid();
    assert ShapeUpTo(cs, |cs|) == b;
  }

  /** sortProperties: the collections are reordered by the keys of their names; the
      variations are the same objects with the same state. */
  method StepSort(raw: RawClassMetadata, key: string -> int, ghost u: set<string>)
    requires raw.Valid() && AllWithin(Flatten(raw.Lists()), u) && NoRepeats(Flatten(raw.Lists()))
    modifies raw
    ensures raw.Valid() && AllWithin(Flatten(raw.Lists()), u) && NoRepeats(Flatten(raw.Lists()))
    ensures multiset(raw.properties) == multiset(old(raw.properties))
    ensures CollectionSet(raw.properties) <= CollectionSet(old(raw.properties))
    ensures VarsOf(raw) <= old(VarsOf(raw))
    ensures forall a, b :: 0 <= a < b < |raw.properties| ==> key(raw.Names()[a]) <= key(raw.Names()[b])
    ensures SortedFrom(old(View(raw)), key, View(raw))
  {
    ghost var cs := raw.properties;
    ViewIsShapeOf(raw);
    ghost var before := ShapeOf(cs, raw.postDeserializeMethods, raw.constructorParameters);
    ghost var fp := Footprint(cs);
    assert raw !in fp;
    SortIn(raw, key, u);
    assert unchanged(fp);
    assert before == ShapeOf(cs, raw.postDeserializeMethods, raw.constructorParameters);
    SortedView(raw, cs, key);
  }

  /** A record whose collections are the collections `cs` in key order is `cs` sorted. */
  lemma SortedView(raw: RawClassMetadata, cs: seq<Collections.PropertyCollection>, key: string -> int)
    requires multiset(raw.properties) == multiset(cs)
    requires forall a, b :: 0 <= a < b < |raw.properties| ==> key(raw.Names()[a]) <= key(raw.Names()[b])
    ensures SortedFrom(ShapeOf(cs, raw.postDeserializeMethods, raw.constructorParameters), key, View(raw))
  {
    ReorderedPairs(cs, raw.properties, raw.postDeserializeMethods, raw.constructorParameters);
    ViewIsShapeOf(raw);
    ViewLists(raw);
  }

  /** sortProperties seen from the record's lists: the same collections in key order, so
      the same variations without repeats, leading into `u`. */
  method SortIn(raw: RawClassMetadata, key: string -> int, ghost u: set<string>)
    requires raw.Valid() && AllWithin(Flatten(raw.Lists()), u) && NoRepeats(Flatten(raw.Lists()))
    modifies raw
    ensures raw.Valid() && AllWithin(Flatten(raw.Lists()), u) && NoRepeats(Flatten(raw.Lists()))
    ensures raw.postDeserializeMethods == old(raw.postDeserializeMethods)
    ensures raw.constructorParameters == old(raw.constructorParameters)
    ensures multiset(raw.properties) == multiset(old(raw.properties))
    ensures CollectionSet(raw.properties) <= CollectionSet(old(raw.properties))
    ensures VarsOf(raw) <= old(VarsOf(raw))
    ensures forall a, b :: 0 <= a < b < |raw.properties| ==> key(raw.Names()[a]) <= key(raw.Names()[b])
  {
    ghost var cs := raw.properties;
    ghost var vs := Flatten(raw.Lists());
    assert raw.Lists() == ListsOf(cs) && AllWithin(vs, u);
    raw.SortProperties(key);
    assert vs == Flatten(ListsOf(cs)) && AllWithin(vs, u);
    Resorted(raw, cs, u);
  }

  /** After a reordering of the collections `cs`, the record holds the same variations. */
  lemma Resorted(raw: RawClassMetadata, cs: seq<Collections.PropertyCollection>, u: set<string>)
    requires multiset(raw.properties) == multiset(cs)
    requires AllWithin(Flatten(ListsOf(cs)), u) && NoRepeats(Flatten(ListsOf(cs)))
    ensures AllWithin(Flatten(raw.Lists()), u) && NoRepeats(Flatten(raw.Lists()))
    ensures forall w :: w in Flatten(raw.Lists()) ==> w in Flatten(ListsOf(cs))
    ensures CollectionSet(raw.properties) == CollectionSet(cs)
  {
    assert raw.Lists() == ListsOf(raw.properties);
    ReorderedLists(cs, raw.properties);
    forall w | w in Flatten(raw.Lists()) ensures w in Flatten(ListsOf(cs)) && TargetWithin(w.propertyType, u) {
      assert w in multiset(Flatten(ListsOf(cs)));
    }
    NoRepeatsSub(Flatten(ListsOf(cs)), Flatten(raw.Lists()));
    forall c ensures c in raw.properties <==> c in cs {
      assert c in raw.properties <==> c in multiset(raw.properties);
    }
  }

  /** One parser call on the record. The record stays well formed, new collections and
      variations are fresh, and the variations keep leading into `u`. Adding, removing,
      hooks, parameters and sorting cannot fail; renaming fails as renameProperty does, a
      lookup by a name no variation has is not found, a merge fails on a type conflict,
      and a parser's own exception is a ParseException for the class. */
  method ApplyStep(raw: RawClassMetadata, s: Step, ghost u: set<string>) returns (o: Outcome)
    requires raw.Valid() && AllWithin(Flatten(raw.Lists()), u) && NoRepeats(Flatten(raw.Lists()))
    requires StepType(s).Some? ==> TargetWithin(StepType(s).value, u)
    modifies raw, raw.properties, VarsOf(raw)
    ensures raw.Valid() && AllWithin(Flatten(raw.Lists()), u) && NoRepeats(Flatten(raw.Lists()))
    ensures Applies(old(View(raw)), s, raw.className, After(o, View(raw)))
    ensures fresh(CollectionSet(raw.properties) - CollectionSet(old(raw.properties)))
    ensures fresh(VarsOf(raw) - old(VarsOf(raw)))
    ensures o.Fail? ==> ParseFailure(o.error)
    ensures (s.AddVariation? || s.RemoveVariation? || s.AddPostDeserializeMethod?
             || s.AddConstructorParameter? || s.SortProperties?) ==> o == Pass
    ensures s.RenameProperty? && o.Fail? ==> o.error.NotFound? || o.error.SameProperty?
    ensures s.Update? ==> (o.Fail? <==> old(Lookup(raw.Lists(), s.variationName)).None?)
    ensures s.Update? && o.Fail? ==> o.error == NotFound(s.variationName)
    ensures s.MergeType? && o.Fail? ==>
      o.error == NotFound(s.variationName) || o.error == ParseError(raw.className, s.variationName)
    ensures s.Raise? ==> o == Fail(ParseError(raw.className, s.message))
  {
    o := Pass;
    Allocated(raw);
    match s {
      case AddVariation(name, x) =>
        StepAddVariation(raw, name, x, u);
      case RenameProperty(from, to) =>
        o := StepRename(raw, from, to, u);
      case RemoveVariation(name) =>
        StepRemove(raw, name, u);
      case AddPostDeserializeMethod(_) =>
        StepHook(raw, s);
      case AddConstructorParameter(_) =>
        StepHook(raw, s);
      case Update(name, c) =>
        o := StepUpdate(raw, name, c, u);
      case MergeType(name, env, t) =>
        o := StepMergeType(raw, name, env, t, u);
      case SortProperties(key) =>
        StepSort(raw, key, u);
      case Raise(message) =>
        o := Fail(ParseError(raw.className, message));
    }
  }

  /** What one model parser does with a record: its calls for the class, in order; a class
      it does not know is not found. The first failing call ends the parse. */
  method RunParser(raw: RawClassMetadata, parser: ModelParser, ghost u: set<string>) returns (o: Outcome)
    requires raw.Valid() && AllWithin(Flatten(raw.Lists()), u) && NoRepeats(Flatten(raw.Lists()))
    requires ParserWithin(parser, u)
    modifies raw, raw.properties, VarsOf(raw)
    ensures raw.Valid() && AllWithin(Flatten(raw.Lists()), u) && NoRepeats(Flatten(raw.Lists()))
    ensures fresh(CollectionSet(raw.properties) - CollectionSet(old(raw.properties)))
    ensures fresh(VarsOf(raw) - old(VarsOf(raw)))
    ensures raw.className !in parser ==> o == Fail(ClassNotFound(raw.className))
    ensures o.Fail? ==> ParseFailure(o.error)
    ensures ParserRun(old(View(raw)), parser, raw.className, After(o, View(raw)))
  {
    if raw.className !in parser {
      return Fail(ClassNotFound(raw.className));
    }
    o := RunSteps(raw, parser[raw.className], u);
  }

  /** The calls of one parser for the class, in order, until one fails: the calls before
      the last one, then the last one. */
  method RunSteps(raw: RawClassMetadata, steps: seq<Step>, ghost u: set<string>) returns (o: Outcome)
    requires raw.Valid() && AllWithin(Flatten(raw.Lists()), u) && NoRepeats(Flatten(raw.Lists()))
    requires forall j :: 0 <= j < |steps| && StepType(steps[j]).Some? ==> TargetWithin(StepType(steps[j]).value, u)
    modifies raw, raw.properties, VarsOf(raw)
    decreases |steps|
    ensures raw.Valid() && AllWithin(Flatten(raw.Lists()), u) && NoRepeats(Flatten(raw.Lists()))
    ensures fresh(CollectionSet(raw.properties) - CollectionSet(old(raw.properties)))
    ensures fresh(VarsOf(raw) - old(VarsOf(raw)))
    ensures o.Fail? ==> ParseFailure(o.error)
    ensures Runs(old(View(raw)), steps, raw.className, After(o, View(raw)))
  {
    ghost var a := View(raw);
    if |steps| == 0 {
      RunsNone(a, steps, raw.className);
      o := Pass;
    } else {
      var n := |steps| - 1;
      o := RunSteps(raw, steps[..n], u);
      if o.Fail? {
        RunsFailed(a, steps, n, raw.className, o.error);
      } else {
        o := ApplyNext(raw, a, steps, n, u);
        assert steps[..n + 1] == steps;
      }
    }
  }

  /** One more call after the calls `steps[..j]`: the run extends by that call's outcome. */
  method ApplyNext(raw: RawClassMetadata, ghost a: Shape, steps: seq<Step>, j: nat, ghost u: set<string>)
    returns (o: Outcome)
    requires raw.Valid() && AllWithin(Flatten(raw.Lists()), u) && NoRepeats(Flatten(raw.Lists()))
    requires j < |steps| && Runs(a, steps[..j], raw.className, Ok(View(raw)))
    requires StepType(steps[j]).Some? ==> TargetWithin(StepType(steps[j]).value, u)
    modifies raw, raw.properties, VarsOf(raw)
    ensures raw.Valid() && AllWithin(Flatten(raw.Lists()), u) && NoRepeats(Flatten(raw.Lists()))
    ensures fresh(CollectionSet(raw.properties) - CollectionSet(old(raw.properties)))
    ensures fresh(VarsOf(raw) - old(VarsOf(raw)))
    ensures o.Fail? ==> ParseFailure(o.error)
    ensures Runs(a, steps[..j + 1], raw.className, After(o, View(raw)))
  {
    ghost var b := View(raw);
    o := ApplyStep(raw, steps[j], u);
    RunsSnoc(a, steps, j, raw.className, b, After(o, View(raw)));
  }

  /** The foreach over the configured model parsers, each filling the same record. */
  method RunParsers(raw: RawClassMetadata, parsers: seq<ModelParser>, ghost u: set<string>) returns (o: Outcome)
    requires Filling(raw, u)
    requires ParsersWithin(parsers, u)
    modifies raw, raw.properties, VarsOf(raw)
    ensures Filling(raw, u)
    ensures fresh(CollectionSet(raw.properties) - CollectionSet(old(raw.properties)))
    ensures fresh(VarsOf(raw) - old(VarsOf(raw)))
    ensures o.Pass? ==> forall k :: 0 <= k < |parsers| ==> raw.className in parsers[k]
    ensures o.Fail? ==> ParseFailure(o.error)
    ensures RunsAll(old(View(raw)), parsers, raw.className, After(o, View(raw)))
  {
    ghost var a := View(raw);
    ghost var cs0 := CollectionSet(raw.properties);
    ghost var vs0 := VarsOf(raw);
    ghost var made: set<object> := {};
    ghost var r: Result<Shape> := Ok(a);
    RunsAllNone(a, parsers, raw.className);
    o := Pass;
    var k := 0;
    while k < |parsers| && o.Pass?
      invariant 0 <= k <= |parsers|
      invariant Filling(raw, u)
      invariant fresh(made) && CollectionSet(raw.properties) <= cs0 + made && VarsOf(raw) <= vs0 + made
      invariant o.Fail? ==> ParseFailure(o.error)
      invariant r == After(o, View(raw)) && RunsAll(a, parsers[..k], raw.className, r)
    {
      o, made, r := ParseNext(raw, a, parsers, k, u, cs0, vs0, made, r.value);
      k := k + 1;
    }
    if o.Fail? {
      RunsAllFailed(a, parsers, k, raw.className, o.error);
    } else {
      assert parsers[..k] == parsers;
      RunsAllKnown(a, parsers, raw.className, r.value);
    }
  }

  /** One more parser after `parsers[..k]`: the run of parsers extends by its outcome. */
  method ParseNext(raw: RawClassMetadata, ghost a: Shape, parsers: seq<ModelParser>, k: nat, ghost u: set<string>,
                   ghost cs0: set<object>, ghost vs0: set<object>, ghost made0: set<object>, ghost b: Shape)
    returns (o: Outcome, ghost made: set<object>, ghost r: Result<Shape>)
    requires Filling(raw, u) && b == View(raw)
    requires k < |parsers| && ParserWithin(parsers[k], u) && RunsAll(a, parsers[..k], raw.className, Ok(b))
    requires CollectionSet(raw.properties) <= cs0 + made0 && VarsOf(raw) <= vs0 + made0
    modifies raw, CollectionSet(raw.properties), VarsOf(raw)
    ensures Filling(raw, u)
    ensures made0 <= made && fresh(made - made0)
    ensures CollectionSet(raw.properties) <= cs0 + made && VarsOf(raw) <= vs0 + made
    ensures o.Pass? ==> raw.className in parsers[k]
    ensures o.Fail? ==> ParseFailure(o.error)
    ensures r == After(o, View(raw)) && RunsAll(a, parsers[..k + 1], raw.className, r)
  {
    ghost var cs := CollectionSet(raw.properties);
    ghost var vs := VarsOf(raw);
    o := RunParser(raw, parsers[k], u);
    made := made0 + (CollectionSet(raw.properties) - cs) + (VarsOf(raw) - vs);
    r := After(o, View(raw));
    RunsAllSnoc(a, parsers, k, raw.className, b, r);
  }

  /** A type that leads into some names leads into more names. */
  lemma {:induction false} TargetGrows(t: PropertyType, a: set<string>, b: set<string>)
    requires TargetWithin(t, a) && a <= b
    ensures TargetWithin(t, b)
  {
  }

  /** A parsed record closed under some names stays closed under more names. */
  lemma {:induction false} ParsedGrows(parsers: seq<ModelParser>, m: RawClassMetadata, a: set<string>, b: set<string>)
    requires Parsed(parsers, m, a) && a <= b
    ensures Parsed(parsers, m, b)
  {
  }

  /** The body of the loop over the variations: a variation whose type leads to a class
      has that class parsed, with the variation pushed onto the context. */
  method Descend(parsers: seq<ModelParser>, v: PropertyVariationMetadata, context: ParserContext,
                 registry: RawClassMetadataRegistry, ghost u: set<string>, ghost start: nat,
                 ghost ts: seq<PropertyType>, ghost i: nat)
    returns (o: Outcome)
    requires registry.Valid() && ParsersWithin(parsers, u)
    requires i < |ts| && ts[i] == v.propertyType && TargetWithin(ts[i], u)
    requires forall q :: 0 <= q < i ==> TargetWithin(ts[q], registry.NameSet())
    requires start <= |registry.classMetadata|
    requires forall k {:trigger Parsed(parsers, registry.classMetadata[k], registry.NameSet())} :: start <= k < |registry.classMetadata| ==> Parsed(parsers, registry.classMetadata[k], registry.NameSet())
    modifies registry
    decreases |u - registry.NameSet()|, 2
    ensures registry.Valid()
    ensures old(registry.classMetadata) <= registry.classMetadata
    ensures old(registry.NameSet()) <= registry.NameSet()
    ensures o.Pass? ==> forall q :: 0 <= q <= i ==> TargetWithin(ts[q], registry.NameSet())
    ensures o.Pass? ==> forall k {:trigger Parsed(parsers, registry.classMetadata[k], registry.NameSet())} :: start <= k < |registry.classMetadata| ==> Parsed(parsers, registry.classMetadata[k], registry.NameSet())
    ensures o.Fail? ==> ParseFailure(o.error) && FailsWith(parsers, u, o.error)
  {
    ghost var before := registry.NameSet();
    var t := v.propertyType;
    if t.Array? {
      t := ArrayLeaf(t);
    }
    if !t.Class? {
      return Pass;
    }
    ghost var mid := |registry.classMetadata|;
    ghost var names := registry.NameSet();
    ghost var records := registry.classMetadata[start..];
    o := ParseModel(parsers, t.className, context.Push(v), registry, u);
    if o.Fail? {
      return;
    }
    forall k | 0 <= k < |records| ensures Parsed(parsers, records[k], names) {
      assert records[k].properties == old(records[k].properties);
      assert Footprint(records[k].properties) == old(Footprint(records[k].properties));
    }
    forall k {:trigger Parsed(parsers, registry.classMetadata[k], registry.NameSet())} | start <= k < |registry.classMetadata|
      ensures Parsed(parsers, registry.classMetadata[k], registry.NameSet())
    {
      if k < mid {
        assert registry.classMetadata[k] == records[k - start];
        ParsedGrows(parsers, registry.classMetadata[k], names, registry.NameSet());
      }
    }
    forall q | 0 <= q < i ensures TargetWithin(ts[q], registry.NameSet()) {
      TargetGrows(ts[q], before, registry.NameSet());
    }
  }

  /** The foreach over the variations of a registered record, on the types `ts` they had
      when it started: each variation in turn is descended into. */
  method DescendEach(parsers: seq<ModelParser>, vs: seq<PropertyVariationMetadata>, context: ParserContext,
                     registry: RawClassMetadataRegistry, ghost u: set<string>, ghost start: nat,
                     ghost ts: seq<PropertyType>)
    returns (o: Outcome)
    requires registry.Valid() && ParsersWithin(parsers, u)
    requires |ts| == |vs| && forall q :: 0 <= q < |vs| ==> vs[q].propertyType == ts[q] && TargetWithin(ts[q], u)
    requires start <= |registry.classMetadata|
    requires forall k {:trigger Parsed(parsers, registry.classMetadata[k], registry.NameSet())} :: start <= k < |registry.classMetadata| ==> Parsed(parsers, registry.classMetadata[k], registry.NameSet())
    modifies registry
    decreases |u - registry.NameSet()|, 3
    ensures registry.Valid()
    ensures old(registry.classMetadata) <= registry.classMetadata
    ensures old(registry.NameSet()) <= registry.NameSet()
    ensures o.Pass? ==> forall q :: 0 <= q < |ts| ==> TargetWithin(ts[q], registry.NameSet())
    ensures o.Pass? ==> forall k {:trigger Parsed(parsers, registry.classMetadata[k], registry.NameSet())} :: start <= k < |registry.classMetadata| ==> Parsed(parsers, registry.classMetadata[k], registry.NameSet())
    ensures o.Fail? ==> ParseFailure(o.error) && FailsWith(parsers, u, o.error)
  {
    var i := 0;
    while i < |vs|
      invariant 0 <= i <= |vs|
      invariant registry.Valid()
      invariant old(registry.classMetadata) <= registry.classMetadata
      invariant old(registry.NameSet()) <= registry.NameSet()
      invariant forall k {:trigger Parsed(parsers, registry.classMetadata[k], registry.NameSet())} :: start <= k < |registry.classMetadata| ==> Parsed(parsers, registry.classMetadata[k], registry.NameSet())
      invariant forall q :: 0 <= q < i ==> TargetWithin(ts[q], registry.NameSet())
    {
      SetDiffNoLarger(u, old(registry.NameSet()), registry.NameSet());
      o := Descend(parsers, vs[i], context, registry, u, start, ts, i);
      if o.Fail? {
        return;
      }
      i := i + 1;
    }
    return Pass;
  }

  /** The foreach over the variations of a registered record: once every one is descended
      into, every class the record refers to has been parsed. */
  method DescendAll(parsers: seq<ModelParser>, raw: RawClassMetadata, vs: seq<PropertyVariationMetadata>,
                    context: ParserContext, registry: RawClassMetadataRegistry, ghost u: set<string>)
    returns (o: Outcome)
    requires registry.Valid() && ParsersWithin(parsers, u)
    requires Listed(raw, vs, u) && Produced(parsers, raw.className, Ok(View(raw)))
    requires |registry.classMetadata| > 0 && registry.classMetadata[|registry.classMetadata| - 1] == raw
    modifies registry
    decreases |u - registry.NameSet()|, 4
    ensures registry.Valid()
    ensures old(registry.classMetadata) <= registry.classMetadata
    ensures old(registry.NameSet()) <= registry.NameSet()
    ensures o.Pass? ==> forall k {:trigger Parsed(parsers, registry.classMetadata[k], registry.NameSet())} :: |old(registry.classMetadata)| - 1 <= k < |registry.classMetadata| ==> Parsed(parsers, registry.classMetadata[k], registry.NameSet())
    ensures o.Fail? ==> ParseFailure(o.error) && FailsWith(parsers, u, o.error)
  {
    ghost var start := |registry.classMetadata|;
    ghost var b := View(raw);
    ghost var fp := Footprint(raw.properties);
    assert registry !in fp;
    ghost var ts := TypesOf(vs);
    forall q | 0 <= q < |vs| ensures TargetWithin(ts[q], u) {
      assert vs[q] in vs;
    }
    o := DescendEach(parsers, vs, context, registry, u, start, ts);
    if o.Fail? {
      return;
    }
    assert unchanged(raw) && unchanged(fp);
    assert Footprint(raw.properties) == fp;
    assert View(raw) == b && Listed(raw, vs, u);
    ListedParsed(parsers, raw, vs, u, registry.NameSet());
    assert registry.classMetadata[start - 1] == raw;
    ParsedFrom(parsers, registry.classMetadata, start, registry.NameSet());
  }

  /** Records parsed from `start` on, and the one before, are parsed from `start - 1` on. */
  lemma {:induction false} ParsedFrom(parsers: seq<ModelParser>, rs: seq<RawClassMetadata>, start: nat, names: set<string>)
    requires 0 < start <= |rs| && Parsed(parsers, rs[start - 1], names)
    requires forall k {:trigger Parsed(parsers, rs[k], names)} :: start <= k < |rs| ==> Parsed(parsers, rs[k], names)
    ensures forall k {:trigger Parsed(parsers, rs[k], names)} :: start - 1 <= k < |rs| ==> Parsed(parsers, rs[k], names)
  {
  }

  lemma {:induction false} PrefixTrans<T>(a: seq<T>, b: seq<T>, c: seq<T>)
    requires a <= b && b <= c
    ensures a <= c
  {
  }

  /** A new record for the class, filled by every model parser in turn, and its variations
      listed: the record is a possible outcome of the parsers' calls on an empty record. */
  method Fill(parsers: seq<ModelParser>, className: string, ghost u: set<string>)
    returns (o: Outcome, raw: RawClassMetadata, vs: seq<PropertyVariationMetadata>)
    requires ParsersWithin(parsers, u)
    ensures fresh(raw) && raw.className == className
    ensures o.Pass? ==> Listed(raw, vs, u) && Produced(parsers, className, Ok(View(raw)))
    ensures o.Fail? ==> ParseFailure(o.error) && Produced(parsers, className, Err(o.error))
  {
    raw := new RawClassMetadata(className);
    ViewLists(raw);
    assert View(raw) == EmptyShape;
    vs := [];
    o := RunParsers(raw, parsers, u);
    if o.Fail? {
      return;
    }
    vs := ListVariations(raw, u);
  }

  /** getPropertyVariations on a record whose variations lead into `u`: it changes nothing. */
  method ListVariations(raw: RawClassMetadata, ghost u: set<string>) returns (vs: seq<PropertyVariationMetadata>)
    requires raw.Valid() && AllWithin(Flatten(raw.Lists()), u)
    ensures Listed(raw, vs, u) && View(raw) == old(View(raw))
  {
    ghost var b := View(raw);
    ghost var fp := Footprint(raw.properties);
    ViewLists(raw);
    Allocated(raw);
    vs := raw.GetPropertyVariations();
    assert unchanged(raw) && unchanged(fp);
    assert Footprint(raw.properties) == fp;
    ViewLists(raw);
  }

  /** The first half of parseModel for a class not yet registered: a new record, filled by
      every model parser in turn, registered, and its variations listed. */
  method Register(parsers: seq<ModelParser>, className: string, registry: RawClassMetadataRegistry,
                  ghost u: set<string>) returns (o: Outcome, raw: RawClassMetadata, vs: seq<PropertyVariationMetadata>)
    requires registry.Valid() && !registry.Contains(className) && ParsersWithin(parsers, u)
    modifies registry
    ensures registry.Valid()
    ensures o.Pass? ==> registry.classMetadata == old(registry.classMetadata) + [raw] && raw.className == className
    ensures o.Pass? ==> className !in old(registry.NameSet()) && registry.NameSet() == old(registry.NameSet()) + {className}
    ensures o.Pass? ==> Listed(raw, vs, u) && Produced(parsers, className, Ok(View(raw)))
    ensures o.Fail? ==> registry.classMetadata == old(registry.classMetadata)
    ensures o.Fail? ==> ParseFailure(o.error) && Produced(parsers, className, Err(o.error))
  {
    registry.InNameSet(className);
    o, raw, vs := Fill(parsers, className, u);
    if o.Fail? {
      return;
    }
    ghost var fp := Footprint(raw.properties);
    ghost var view := View(raw);
    label Filled:
    var added := registry.Add(raw);
    assert added.Pass?;
    assert unchanged@Filled(raw) && unchanged@Filled(fp);
    assert Footprint(raw.properties) == fp;
    assert View(raw) == view;
  }

  /** parseModel for a class not yet registered: its record is registered first, and then
      the classes its variations refer to are parsed, in variation order. */
  method ParseNew(parsers: seq<ModelParser>, className: string, context: ParserContext,
                  registry: RawClassMetadataRegistry, ghost u: set<string>) returns (o: Outcome)
    requires registry.Valid() && className in u && !registry.Contains(className) && ParsersWithin(parsers, u)
    modifies registry
    decreases |u - registry.NameSet()|, 0
    ensures registry.Valid()
    ensures old(registry.classMetadata) <= registry.classMetadata
    ensures old(registry.NameSet()) <= registry.NameSet()
    ensures o.Pass? ==> className in registry.NameSet()
    ensures o.Pass? ==>
      |registry.classMetadata| > |old(registry.classMetadata)|
      && registry.classMetadata[|old(registry.classMetadata)|].className == className
    ensures o.Pass? ==>
      forall k {:trigger Parsed(parsers, registry.classMetadata[k], registry.NameSet())} :: |old(registry.classMetadata)| <= k < |registry.classMetadata| ==> Parsed(parsers, registry.classMetadata[k], registry.NameSet())
    ensures o.Fail? ==> ParseFailure(o.error) && FailsWith(parsers, u, o.error)
  {
    var raw, vs;
    o, raw, vs := Register(parsers, className, registry, u);
    if o.Fail? {
      return;
    }
    ghost var registered := registry.classMetadata;
    ghost var n := |old(registry.classMetadata)|;
    ghost var names := registry.NameSet();
    SetDiffSmaller(u, old(registry.NameSet()), names, className);
    o := DescendAll(parsers, raw, vs, context, registry, u);
    PrefixTrans(old(registry.classMetadata), registered, registry.classMetadata);
    assert registered[n] == raw && registered <= registry.classMetadata;
    assert className in names && names <= registry.NameSet();
  }

  /** parseModel: nothing for a registered class; otherwise a new record filled by every
      model parser, registered, and then the classes its variations refer to, in
      variation order. `u` bounds the classes the walk can meet, which makes it terminate. */
  method ParseModel(parsers: seq<ModelParser>, className: string, context: ParserContext,
                    registry: RawClassMetadataRegistry, ghost u: set<string>) returns (o: Outcome)
    requires registry.Valid() && className in u && ParsersWithin(parsers, u)
    modifies registry
    decreases |u - registry.NameSet()|, 1
    ensures registry.Valid()
    ensures old(registry.classMetadata) <= registry.classMetadata
    ensures old(registry.NameSet()) <= registry.NameSet()
    ensures old(registry.Contains(className)) ==> o == Pass && registry.classMetadata == old(registry.classMetadata)
    ensures o.Pass? ==> registry.Contains(className) && className in registry.NameSet()
    ensures o.Pass? && !old(registry.Contains(className)) ==>
      |registry.classMetadata| > |old(registry.classMetadata)|
      && registry.classMetadata[|old(registry.classMetadata)|].className == className
    ensures o.Pass? ==>
      forall k {:trigger Parsed(parsers, registry.classMetadata[k], registry.NameSet())} :: |old(registry.classMetadata)| <= k < |registry.classMetadata| ==> Parsed(parsers, registry.classMetadata[k], registry.NameSet())
    ensures o.Fail? ==> ParseFailure(o.error) && FailsWith(parsers, u, o.error)
  {
    registry.InNameSet(className);
    if registry.Contains(className) {
      return Pass;
    }
    o := ParseNew(parsers, className, context, registry, u);
    registry.InNameSet(className);
  }

  /** parse: a fresh registry per call, filled from the root class. The root's record
      comes first, each class has one record, and every class a record's variations refer
      to, directly or as the leaf of nested arrays, has a record too. */
  method Parse(parsers: seq<ModelParser>, className: string) returns (r: Result<seq<RawClassMetadata>>)
    ensures r.Ok? ==> |r.value| > 0 && r.value[0].className == className
    ensures r.Ok? ==> forall i, j :: 0 <= i < j < |r.value| ==> r.value[i].className != r.value[j].className
    ensures r.Ok? ==> forall k :: 0 <= k < |r.value| ==> Parsed(parsers, r.value[k], ClassNames(r.value))
    ensures r.Err? ==> ParseFailure(r.error) && FailsWith(parsers, ParserTargets(parsers) + {className}, r.error)
  {
    var registry := new RawClassMetadataRegistry();
    ghost var u := ParserTargets(parsers) + {className};
    label Fresh:
    var o := ParseModel(parsers, className, ParserContext(className, []), registry, u);
    if o.Fail? {
      return Err(o.error);
    }
    assert old@Fresh(registry.classMetadata) == [];
    forall k | 0 <= k < |registry.classMetadata| ensures Parsed(parsers, registry.classMetadata[k], ClassNames(registry.classMetadata)) {
      assert Parsed(parsers, registry.classMetadata[k], registry.NameSet());
    }
    var all := registry.GetAll();
    assert all == registry.classMetadata;
    return Ok(all);
  }

}
