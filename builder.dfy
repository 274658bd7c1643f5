/** Builder.php: parses the class graph of a root class, reduces every raw record to its
    final metadata, attaches to each class reference the metadata built for its class, and
    returns the recursion-checked metadata of the root. */
module Building {
  import opened Wrappers
  import opened Errors
  import opened Sequences
  import opened PropertyTypes
  import opened PropertyTypeLaws
  import opened Variations
  import opened Properties
  import opened Classes
  import opened RawClasses
  import opened Registry
  import opened Parsing
  import opened ParserSteps
  import opened PropertyReducer
  import opened RecursionContexts
  import opened Links
  import opened RecursionChecking
  import Reducers

  /** Every class property `cm` refers to, directly or as the leaf of nested arrays, is
      among `names`. */
  predicate TargetsWithin(cm: ClassMetadata, names: set<string>) {
    forall i :: 0 <= i < |cm.properties| && Target(cm.properties[i]).Some? ==> Target(cm.properties[i]).value in names
  }

  /** The slots of the class-typed properties of `cm`, owned by `owner`. */
  function Slots(owner: string, cm: ClassMetadata): (r: set<Slot>)
    ensures forall i :: 0 <= i < |cm.properties| && Target(cm.properties[i]).Some? ==> SlotOf(owner, cm.properties[i]) in r
  {
    set i | 0 <= i < |cm.properties| && Target(cm.properties[i]).Some? :: SlotOf(owner, cm.properties[i])
  }

  /** The slots of the class-typed properties among `props`, owned by `owner`. */
  function PropertySlots(owner: string, props: seq<PropertyMetadata>): set<Slot> {
    if |props| == 0 then {}
    else
      var last := props[|props| - 1];
      PropertySlots(owner, props[..|props| - 1]) + (if Target(last).Some? then {SlotOf(owner, last)} else {})
  }

  /** Gathering the slots one property at a time gives the slots of the record. */
  lemma {:induction false} PropertySlotsOfRecord(owner: string, cm: ClassMetadata)
    ensures PropertySlots(owner, cm.properties) == Slots(owner, cm)
  {
    PropertySlotsMembers(owner, cm.properties);
  }

  lemma {:induction false} PropertySlotsMembers(owner: string, props: seq<PropertyMetadata>)
    ensures forall s :: s in PropertySlots(owner, props) <==>
      exists i :: 0 <= i < |props| && Target(props[i]).Some? && s == SlotOf(owner, props[i])
  {
    if |props| > 0 {
      var m := |props| - 1;
      PropertySlotsMembers(owner, props[..m]);
      forall s | s in PropertySlots(owner, props)
        ensures exists i :: 0 <= i < |props| && Target(props[i]).Some? && s == SlotOf(owner, props[i])
      {
        if s in PropertySlots(owner, props[..m]) {
          var i :| 0 <= i < m && Target(props[..m][i]).Some? && s == SlotOf(owner, props[..m][i]);
          assert props[..m][i] == props[i];
        }
      }
      forall i | 0 <= i < |props| && Target(props[i]).Some? ensures SlotOf(owner, props[i]) in PropertySlots(owner, props) {
        if i < m {
          assert props[..m][i] == props[i];
        }
      }
    }
  }

  /** The slots of every class-typed property of every built record. */
  function AllSlots(built: map<string, ClassMetadata>, order: seq<string>): set<Slot>
    requires forall k :: 0 <= k < |order| ==> order[k] in built
  {
    if |order| == 0 then {}
    else AllSlots(built, order[..|order| - 1]) + Slots(order[|order| - 1], built[order[|order| - 1]])
  }

  /** Every attached record is the one built for the class the slot refers to. */
  predicate LinksFrom(links: map<Slot, ClassMetadata>, built: map<string, ClassMetadata>) {
    forall s :: s in links ==> s.target in built && links[s] == built[s.target]
  }

  /** The records built per class name: keyed by their own class name, with distinct
      serialized names. */
  predicate WellKeyed(built: map<string, ClassMetadata>) {
    forall n :: n in built ==> built[n].className == n && built[n].Valid()
  }

  /** The variations a reduced property comes from lead where the record's variations
      lead: reducers only select and reorder. */
  lemma {:induction false} ReducedTargets(names: seq<string>, lists: seq<seq<Variation>>,
                                          reducers: seq<Reducers.Reducer>, u: set<string>)
    requires |names| == |lists|
    requires forall k, v :: 0 <= k < |lists| && v in lists[k] ==> TargetWithin(v.propertyType, u)
    ensures forall p :: p in Reduced(names, lists, reducers) ==> TargetWithin(p.propertyType, u)
  {
    ReducedOrigins(names, lists, reducers);
    forall p | p in Reduced(names, lists, reducers) ensures TargetWithin(p.propertyType, u) {
      var k: nat :| BuiltFrom(p, names, lists, reducers, k);
      Reducers.ChainFromInput(reducers, names[k], lists[k]);
    }
  }

  /** The variation states of a closed record lead into the names it is closed under. */
  lemma {:induction false} ClosedSnapshots(raw: RawClassMetadata, u: set<string>)
    requires Closed(raw, u)
    ensures forall k, v :: 0 <= k < |CollectionSnapshots(raw.properties)| && v in CollectionSnapshots(raw.properties)[k] ==>
      TargetWithin(v.propertyType, u)
  {
    var lists := CollectionSnapshots(raw.properties);
    forall k: int, v: Variation | 0 <= k < |lists| && v in lists[k] ensures TargetWithin(v.propertyType, u) {
      var vs := raw.properties[k].variations;
      var j :| 0 <= j < |Snapshots(vs)| && Snapshots(vs)[j] == v;
      assert raw.Lists()[k] == vs;
      FlattenSplit(raw.Lists(), k);
      assert vs[j] in Flatten(raw.Lists());
    }
  }

  /** What the reducers keep of closed records leads into the names they are closed under. */
  lemma {:induction false} ReducedWithin(raws: seq<RawClassMetadata>, reducers: seq<Reducers.Reducer>, u: set<string>)
    requires forall k :: 0 <= k < |raws| ==> Closed(raws[k], u)
    ensures forall k, p :: 0 <= k < |raws| && p in Reduced(raws[k].Names(), CollectionSnapshots(raws[k].properties), reducers) ==>
      TargetWithin(p.propertyType, u)
  {
    forall k | 0 <= k < |raws|
      ensures forall p :: p in Reduced(raws[k].Names(), CollectionSnapshots(raws[k].properties), reducers) ==> TargetWithin(p.propertyType, u)
    {
      ClosedSnapshots(raws[k], u);
      ReducedTargets(raws[k].Names(), CollectionSnapshots(raws[k].properties), reducers, u);
    }
  }

  /** The body of the first loop of build: the record reduced from `raw`, stored under its
      class name. */
  method ReduceInto(built: map<string, ClassMetadata>, raw: RawClassMetadata, reducers: seq<Reducers.Reducer>,
                    ghost want: seq<PropertyMetadata>)
    returns (next: map<string, ClassMetadata>)
    requires raw.Valid() && WellKeyed(built)
    requires want == Reduced(raw.Names(), CollectionSnapshots(raw.properties), reducers)
    ensures WellKeyed(next) && next.Keys == built.Keys + {raw.className}
    ensures forall n :: n in built && n != raw.className ==> next[n] == built[n]
    ensures next[raw.className].properties == want
  {
    var cm := Reduce(raw, reducers, raw.Names(), CollectionSnapshots(raw.properties));
    next := built[raw.className := cm];
  }

  /** The records for the first i names are stored under those names and no others. */
  ghost predicate Stored(names: seq<string>, want: seq<seq<PropertyMetadata>>, i: nat, built: map<string, ClassMetadata>)
    requires i <= |names| == |want|
  {
    (forall n :: n in built <==> exists k :: 0 <= k < i && names[k] == n)
    && (forall k :: 0 <= k < i ==> names[k] in built && built[names[k]].properties == want[k])
  }

  /** Storing the record for name i keeps the earlier ones, as the names are distinct. */
  lemma {:induction false} ReduceStep(names: seq<string>, want: seq<seq<PropertyMetadata>>, i: nat,
                                      built: map<string, ClassMetadata>, next: map<string, ClassMetadata>)
    requires i < |names| == |want| && Distinct(names)
    requires Stored(names, want, i, built)
    requires next.Keys == built.Keys + {names[i]} && next[names[i]].properties == want[i]
    requires forall n :: n in built && n != names[i] ==> next[n] == built[n]
    ensures Stored(names, want, i + 1, next)
  {
    forall k | 0 <= k <= i ensures names[k] in next && next[names[k]].properties == want[k] {
      if k < i {
        assert names[k] != names[i];
      }
    }
    forall n ensures n in next <==> exists k :: 0 <= k <= i && names[k] == n {
      if n == names[i] {
        assert names[i] == n;
      }
    }
  }

  /** A raw record whose objects are unchanged has the same names and variation states. */
  twostate lemma {:induction false} SnapshotsUnchanged(raw: RawClassMetadata)
    requires unchanged(raw) && unchanged(old(Footprint(raw.properties)))
    ensures raw.Names() == old(raw.Names())
    ensures CollectionSnapshots(raw.properties) == old(CollectionSnapshots(raw.properties))
  {
  }

  /** The first loop of build: one reduced record per raw record, keyed by class name;
      `want` holds what the reducers make of each record. */
  method ReduceAll(raws: seq<RawClassMetadata>, reducers: seq<Reducers.Reducer>, ghost want: seq<seq<PropertyMetadata>>)
    returns (built: map<string, ClassMetadata>)
    requires forall i, j :: 0 <= i < j < |raws| ==> raws[i].className != raws[j].className
    requires forall k :: 0 <= k < |raws| ==> raws[k].Valid()
    requires |want| == |raws|
    requires forall k :: 0 <= k < |raws| ==> want[k] == Reduced(raws[k].Names(), CollectionSnapshots(raws[k].properties), reducers)
    ensures built.Keys == ClassNames(raws) && WellKeyed(built)
    ensures forall k :: 0 <= k < |raws| ==> built[raws[k].className].properties == want[k]
  {
    assert Distinct(NameOrder(raws));
    built := map[];
    var i := 0;
    while i < |raws|
      invariant 0 <= i <= |raws|
      invariant WellKeyed(built)
      invariant Stored(NameOrder(raws), want, i, built)
    {
      var raw := raws[i];
      SnapshotsUnchanged(raw);
      var next := ReduceInto(built, raw, reducers, want[i]);
      ReduceStep(NameOrder(raws), want, i, built, next);
      built := next;
      i := i + 1;
    }
  }

  /** setTypeClassMetadata: a class type gets the record built for its class, or reports
      the class as not found; an array passes on to its leaf; any other type is left as it
      is. `t` is the property's type or the leaf of its arrays. */
  method SetTypeClassMetadata(store: LinkStore, owner: string, p: PropertyMetadata, t: PropertyType,
                              built: map<string, ClassMetadata>)
    returns (o: Outcome)
    requires store.Valid() && WellKeyed(built) && ArrayLeaf(t) == ArrayLeaf(p.propertyType)
    modifies store
    decreases if t.Array? then 1 else 0
    ensures store.Valid()
    ensures Target(p).None? ==> o == Pass && store.links == old(store.links)
    ensures Target(p).Some? && Target(p).value in built ==>
      o == Pass && store.links == old(store.links)[SlotOf(owner, p) := built[Target(p).value]]
    ensures Target(p).Some? && Target(p).value !in built ==>
      o == Fail(NotFound(Target(p).value)) && store.links == old(store.links)
  {
    if t.Class? {
      if t.className !in built {
        return Fail(NotFound(t.className));
      }
      store.SetClassMetadata(SlotOf(owner, p), built[t.className]);
      return Pass;
    }
    if t.Array? {
      var leaf := ArrayLeafType(t);
      o := SetTypeClassMetadata(store, owner, p, leaf, built);
      return;
    }
    return Pass;
  }

  /** Property i of the record built for `owner` refers to a class nothing was built
      for, and `e` reports it. */
  predicate NotParsedAt(built: map<string, ClassMetadata>, owner: string, i: int, e: Error)
    requires owner in built
  {
    0 <= i < |built[owner].properties| && Target(built[owner].properties[i]).Some?
    && Target(built[owner].properties[i]).value !in built
    && e == ClassNotParsed(Target(built[owner].properties[i]).value, owner, built[owner].properties[i].serializedName)
  }

  /** The inner foreach of the second loop of build: every property of one record, a class
      that was not built reported as not parsed, naming the record and the property. */
  method LinkClass(store: LinkStore, owner: string, built: map<string, ClassMetadata>)
    returns (o: Outcome)
    requires store.Valid() && WellKeyed(built) && owner in built && LinksFrom(store.links, built)
    modifies store
    ensures store.Valid() && LinksFrom(store.links, built)
    ensures TargetsWithin(built[owner], built.Keys) ==> o.Pass?
    ensures o.Pass? ==> store.links.Keys == old(store.links.Keys) + Slots(owner, built[owner])
    ensures o.Fail? ==> exists i :: NotParsedAt(built, owner, i, o.error)
  {
    var cm := built[owner];
    var i := 0;
    while i < |cm.properties|
      invariant 0 <= i <= |cm.properties|
      invariant store.Valid() && LinksFrom(store.links, built)
      invariant forall q :: 0 <= q < i ==> Target(cm.properties[q]).None? || Target(cm.properties[q]).value in built
      invariant store.links.Keys == old(store.links.Keys) + PropertySlots(owner, cm.properties[..i])
    {
      var p := cm.properties[i];
      var attached := SetTypeClassMetadata(store, owner, p, p.propertyType, built);
      if attached.Fail? {
        var e := ClassNotParsed(attached.error.name, owner, p.serializedName);
        assert NotParsedAt(built, owner, i, e);
        return Fail(e);
      }
      assert cm.properties[..i + 1][..i] == cm.properties[..i];
      i := i + 1;
    }
    assert cm.properties[..i] == cm.properties;
    PropertySlotsOfRecord(owner, cm);
    return Pass;
  }

  /** The second loop of build: every record in the order it was built. */
  method LinkAll(store: LinkStore, order: seq<string>, built: map<string, ClassMetadata>)
    returns (o: Outcome)
    requires store.Valid() && WellKeyed(built) && LinksFrom(store.links, built)
    requires forall k :: 0 <= k < |order| ==> order[k] in built
    modifies store
    ensures store.Valid() && LinksFrom(store.links, built)
    ensures (forall k :: 0 <= k < |order| ==> TargetsWithin(built[order[k]], built.Keys)) ==> o.Pass?
    ensures o.Pass? ==> store.links.Keys == old(store.links.Keys) + AllSlots(built, order)
    ensures o.Fail? ==> o.error.ClassNotParsed? && o.error.missing !in built
  {
    var k := 0;
    while k < |order|
      invariant 0 <= k <= |order|
      invariant store.Valid() && LinksFrom(store.links, built)
      invariant store.links.Keys == old(store.links.Keys) + AllSlots(built, order[..k])
    {
      o := LinkClass(store, order[k], built);
      if o.Fail? {
        return;
      }
      assert order[..k + 1][..k] == order[..k];
      k := k + 1;
    }
    assert order[..k] == order;
    return Pass;
  }

  /** The class names of records, in order. */
  function NameOrder(raws: seq<RawClassMetadata>): (r: seq<string>)
    ensures |r| == |raws| && forall k :: 0 <= k < |raws| ==> r[k] == raws[k].className
  {
    seq(|raws|, k requires 0 <= k < |raws| => raws[k].className)
  }

  /** Slot `s` is that of property i of the record named order[k]. */
  predicate SlotAt(built: map<string, ClassMetadata>, order: seq<string>, k: int, i: int, s: Slot)
    requires forall q :: 0 <= q < |order| ==> order[q] in built
  {
    0 <= k < |order| && 0 <= i < |built[order[k]].properties| && Target(built[order[k]].properties[i]).Some?
    && s == SlotOf(order[k], built[order[k]].properties[i])
  }

  /** The slots of the records named by `order` are those of their class-typed properties. */
  lemma {:induction false} AllSlotsMembers(built: map<string, ClassMetadata>, order: seq<string>)
    requires forall k :: 0 <= k < |order| ==> order[k] in built
    ensures forall s :: s in AllSlots(built, order) <==> exists k, i :: SlotAt(built, order, k, i, s)
  {
    if |order| > 0 {
      var m := |order| - 1;
      var front := order[..m];
      AllSlotsMembers(built, front);
      forall s | s in AllSlots(built, order) ensures exists k, i :: SlotAt(built, order, k, i, s) {
        if s in AllSlots(built, front) {
          var k, i :| SlotAt(built, front, k, i, s);
          assert front[k] == order[k];
          assert SlotAt(built, order, k, i, s);
        } else {
          var i :| 0 <= i < |built[order[m]].properties| && Target(built[order[m]].properties[i]).Some?
            && s == SlotOf(order[m], built[order[m]].properties[i]);
          assert SlotAt(built, order, m, i, s);
        }
      }
      forall s, k, i | SlotAt(built, order, k, i, s) ensures s in AllSlots(built, order) {
        if k < m {
          assert front[k] == order[k];
          assert SlotAt(built, front, k, i, s);
        }
      }
    }
  }

  /** Slot `s` is that of property i of the record built for its owner, a class-typed one. */
  predicate OwnSlot(built: map<string, ClassMetadata>, s: Slot, i: int) {
    s.owner in built && 0 <= i < |built[s.owner].properties| && Target(built[s.owner].properties[i]).Some?
    && s == SlotOf(s.owner, built[s.owner].properties[i])
  }

  /** The link store holds exactly one slot per class-typed property of a built record. */
  ghost predicate SlotsExactly(keys: set<Slot>, built: map<string, ClassMetadata>) {
    && (forall n, i :: n in built && 0 <= i < |built[n].properties| && Target(built[n].properties[i]).Some? ==>
          SlotOf(n, built[n].properties[i]) in keys)
    && (forall s :: s in keys ==> exists i :: OwnSlot(built, s, i))
  }

  /** When `order` names every built record, its slots are exactly those of the built
      records' class-typed properties. */
  lemma {:induction false} SlotsOfOrder(built: map<string, ClassMetadata>, order: seq<string>)
    requires forall k :: 0 <= k < |order| ==> order[k] in built
    requires forall n :: n in built ==> n in order
    ensures SlotsExactly(AllSlots(built, order), built)
  {
    AllSlotsMembers(built, order);
    forall n, i | n in built && 0 <= i < |built[n].properties| && Target(built[n].properties[i]).Some?
      ensures SlotOf(n, built[n].properties[i]) in AllSlots(built, order)
    {
      var k :| 0 <= k < |order| && order[k] == n;
      assert SlotAt(built, order, k, i, SlotOf(n, built[n].properties[i]));
    }
    forall s | s in AllSlots(built, order) ensures exists i :: OwnSlot(built, s, i) {
      var k, i :| SlotAt(built, order, k, i, s);
      assert OwnSlot(built, s, i);
    }
  }

  /** The records reduced from records closed under their own class names refer only to
      classes that were built. */
  lemma {:induction false} BuiltWithin(raws: seq<RawClassMetadata>, want: seq<seq<PropertyMetadata>>,
                                       built: map<string, ClassMetadata>)
    requires |want| == |raws| && built.Keys == ClassNames(raws)
    requires forall k, p :: 0 <= k < |raws| && p in want[k] ==> TargetWithin(p.propertyType, ClassNames(raws))
    requires forall k :: 0 <= k < |raws| ==> built[raws[k].className].properties == want[k]
    ensures forall n :: n in built ==> TargetsWithin(built[n], built.Keys)
    ensures forall k :: 0 <= k < |raws| ==> NameOrder(raws)[k] in built
    ensures forall n :: n in built ==> n in NameOrder(raws)
  {
    forall n | n in built ensures TargetsWithin(built[n], built.Keys) && n in NameOrder(raws) {
      var k :| 0 <= k < |raws| && raws[k].className == n;
      assert NameOrder(raws)[k] == n;
      forall i | 0 <= i < |built[n].properties| && Target(built[n].properties[i]).Some?
        ensures Target(built[n].properties[i]).value in built.Keys
      {
        assert built[n].properties[i] in want[k];
      }
    }
    forall k | 0 <= k < |raws| ensures NameOrder(raws)[k] in built {
      assert raws[k].className in ClassNames(raws);
    }
  }

  /** The record built for the class of `raw` holds the reduction of its collections. */
  ghost predicate ReducedFrom(built: map<string, ClassMetadata>, raw: RawClassMetadata, reducers: seq<Reducers.Reducer>)
    reads raw, Footprint(raw.properties)
  {
    raw.className in built
    && built[raw.className].properties == Reduced(raw.Names(), CollectionSnapshots(raw.properties), reducers)
  }

  /** The first loop of build on the parsed records: one reduced record per class, as
      `want` lists them, each referring only to classes that were built. */
  method ReduceRecords(raws: seq<RawClassMetadata>, reducers: seq<Reducers.Reducer>, ghost want: seq<seq<PropertyMetadata>>)
    returns (built: map<string, ClassMetadata>)
    requires forall i, j :: 0 <= i < j < |raws| ==> raws[i].className != raws[j].className
    requires forall k :: 0 <= k < |raws| ==> Closed(raws[k], ClassNames(raws))
    requires |want| == |raws|
    requires forall k :: 0 <= k < |raws| ==> want[k] == Reduced(raws[k].Names(), CollectionSnapshots(raws[k].properties), reducers)
    ensures built.Keys == ClassNames(raws) && WellKeyed(built)
    ensures forall k :: 0 <= k < |raws| ==> built[raws[k].className].properties == want[k]
    ensures forall n :: n in built ==> TargetsWithin(built[n], built.Keys)
  {
    ReducedWithin(raws, reducers, ClassNames(raws));
    built := ReduceAll(raws, reducers, want);
    BuiltWithin(raws, want, built);
  }

  /** The second loop of build, on a store with no links yet: every class reference is
      linked to the record built for its class. */
  method LinkBuilt(store: LinkStore, built: map<string, ClassMetadata>, order: seq<string>)
    requires store.Valid() && store.links == map[]
    requires WellKeyed(built) && forall n :: n in built ==> TargetsWithin(built[n], built.Keys)
    requires forall k :: 0 <= k < |order| ==> order[k] in built
    requires forall n :: n in built ==> n in order
    modifies store
    ensures store.Valid()
    ensures SlotsExactly(store.links.Keys, built) && LinksFrom(store.links, built)
  {
    var linked := LinkAll(store, order, built);
    assert linked.Pass?;
    SlotsOfOrder(built, order);
  }

  /** The slots of every class-typed property of every built record. */
  ghost function BuiltSlots(built: map<string, ClassMetadata>): set<Slot> {
    set n, i | n in built && 0 <= i < |built[n].properties| && Target(built[n].properties[i]).Some? ::
      SlotOf(n, built[n].properties[i])
  }

  /** The links the second loop of build attaches: each class reference of a built record
      holds the record built for the class it refers to. */
  ghost function BuiltLinks(built: map<string, ClassMetadata>): (links: map<Slot, ClassMetadata>)
    ensures WellKeyed(built) ==> LinksValid(links)
  {
    map s | s in BuiltSlots(built) && s.target in built :: built[s.target]
  }

  /** Links that cover exactly the class references of the built records and hold the
      records built for their classes are the links of BuiltLinks. */
  lemma {:induction false} LinksAreBuilt(links: map<Slot, ClassMetadata>, built: map<string, ClassMetadata>)
    requires SlotsExactly(links.Keys, built) && LinksFrom(links, built)
    ensures links == BuiltLinks(built)
  {
    var b := BuiltLinks(built);
    forall s | s in links ensures s in b {
      var i :| OwnSlot(built, s, i);
      assert s in BuiltSlots(built);
    }
    forall s | s in b ensures s in links {
      var n, i :| n in built && 0 <= i < |built[n].properties| && Target(built[n].properties[i]).Some?
                  && s == SlotOf(n, built[n].properties[i]);
    }
  }

  /** The walk of the recursion check from the root's built record over the links build
      attaches: the links it leaves, or the failure it reports. */
  ghost function RootWalk(built: map<string, ClassMetadata>, className: string, patterns: seq<seq<string>>)
    : Result<map<Slot, ClassMetadata>>
    requires WellKeyed(built) && className in built
  {
    var links := BuiltLinks(built);
    RecordWalk(links, built[className], RecursionContext(className, []), patterns, Reachable(links.Keys, className))
  }

  /** The last statement of build: the recursion check of the root's record, on links
      that hold the built records. The links left behind hold pruned copies of them. */
  method CheckRoot(store: LinkStore, built: map<string, ClassMetadata>, className: string, patterns: seq<seq<string>>)
    returns (r: Result<ClassMetadata>)
    requires store.Valid() && WellKeyed(built) && className in built
    requires SlotsExactly(store.links.Keys, built) && LinksFrom(store.links, built)
    modifies store
    ensures r.Ok? ==> r.value == Checked(built[className], RecursionContext(className, []), patterns)
    ensures r.Ok? ==> store.Valid() && SlotsExactly(store.links.Keys, built)
    ensures r.Ok? ==> forall s :: s in store.links ==> s.target in built && PrunedCopy(store.links[s], built[s.target])
    ensures r.Err? ==> r.error.Recursion? || r.error.MissingClassMetadata?
    ensures var w := RootWalk(built, className, patterns);
      (r.Err? <==> w.Err?) && (r.Err? ==> r.error == w.error) && (r.Ok? ==> store.links == w.value)
  {
    ghost var before := store.links;
    LinksAreBuilt(store.links, built);
    r := Check(store, built[className], patterns);
    if r.Ok? {
      forall s | s in store.links ensures s.target in built && PrunedCopy(store.links[s], built[s.target]) {
        assert before[s] == built[s.target];
      }
    }
  }

    /** The three steps of build once the class graph is parsed: reduce, link, check the
      root. `want` holds what the reducers make of each parsed record. */
  method ReduceLinkCheck(store: LinkStore, raws: seq<RawClassMetadata>, reducers: seq<Reducers.Reducer>,
                     patterns: seq<seq<string>>, className: string)
    returns (r: Result<ClassMetadata>, built: map<string, ClassMetadata>)
    requires store.Valid() && store.links == map[]
    requires |raws| > 0 && raws[0].className == className
    requires forall i, j :: 0 <= i < j < |raws| ==> raws[i].className != raws[j].className
    requires forall k :: 0 <= k < |raws| ==> Closed(raws[k], ClassNames(raws))
    modifies store
    ensures WellKeyed(built) && className in built
    ensures r.Ok? ==> built.Keys == ClassNames(raws)
    ensures r.Ok? ==> forall k :: 0 <= k < |raws| ==> old(ReducedFrom(built, raws[k], reducers))
    ensures r.Ok? ==> r.value == Checked(built[className], RecursionContext(className, []), patterns)
    ensures r.Ok? ==> forall n :: n in built ==> TargetsWithin(built[n], built.Keys)
    ensures r.Ok? ==> store.Valid() && SlotsExactly(store.links.Keys, built)
    ensures r.Ok? ==> forall s :: s in store.links ==> s.target in built && PrunedCopy(store.links[s], built[s.target])
    ensures r.Err? ==> r.error.Recursion? || r.error.MissingClassMetadata?
    ensures var w := RootWalk(built, className, patterns);
      (r.Err? <==> w.Err?) && (r.Err? ==> r.error == w.error) && (r.Ok? ==> store.links == w.value)
  {
    ghost var want := seq(|raws|, k requires 0 <= k < |raws| reads if 0 <= k < |raws| then {raws[k]} + Footprint(raws[k].properties) else {} =>
      Reduced(raws[k].Names(), CollectionSnapshots(raws[k].properties), reducers));
    built := ReduceRecords(raws, reducers, want);
    LinkBuilt(store, built, NameOrder(raws));
    assert raws[0].className in ClassNames(raws);
    r := CheckRoot(store, built, className, patterns);
  }

  /** build once the class graph is parsed: every parsed record is reduced into the record
      built for its class, then linked and the root checked. */
  method BuildParsed(store: LinkStore, parsers: seq<ModelParser>, raws: seq<RawClassMetadata>,
                     reducers: seq<Reducers.Reducer>, patterns: seq<seq<string>>, className: string)
    returns (r: Result<ClassMetadata>, built: map<string, ClassMetadata>)
    requires store.Valid() && store.links == map[]
    requires |raws| > 0 && raws[0].className == className
    requires forall i, j :: 0 <= i < j < |raws| ==> raws[i].className != raws[j].className
    requires forall k :: 0 <= k < |raws| ==> Parsed(parsers, raws[k], ClassNames(raws))
    modifies store
    ensures WellKeyed(built) && className in built
    ensures r.Ok? ==> built.Keys == ClassNames(raws)
    ensures r.Ok? ==> forall k :: 0 <= k < |raws| ==> ReducedFrom(built, raws[k], reducers)
    ensures r.Ok? ==> r.value == Checked(built[className], RecursionContext(className, []), patterns)
    ensures r.Ok? ==> forall n :: n in built ==> TargetsWithin(built[n], built.Keys)
    ensures r.Ok? ==> store.Valid() && SlotsExactly(store.links.Keys, built)
    ensures r.Ok? ==> forall s :: s in store.links ==> s.target in built && PrunedCopy(store.links[s], built[s.target])
    ensures r.Err? ==> r.error.Recursion? || r.error.MissingClassMetadata?
    ensures var w := RootWalk(built, className, patterns);
      (r.Err? <==> w.Err?) && (r.Err? ==> r.error == w.error) && (r.Ok? ==> store.links == w.value)
  {
    // The store is none of the parsed objects, so the call leaves the records as they are.
    forall k | 0 <= k < |raws| ensures forall o :: o in Footprint(raws[k].properties) ==> allocated(o) && o != store {
    }
    r, built := ReduceLinkCheck(store, raws, reducers, patterns, className);
  }

  /** build: parse, reduce each record, link every class reference to the record built for
      its class, then check the root for recursion. The map of built records and the store
      of links, which the PHP code keeps inside the type objects, are returned as well, and
      so are the parsed records. Linking cannot report a class as not parsed: the parse
      followed every reference. */
  method Build(parsers: seq<ModelParser>, reducers: seq<Reducers.Reducer>, patterns: seq<seq<string>>,
               className: string)
    returns (r: Result<ClassMetadata>, store: LinkStore, built: map<string, ClassMetadata>, ghost raws: seq<RawClassMetadata>)
    ensures WellKeyed(built)
    ensures r.Ok? ==> |raws| > 0 && raws[0].className == className && built.Keys == ClassNames(raws)
    ensures r.Ok? ==> forall k :: 0 <= k < |raws| ==> ReducedFrom(built, raws[k], reducers)
    ensures r.Ok? ==> className in built && r.value == Checked(built[className], RecursionContext(className, []), patterns)
    ensures r.Ok? ==> forall n :: n in built ==> TargetsWithin(built[n], built.Keys)
    ensures r.Ok? ==> store.Valid() && SlotsExactly(store.links.Keys, built)
    ensures r.Ok? ==> forall s :: s in store.links ==> s.target in built && PrunedCopy(store.links[s], built[s.target])
    ensures r.Err? ==> ParseFailure(r.error) || r.error.Recursion? || r.error.MissingClassMetadata?
    ensures raws == [] <==> r.Err? && ParseFailure(r.error)
    ensures raws != [] ==>
      className in built &&
      (var w := RootWalk(built, className, patterns);
       (r.Err? <==> w.Err?) && (r.Err? ==> r.error == w.error) && (r.Ok? ==> store.links == w.value))
  {
    store := new LinkStore();
    var parsed := Parse(parsers, className);
    if parsed.Err? {
      return Err(parsed.error), store, map[], [];
    }
    raws := parsed.value;
    r, built := BuildParsed(store, parsers, parsed.value, reducers, patterns, className);
  }
}
