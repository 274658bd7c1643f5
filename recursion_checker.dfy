/** The metadata attached to class types (PropertyTypeClass::getClassMetadata and
    setClassMetadata). A class type object belongs to one property of one class, so its
    slot is named by the owning class, the property's serialized name and the class the
    type refers to. */
module Links {
  import opened Wrappers
  import opened Errors
  import opened Sequences
  import opened Properties
  import opened Classes
  import opened RecursionContexts

  datatype Slot = Slot(owner: string, property: string, target: string)

  /** The slot of a property of `owner` whose type refers to a class. */
  function SlotOf(owner: string, p: PropertyMetadata): (s: Slot)
    requires Target(p).Some?
    ensures s.owner == owner && s.property == p.serializedName && s.target == Target(p).value
  {
    Slot(owner, p.serializedName, Target(p).value)
  }

  /** Every attached metadata describes the class its type refers to and has distinct
      serialized names. */
  predicate LinksValid(links: map<Slot, ClassMetadata>) {
    forall s :: s in links ==> links[s].className == s.target && links[s].Valid()
  }

  /** `m` is `base` with some properties removed: the same class, parameters and hooks,
      and its properties a subsequence of those of `base`. */
  predicate PrunedCopy(m: ClassMetadata, base: ClassMetadata) {
    m.className == base.className && m.constructorParameters == base.constructorParameters
    && m.postDeserializeMethods == base.postDeserializeMethods
    && Subsequence(m.properties, base.properties)
  }

  /** Every link of `after` holds a pruned copy of what the same link of `before` held. */
  predicate LinksPruned(after: map<Slot, ClassMetadata>, before: map<Slot, ClassMetadata>) {
    after.Keys == before.Keys && forall s :: s in before ==> PrunedCopy(after[s], before[s])
  }

  /** Pruning twice is pruning once. */
  lemma {:induction false} PrunedCopyTrans(a: ClassMetadata, b: ClassMetadata, c: ClassMetadata)
    requires PrunedCopy(a, b) && PrunedCopy(b, c)
    ensures PrunedCopy(a, c)
  {
    SubsequenceTrans(a.properties, b.properties, c.properties);
  }

  /** Every record is a pruned copy of itself. */
  lemma {:induction false} PrunedCopySelf(m: ClassMetadata)
    ensures PrunedCopy(m, m)
  {
    SubsequenceReflexive(m.properties);
  }

  /** Links are pruned links of themselves. */
  lemma {:induction false} LinksPrunedSelf(links: map<Slot, ClassMetadata>)
    ensures LinksPruned(links, links)
  {
    forall s | s in links ensures PrunedCopy(links[s], links[s]) {
      PrunedCopySelf(links[s]);
    }
  }

  /** Pruned links pruned again are pruned links. */
  lemma {:induction false} LinksPrunedTrans(a: map<Slot, ClassMetadata>, b: map<Slot, ClassMetadata>, c: map<Slot, ClassMetadata>)
    requires LinksPruned(a, b) && LinksPruned(b, c)
    ensures LinksPruned(a, c)
  {
    forall s | s in c ensures PrunedCopy(a[s], c[s]) {
      PrunedCopyTrans(a[s], b[s], c[s]);
    }
  }

  class LinkStore {
    var links: map<Slot, ClassMetadata>

    ghost predicate Valid()
      reads this
    {
      LinksValid(links)
    }

    /** No class type carries metadata yet. */
    constructor ()
      ensures links == map[] && Valid()
    {
      links := map[];
    }

    /** getClassMetadata: the attached metadata, or an internal error before any was set. */
    method GetClassMetadata(s: Slot) returns (r: Result<ClassMetadata>)
      requires Valid()
      ensures s in links ==> r == Ok(links[s]) && r.value.className == s.target && r.value.Valid()
      ensures s !in links ==> r == Err(MissingClassMetadata(s.target))
    {
      if s in links {
        return Ok(links[s]);
      }
      return Err(MissingClassMetadata(s.target));
    }

    /** setClassMetadata: attaches the metadata, replacing what was there. */
    method SetClassMetadata(s: Slot, m: ClassMetadata)
      requires Valid() && m.className == s.target && m.Valid()
      modifies this
      ensures Valid()
      ensures links == old(links)[s := m]
    {
      links := links[s := m];
    }
  }
}

/** RecursionChecker.php: a depth-first walk over the linked metadata that removes the
    properties an expected-recursion pattern names and rejects a class that would occur a
    third time on one path. */
module RecursionChecking {
  import opened Wrappers
  import opened Errors
  import opened Sequences
  import opened Properties
  import opened Classes
  import opened RecursionContexts
  import opened Links

  /** Some expected recursion matches the context. */
  predicate AnyPatternMatches(c: RecursionContext, patterns: seq<seq<string>>) {
    exists k :: 0 <= k < |patterns| && PatternMatches(c, patterns[k])
  }

  /** The PHP names of the class-typed properties the patterns prune, in property order. */
  function Pruned(props: seq<PropertyMetadata>, c: RecursionContext, patterns: seq<seq<string>>): (r: seq<string>)
    ensures forall n :: n in r <==>
      exists i :: 0 <= i < |props| && props[i].name == n && Target(props[i]).Some? && AnyPatternMatches(c.Push(props[i]), patterns)
  {
    if |props| == 0 then []
    else
      var n := |props| - 1;
      var p := props[n];
      var front := Pruned(props[..n], c, patterns);
      assert forall i :: 0 <= i < n ==> props[..n][i] == props[i];
      front + (if Target(p).Some? && AnyPatternMatches(c.Push(p), patterns) then [p.name] else [])
  }

  /** One more property extends the pruned names by its name exactly when it is pruned. */
  lemma {:induction false} PrunedSnoc(props: seq<PropertyMetadata>, i: nat, c: RecursionContext, patterns: seq<seq<string>>)
    requires i < |props|
    ensures Pruned(props[..i + 1], c, patterns) == Pruned(props[..i], c, patterns)
      + (if Target(props[i]).Some? && AnyPatternMatches(c.Push(props[i]), patterns) then [props[i].name] else [])
  {
    assert props[..i + 1][..i] == props[..i];
  }

  /** What checkClassMetadata returns for a walk that completes: the record itself when
      nothing is pruned, otherwise a copy without the pruned properties. */
  function Checked(cm: ClassMetadata, c: RecursionContext, patterns: seq<seq<string>>): (r: ClassMetadata)
    requires cm.Valid()
    ensures r.Valid() && r.className == cm.className
  {
    var pruned := Pruned(cm.properties, c, patterns);
    if |pruned| == 0 then cm else WithoutProperties(cm, pruned)
  }

  /** The property at i is walked into and its class would occur a third time: a linked,
      class-typed property that no pattern prunes and whose class already occurs twice. */
  predicate Escalates(cm: ClassMetadata, c: RecursionContext, patterns: seq<seq<string>>, slots: set<Slot>, i: nat)
    requires i < |cm.properties|
  {
    var p := cm.properties[i];
    Target(p).Some? && SlotOf(cm.className, p) in slots && !AnyPatternMatches(c.Push(p), patterns)
    && ClassNameCount(c.Push(p), Target(p).value) > 2
  }

  /** The classes the walk can reach: the root and every class some slot refers to. */
  function Reachable(slots: set<Slot>, root: string): set<string> {
    (set s | s in slots :: s.target) + {root}
  }

  /** The foreach over the expected recursions. */
  method AnyMatches(c: RecursionContext, patterns: seq<seq<string>>) returns (found: bool)
    ensures found <==> AnyPatternMatches(c, patterns)
  {
    var k := 0;
    while k < |patterns|
      invariant 0 <= k <= |patterns|
      invariant forall q :: 0 <= q < k ==> !PatternMatches(c, patterns[q])
    {
      var m := Matches(c, patterns[k]);
      if m {
        return true;
      }
      k := k + 1;
    }
    return false;
  }

  /** A path in which no class occurs more than twice stays so when it is extended by a
      property whose class occurs at most twice on the longer path. */
  lemma {:induction false} PushKeepsBound(c: RecursionContext, p: PropertyMetadata)
    requires forall x :: ClassNameCount(c, x) <= 2
    requires Target(p).Some? && ClassNameCount(c.Push(p), Target(p).value) <= 2
    ensures forall x :: ClassNameCount(c.Push(p), x) <= 2
  {
    forall x ensures ClassNameCount(c.Push(p), x) <= 2 {
      PushCount(c, p, x);
    }
  }

  /** What the walk demands of a context: every class on the path is among the classes
      `u` the walk can reach, and none occurs more than twice. */
  ghost predicate Bounded(links: map<Slot, ClassMetadata>, c: RecursionContext, u: set<string>) {
    Reachable(links.Keys, c.root) <= u
    && (forall k :: 0 <= k < |c.stack| ==> Target(c.stack[k]).Some? && Target(c.stack[k]).value in u)
    && (forall x :: ClassNameCount(c, x) <= 2)
  }

  /** The walk for the property at i, from the links `links`: whether it is pruned and
      the links afterwards, or the failure. A property not leading to a class is skipped;
      a missing link fails; a matching pattern prunes; a class occurring a third time is a
      recursion; otherwise the class is walked one level deeper. */
  ghost function PropertyWalk(links: map<Slot, ClassMetadata>, cm: ClassMetadata, c: RecursionContext,
                              patterns: seq<seq<string>>, u: set<string>, i: nat)
    : (r: Result<(bool, map<Slot, ClassMetadata>)>)
    requires i < |cm.properties| && LinksValid(links) && cm.Valid() && Bounded(links, c, u)
    decreases 2 * |u| - |c.stack|, 1
    ensures r.Ok? ==> LinksValid(r.value.1) && LinksPruned(r.value.1, links)
    ensures r.Ok? ==> (r.value.0 <==> Target(cm.properties[i]).Some? && AnyPatternMatches(c.Push(cm.properties[i]), patterns))
    ensures r.Err? ==> r.error.Recursion? || r.error.MissingClassMetadata?
    ensures Escalates(cm, c, patterns, links.Keys, i) ==> r.Err?
  {
    PathBound(c, u);
    LinksPrunedSelf(links);
    var p := cm.properties[i];
    if Target(p).None? then Ok((false, links))
    else
      var slot := SlotOf(cm.className, p);
      var pc := c.Push(p);
      if slot !in links then Err(MissingClassMetadata(slot.target))
      else if AnyPatternMatches(pc, patterns) then Ok((true, links))
      else if ClassNameCount(pc, links[slot].className) > 2 then Err(Recursion(links[slot].className, pc.Render()))
      else
        PushKeepsBound(c, p);
        PrunedCopySelf(links[slot]);
        match LinkedWalk(links, slot, links[slot], pc, patterns, u)
        case Err(e) => Err(e)
        case Ok(after) => Ok((false, after))
  }

  /** The walk one level deeper, into `target`, the record the slot held when it was
      fetched: the record is walked under the longer context, and its checked form is
      attached to the slot last, over whatever the deeper walk attached there. */
  ghost function LinkedWalk(links: map<Slot, ClassMetadata>, slot: Slot, target: ClassMetadata, pc: RecursionContext,
                            patterns: seq<seq<string>>, u: set<string>)
    : (r: Result<map<Slot, ClassMetadata>>)
    requires LinksValid(links) && slot in links && target.Valid() && target.className == slot.target
    requires PrunedCopy(target, links[slot]) && Bounded(links, pc, u)
    decreases 2 * |u| - |pc.stack| + 1, 0
    ensures r.Ok? ==> LinksValid(r.value) && LinksPruned(r.value, links)
    ensures r.Ok? ==> r.value[slot] == Checked(target, pc, patterns)
    ensures r.Err? ==> r.error.Recursion? || r.error.MissingClassMetadata?
  {
    PathBound(pc, u);
    match RecordWalk(links, target, pc, patterns, u)
    case Err(e) => Err(e)
    case Ok(after) =>
      CheckedPrunes(target, pc, patterns);
      PrunedCopyTrans(Checked(target, pc, patterns), target, links[slot]);
      Ok(after[slot := Checked(target, pc, patterns)])
  }

  /** The walk over the first n properties of `cm`, in order, each from the links the one
      before it left. */
  ghost function PrefixWalk(links: map<Slot, ClassMetadata>, cm: ClassMetadata, c: RecursionContext,
                            patterns: seq<seq<string>>, u: set<string>, n: nat)
    : (r: Result<map<Slot, ClassMetadata>>)
    requires n <= |cm.properties| && LinksValid(links) && cm.Valid() && Bounded(links, c, u)
    decreases 2 * |u| - |c.stack|, 2, n
    ensures r.Ok? ==> LinksValid(r.value) && LinksPruned(r.value, links)
    ensures r.Ok? ==> forall q :: 0 <= q < n ==> !Escalates(cm, c, patterns, links.Keys, q)
    ensures r.Err? ==> r.error.Recursion? || r.error.MissingClassMetadata?
  {
    if n == 0 then LinksPrunedSelf(links); Ok(links)
    else
      match PrefixWalk(links, cm, c, patterns, u, n - 1)
      case Err(e) => Err(e)
      case Ok(mid) =>
        match PropertyWalk(mid, cm, c, patterns, u, n - 1)
        case Err(e) => Err(e)
        case Ok(step) =>
          LinksPrunedTrans(step.1, mid, links);
          Ok(step.1)
  }

  /** A walk that fails on some property fails the same way over any longer prefix. */
  lemma {:induction false} PrefixWalkFails(links: map<Slot, ClassMetadata>, cm: ClassMetadata, c: RecursionContext,
                                           patterns: seq<seq<string>>, u: set<string>, i: nat, n: nat)
    requires i <= n <= |cm.properties| && LinksValid(links) && cm.Valid() && Bounded(links, c, u)
    requires PrefixWalk(links, cm, c, patterns, u, i).Err?
    ensures PrefixWalk(links, cm, c, patterns, u, n) == PrefixWalk(links, cm, c, patterns, u, i)
    decreases n
  {
    if n > i {
      PrefixWalkFails(links, cm, c, patterns, u, i, n - 1);
    }
  }

  /** The walk over every property of `cm`: the links it leaves behind, or the failure. */
  ghost function RecordWalk(links: map<Slot, ClassMetadata>, cm: ClassMetadata, c: RecursionContext,
                            patterns: seq<seq<string>>, u: set<string>)
    : (r: Result<map<Slot, ClassMetadata>>)
    requires LinksValid(links) && cm.Valid() && Bounded(links, c, u)
    decreases 2 * |u| - |c.stack|, 3
    ensures r.Ok? ==> LinksValid(r.value) && LinksPruned(r.value, links)
    ensures r.Ok? ==> forall i :: 0 <= i < |cm.properties| ==> !Escalates(cm, c, patterns, links.Keys, i)
    ensures r.Err? ==> r.error.Recursion? || r.error.MissingClassMetadata?
  {
    PrefixWalk(links, cm, c, patterns, u, |cm.properties|)
  }

  /** The checked form of a record is a pruned copy of it. */
  lemma {:induction false} CheckedPrunes(cm: ClassMetadata, c: RecursionContext, patterns: seq<seq<string>>)
    requires cm.Valid()
    ensures PrunedCopy(Checked(cm, c, patterns), cm)
  {
    if |Pruned(cm.properties, c, patterns)| == 0 {
      SubsequenceReflexive(cm.properties);
    }
  }

  /** The body of the outer foreach for the property at i: a property whose type does not
      lead to a class is skipped; otherwise the attached metadata is fetched, the property is
      pruned (Ok(true)) if a pattern matches, the class is rejected if it would occur more
      than twice, and else the attached metadata is checked one level deeper and the result
      attached (Ok(false)). */
  method CheckProperty(store: LinkStore, cm: ClassMetadata, c: RecursionContext,
                       patterns: seq<seq<string>>, ghost u: set<string>, i: nat)
    returns (r: Result<bool>)
    requires i < |cm.properties|
    requires store.Valid() && cm.Valid() && Bounded(store.links, c, u)
    modifies store
    decreases 2 * |u| - |c.stack|, 1
    ensures store.Valid()
    ensures var w := PropertyWalk(old(store.links), cm, c, patterns, u, i);
      (r.Err? <==> w.Err?) && (r.Err? ==> r.error == w.error)
      && (r.Ok? ==> r.value == w.value.0 && store.links == w.value.1)
  {
    PathBound(c, u);
    var p := cm.properties[i];
    var t := p.propertyType;
    if t.Array? {
      t := PropertyTypeLaws.ArrayLeafType(t);
    }
    if !t.Class? {
      return Ok(false);
    }
    var slot := SlotOf(cm.className, p);
    var got := store.GetClassMetadata(slot);
    if got.Err? {
      return Err(got.error);
    }
    var target := got.value;
    var pc := c.Push(p);
    var matched := AnyMatches(pc, patterns);
    if matched {
      return Ok(true);
    }
    var count := CountClassNames(pc, target.className);
    if count > 2 {
      return Err(Recursion(target.className, pc.Render()));
    }
    PushKeepsBound(c, p);
    SubsequenceReflexive(target.properties);
    r := CheckLinked(store, slot, target, pc, patterns, u);
  }

  /** The walk one level deeper, into the class a linked property leads to: the class is
      checked under the longer context and the result attached to the link. */
  method CheckLinked(store: LinkStore, slot: Slot, target: ClassMetadata, pc: RecursionContext,
                     patterns: seq<seq<string>>, ghost u: set<string>)
    returns (r: Result<bool>)
    requires store.Valid() && slot in store.links && target.Valid() && target.className == slot.target
    requires PrunedCopy(target, store.links[slot]) && Bounded(store.links, pc, u)
    modifies store
    decreases 2 * |u| - |pc.stack| + 1, 0
    ensures store.Valid()
    ensures r.Ok? ==> !r.value && slot in store.links && store.links[slot] == Checked(target, pc, patterns)
    ensures var w := LinkedWalk(old(store.links), slot, target, pc, patterns, u);
      (r.Err? <==> w.Err?) && (r.Err? ==> r.error == w.error) && (r.Ok? ==> store.links == w.value)
  {
    PathBound(pc, u);
    var sub := CheckClassMetadata(store, target, pc, patterns, u);
    if sub.Err? {
      return Err(sub.error);
    }
    store.SetClassMetadata(slot, sub.value);
    return Ok(false);
  }

  /** The foreach of checkClassMetadata: every property in turn, collecting the PHP names
      of the pruned ones. */
  method PruneEach(store: LinkStore, cm: ClassMetadata, c: RecursionContext,
                   patterns: seq<seq<string>>, ghost u: set<string>)
    returns (r: Result<seq<string>>)
    requires store.Valid() && cm.Valid() && Bounded(store.links, c, u)
    modifies store
    decreases 2 * |u| - |c.stack|, 2
    ensures store.Valid()
    ensures r.Ok? ==> r.value == Pruned(cm.properties, c, patterns)
    ensures var w := RecordWalk(old(store.links), cm, c, patterns, u);
      (r.Err? <==> w.Err?) && (r.Err? ==> r.error == w.error) && (r.Ok? ==> store.links == w.value)
  {
    ghost var links := store.links;
    var toRemove: seq<string> := [];
    var i := 0;
    while i < |cm.properties|
      invariant 0 <= i <= |cm.properties|
      invariant store.Valid()
      invariant PrefixWalk(links, cm, c, patterns, u, i) == Ok(store.links)
      invariant toRemove == Pruned(cm.properties[..i], c, patterns)
    {
      var pruned := CheckProperty(store, cm, c, patterns, u, i);
      if pruned.Err? {
        PrefixWalkFails(links, cm, c, patterns, u, i + 1, |cm.properties|);
        return Err(pruned.error);
      }
      PrunedSnoc(cm.properties, i, c, patterns);
      if pruned.value {
        toRemove := toRemove + [cm.properties[i].name];
      }
      i := i + 1;
    }
    assert cm.properties[..i] == cm.properties;
    return Ok(toRemove);
  }

  /** checkClassMetadata: the record itself when no property is pruned, else a copy
      without the pruned ones; the links are those the walk leaves behind. */
  method CheckClassMetadata(store: LinkStore, cm: ClassMetadata, c: RecursionContext,
                            patterns: seq<seq<string>>, ghost u: set<string>)
    returns (r: Result<ClassMetadata>)
    requires store.Valid() && cm.Valid() && Bounded(store.links, c, u)
    modifies store
    decreases 2 * |u| - |c.stack|, 3
    ensures store.Valid()
    ensures r.Ok? ==> r.value == Checked(cm, c, patterns)
    ensures var w := RecordWalk(old(store.links), cm, c, patterns, u);
      (r.Err? <==> w.Err?) && (r.Err? ==> r.error == w.error) && (r.Ok? ==> store.links == w.value)
  {
    var toRemove := PruneEach(store, cm, c, patterns, u);
    if toRemove.Err? {
      return Err(toRemove.error);
    }
    if |toRemove.value| == 0 {
      return Ok(cm);
    }
    return Ok(WithoutProperties(cm, toRemove.value));
  }

  /** check: the walk from the record itself as root. It fails exactly when the walk
      fails at some depth; otherwise every link holds a pruned copy of what it held. */
  method Check(store: LinkStore, cm: ClassMetadata, patterns: seq<seq<string>>) returns (r: Result<ClassMetadata>)
    requires store.Valid() && cm.Valid()
    modifies store
    ensures store.Valid()
    ensures r.Ok? ==> LinksPruned(store.links, old(store.links))
    ensures r.Ok? ==> r.value == Checked(cm, RecursionContext(cm.className, []), patterns)
    ensures r.Err? ==> r.error.Recursion? || r.error.MissingClassMetadata?
    ensures var w := RecordWalk(old(store.links), cm, RecursionContext(cm.className, []), patterns,
                                Reachable(old(store.links).Keys, cm.className));
      (r.Err? <==> w.Err?) && (r.Err? ==> r.error == w.error) && (r.Ok? ==> store.links == w.value)
    ensures r.Ok? ==> forall i :: 0 <= i < |cm.properties| ==>
              !Escalates(cm, RecursionContext(cm.className, []), patterns, old(store.links.Keys), i)
  {
    var c := RecursionContext(cm.className, []);
    ghost var u := Reachable(store.links.Keys, cm.className);
    r := CheckClassMetadata(store, cm, c, patterns, u);
  }
}
