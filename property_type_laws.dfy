/** Laws of the merge operation and the leaf descent of nested array types
    (PropertyTypeArray::getLeafType, PropertyTypeIterable::getLeafType). */
module PropertyTypeLaws {
  import opened Wrappers
  import opened PropertyTypes

  /** Any constructible type absorbs Unknown on the right: only its nullability changes,
      to the AND of both flags. */
  lemma {:induction false} MergeUnknownRight(env: Environment, t: PropertyType, n: bool)
    requires ValidType(env, t)
    ensures Merge(env, t, Unknown(n)) == Ok(t.(nullable := t.nullable && n))
  {
  }

  /** Merging a constructible type with itself gives it back unchanged. */
  lemma {:induction false} MergeIdempotent(env: Environment, t: PropertyType)
    requires ValidType(env, t)
    ensures Merge(env, t, t) == Ok(t)
  {
    match t
    case Array(sub, _, _) =>
      if !sub.Unknown? { MergeIdempotent(env, sub); }
    case Iterable(sub, _, _, _) =>
      if !sub.Unknown? { MergeIdempotent(env, sub); }
    case _ =>
  }

  /** Unknown on the left accepts nothing but Unknown, although every known type accepts
      Unknown on the right: merge is not symmetric. */
  lemma {:induction false} MergeAsymmetric(env: Environment, t: PropertyType, n: bool)
    requires ValidType(env, t) && !t.Unknown?
    ensures Merge(env, Unknown(n), t).Err?
    ensures Merge(env, t, Unknown(n)).Ok?
  {
  }

  /** Two known types of different variants conflict in both orders, apart from the
      absorptions a date-time or an iterable makes of a class type. */
  lemma {:induction false} MergeConflictBothOrders(env: Environment, t: PropertyType, o: PropertyType)
    requires ValidType(env, t) && ValidType(env, o)
    requires !t.Unknown? && !o.Unknown? && !SameVariant(t, o)
    requires !(t.Class? && (o.DateTime? || o.Iterable?)) && !(o.Class? && (t.DateTime? || t.Iterable?))
    ensures Merge(env, t, o).Err? && Merge(env, t, o).error.TypeConflict?
    ensures Merge(env, o, t).Err? && Merge(env, o, t).error.TypeConflict?
  {
  }

  /** The absorptions go one way: a class type refuses a date-time or an iterable. */
  lemma {:induction false} ClassRefusesAbsorbers(env: Environment, c: PropertyType, o: PropertyType)
    requires c.Class? && ValidType(env, c) && (o.DateTime? || o.Iterable?)
    ensures Merge(env, c, o).Err?
  {
  }

  /** A list merged with a hashmap of the same element type becomes that hashmap;
      the reverse direction is refused. */
  lemma {:induction false} ListToHashmapWidens(env: Environment, sub: PropertyType, n: bool, m: bool)
    requires ValidType(env, sub)
    ensures Merge(env, Array(sub, false, n), Array(sub, true, m)) == Ok(Array(sub, true, n && m))
    ensures Merge(env, Array(sub, true, n), Array(sub, false, m)).Err?
  {
    if !sub.Unknown? { MergeIdempotent(env, sub); }
  }

  /** An Unknown element type on either side is replaced by the other side's element type. */
  lemma {:induction false} MergeArrayUnknownElement(env: Environment, known: PropertyType, h1: bool, h2: bool, n: bool, m: bool, u: bool)
    requires !known.Unknown? && !(h1 && !h2)
    ensures Merge(env, Array(Unknown(u), h1, n), Array(known, h2, m)) == Ok(Array(known, h1 || h2, n && m))
    ensures Merge(env, Array(known, h1, n), Array(Unknown(u), h2, m)) == Ok(Array(known, h1 || h2, n && m))
  {
  }

  /** An iterable whose element type is unknown takes the other side's element type, on
      either side; the merge then fails only when the traversable classes have no common one. */
  lemma {:induction false} MergeIterableUnknownElement(env: Environment, known: PropertyType, h1: bool, h2: bool,
                                                       n: bool, m: bool, u: bool, tc1: Option<string>, tc2: Option<string>)
    requires !known.Unknown? && !(h1 && !h2)
    ensures var l, k := Iterable(Unknown(u), h1, n, tc1), Iterable(known, h2, m, tc2);
      var c := FindCommonTraversableClass(env, TraversableClassOf(l), TraversableClassOf(k));
      var r := Merge(env, l, k);
      (r.Ok? <==> c.Ok?) && (r.Ok? ==> r.value == Iterable(known, h1 || h2, n && m, c.value))
    ensures var l, k := Iterable(known, h1, n, tc1), Iterable(Unknown(u), h2, m, tc2);
      var c := FindCommonTraversableClass(env, TraversableClassOf(l), TraversableClassOf(k));
      var r := Merge(env, l, k);
      (r.Ok? <==> c.Ok?) && (r.Ok? ==> r.value == Iterable(known, h1 || h2, n && m, c.value))
  {
  }

  /** The type reached by peeling every array level (the spec of getLeafType). */
  function ArrayLeaf(t: PropertyType): PropertyType {
    if t.Array? then ArrayLeaf(t.subType) else t
  }

  function IterableLeaf(t: PropertyType): PropertyType {
    if t.Iterable? then IterableLeaf(t.subType) else t
  }

  /** The class a type refers to once its array levels are peeled, if it refers to one:
      what the walks over the metadata graph follow. */
  function LeafClass(t: PropertyType): (r: Option<string>)
    ensures r.Some? <==> ArrayLeaf(t).Class?
    ensures r.Some? ==> r.value == ArrayLeaf(t).className
  {
    var leaf := ArrayLeaf(t);
    if leaf.Class? then Some(leaf.className) else None
  }

  /** A merge leads to no class but one of its operands leads to. */
  lemma {:induction false} MergeLeafClass(env: Environment, t: PropertyType, o: PropertyType)
    requires Merge(env, t, o).Ok?
    ensures LeafClass(Merge(env, t, o).value).Some? ==>
      LeafClass(Merge(env, t, o).value) == LeafClass(t) || LeafClass(Merge(env, t, o).value) == LeafClass(o)
  {
    if t.Array? && o.Array? && !t.subType.Unknown? && !o.subType.Unknown? {
      MergeLeafClass(env, t.subType, o.subType);
    }
  }

  /** PropertyTypeArray::getLeafType: descends while the subtype is an array. */
  method ArrayLeafType(t: PropertyType) returns (leaf: PropertyType)
    requires t.Array?
    ensures !leaf.Array?
    ensures leaf == ArrayLeaf(t)
  {
    leaf := t.subType;
    while leaf.Array?
      invariant ArrayLeaf(leaf) == ArrayLeaf(t)
      decreases leaf
    {
      leaf := leaf.subType;
    }
  }

  /** PropertyTypeIterable::getLeafType: descends while the subtype is an iterable. */
  method IterableLeafType(t: PropertyType) returns (leaf: PropertyType)
    requires t.Iterable?
    ensures !leaf.Iterable?
    ensures leaf == IterableLeaf(t)
  {
    leaf := t.subType;
    while leaf.Iterable?
      invariant IterableLeaf(leaf) == IterableLeaf(t)
      decreases leaf
    {
      leaf := leaf.subType;
    }
  }

  /** Wrapping a type in any number of array levels does not change its leaf, and the
      leaf of a constructible type is constructible. */
  lemma {:induction false} ArrayLeafValid(env: Environment, t: PropertyType)
    requires ValidType(env, t)
    ensures ValidType(env, ArrayLeaf(t)) && !ArrayLeaf(t).Array?
  {
    if t.Array? { ArrayLeafValid(env, t.subType); }
  }

  /** Only arrays are unwrapped: the array leaf of an iterable is the iterable itself. */
  lemma {:induction false} ArrayLeafOfIterable(t: PropertyType)
    requires t.Iterable?
    ensures ArrayLeaf(t) == t
  {
  }
}
