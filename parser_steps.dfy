/** The calls a model parser makes on the raw record of a class (ModelParserInterface::parse),
    and what they do to that record seen as a value: the serialized names of its
    collections, the states of their variations, its post-deserialize hooks and its
    constructor parameters. A run of the configured parsers is the sequence of these
    calls, parser after parser, on one record that starts empty. */
module ParserSteps {
  import opened Wrappers
  import opened Errors
  import opened Sequences
  import opened Accessors
  import opened VersionRanges
  import opened PropertyTypes
  import opened Parameters
  import opened Variations
  import opened Collections
  import Json

  /** What a model parser does to a variation it has looked up by PHP name. */
  datatype Change =
    | SetType(propertyType: PropertyType)
    | SetPublic(public: bool)
    | SetReadOnly(readOnly: bool)
    | SetPreferred(preferred: bool)
    | SetGroups(groups: seq<string>)
    | SetAccessor(accessor: PropertyAccessor)
    | SetVersionRange(versionRange: VersionRange)
    | SetCustomInformation(key: string, value: Json.Json)

  /** The state of a variation after a change. */
  function Changed(x: Variation, c: Change): (y: Variation)
    ensures y.name == x.name
  {
    match c
    case SetType(t) => x.(propertyType := t)
    case SetPublic(b) => x.(public := b)
    case SetReadOnly(b) => x.(readOnly := b)
    case SetPreferred(b) => x.(preferred := b)
    case SetGroups(g) => x.(groups := g)
    case SetAccessor(a) => x.(accessor := a)
    case SetVersionRange(r) => x.(versionRange := r)
    case SetCustomInformation(k, v) => x.(customInformation := x.customInformation[k := v])
  }

  /** One call a model parser makes on the raw record it is given. */
  datatype Step =
    | AddVariation(serializedName: string, variation: Variation)
    | RenameProperty(propertyName: string, serializedName: string)
    | RemoveVariation(name: string)
    | AddPostDeserializeMethod(hook: string)
    | AddConstructorParameter(parameter: ParameterMetadata)
    /** getPropertyVariation, then one setter on the variation found. */
    | Update(variationName: string, change: Change)
    /** getPropertyVariation, then setType with the variation's type merged with a new one
        under the class table `env`; a conflict is ParseException::propertyTypeConflict. */
    | MergeType(variationName: string, env: Environment, propertyType: PropertyType)
    /** sortProperties with a comparator ordering collections by the keys of their names. */
    | SortProperties(key: string -> int)
    /** A ParseException the parser throws of its own. */
    | Raise(message: string)

  /** A model parser: for each class it knows, the calls it makes on that class's record.
      A class it does not know is not found. */
  type ModelParser = map<string, seq<Step>>

  /** The failures a parse can end with: a class no parser knows, a failing lookup or
      rename on the record, or a ParseException of a parser (a type conflict among them). */
  predicate ParseFailure(e: Error) {
    e.ClassNotFound? || e.NotFound? || e.SameProperty? || e.ParseError?
  }

  /** A raw record as a value: the serialized names of its collections, the states of the
      variations of each collection, its post-deserialize hooks and its constructor
      parameters, all in order. */
  datatype Shape = Shape(names: seq<string>, lists: seq<seq<Variation>>, hooks: seq<string>,
                         parameters: seq<ParameterMetadata>)

  /** A new RawClassMetadata: no collections, no hooks, no parameters. */
  const EmptyShape := Shape([], [], [], [])

  /** One list of variations per collection name. */
  predicate Aligned(b: Shape) {
    |b.names| == |b.lists|
  }

  /** What RawClassMetadata keeps true of its collections: names normalised and distinct,
      and, because a collection is only created with a variation and dropped once emptied,
      no collection without variations. */
  ghost predicate WellFormed(b: Shape) {
    && Aligned(b)
    && Distinct(b.names)
    && (forall k :: 0 <= k < |b.names| ==> IsNormalised(b.names[k]))
    && (forall k :: 0 <= k < |b.lists| ==> |b.lists[k]| > 0)
  }

  /** The position of the first variation of that PHP name. */
  function FirstWith(vs: seq<Variation>, name: string): (r: Option<nat>)
    ensures r.None? <==> forall i :: 0 <= i < |vs| ==> vs[i].name != name
    ensures r.Some? ==> r.value < |vs| && vs[r.value].name == name
    ensures r.Some? ==> forall k :: 0 <= k < r.value ==> vs[k].name != name
  {
    if |vs| == 0 then None
    else if vs[0].name == name then Some(0)
    else match FirstWith(vs[1..], name)
      case None => None
      case Some(k) => Some(k + 1)
  }

  lemma {:induction false} FirstWithIsFirst(vs: seq<Variation>, name: string, i: nat)
    requires i < |vs| && vs[i].name == name
    requires forall k :: 0 <= k < i ==> vs[k].name != name
    ensures FirstWith(vs, name) == Some(i)
  {
  }

  /** The index of the first list holding a variation of that PHP name. */
  function HolderOf(ls: seq<seq<Variation>>, name: string): (r: Option<nat>)
    ensures r.None? <==> forall i :: 0 <= i < |ls| ==> FirstWith(ls[i], name).None?
    ensures r.Some? ==> r.value < |ls| && FirstWith(ls[r.value], name).Some?
    ensures r.Some? ==> forall k :: 0 <= k < r.value ==> FirstWith(ls[k], name).None?
  {
    if |ls| == 0 then None
    else if FirstWith(ls[0], name).Some? then Some(0)
    else match HolderOf(ls[1..], name)
      case None => None
      case Some(k) => Some(k + 1)
  }

  lemma {:induction false} HolderOfIsFirst(ls: seq<seq<Variation>>, name: string, i: nat)
    requires i < |ls| && FirstWith(ls[i], name).Some?
    requires forall k :: 0 <= k < i ==> FirstWith(ls[k], name).None?
    ensures HolderOf(ls, name) == Some(i)
  {
  }

  /** The list without its first variation of that PHP name (all of it when none is). */
  function Without(vs: seq<Variation>, name: string): seq<Variation> {
    match FirstWith(vs, name)
    case None => vs
    case Some(i) => vs[..i] + vs[i + 1..]
  }

  /** The record with variation j of collection k replaced, if there is one. */
  function SetVariation(b: Shape, k: nat, j: nat, y: Variation): Shape {
    if k < |b.lists| && j < |b.lists[k]| then b.(lists := b.lists[k := b.lists[k][j := y]]) else b
  }

  /** addPropertyVariation: the variation goes to the end of the collection its name
      normalises to, or into a new collection at the end. */
  function ShapeAdd(b: Shape, name: string, x: Variation): (c: Shape)
    requires Aligned(b)
    ensures Aligned(c) && c.hooks == b.hooks && c.parameters == b.parameters
  {
    match IndexIn(b.names, SerializedName(name))
    case Some(k) => b.(lists := b.lists[k := b.lists[k] + [x]])
    case None => b.(names := b.names + [SerializedName(name)], lists := b.lists + [[x]])
  }

  /** renameProperty: not found when the old name has no collection, refused when both
      names normalise alike; otherwise the collection takes the new name and, when that
      name was taken, the variations of the collection holding it, which is dropped. */
  function ShapeRename(b: Shape, from: string, to: string): (r: Result<Shape>)
    requires Aligned(b)
    ensures r.Ok? ==> Aligned(r.value) && r.value.hooks == b.hooks && r.value.parameters == b.parameters
    ensures r.Err? ==> r.error == NotFound(from) || r.error == SameProperty(from)
  {
    match IndexIn(b.names, SerializedName(from))
    case None => Err(NotFound(from))
    case Some(i) =>
      if SerializedName(to) == SerializedName(from) then Err(SameProperty(from))
      else match IndexIn(b.names, SerializedName(to))
        case None => Ok(b.(names := b.names[i := SerializedName(to)]))
        case Some(j) =>
          Ok(b.(names := RemoveAt(b.names[i := SerializedName(to)], j),
                lists := RemoveAt(b.lists[i := b.lists[i] + b.lists[j]], j)))
  }

  /** removePropertyVariation: the first variation of that PHP name leaves the first
      collection holding one, and the collection goes when it is left empty. */
  function ShapeRemove(b: Shape, name: string): (c: Shape)
    requires Aligned(b)
    ensures Aligned(c) && c.hooks == b.hooks && c.parameters == b.parameters
  {
    match HolderOf(b.lists, name)
    case None => b
    case Some(k) =>
      var rest := Without(b.lists[k], name);
      if rest == [] then b.(names := RemoveAt(b.names, k), lists := RemoveAt(b.lists, k))
      else b.(lists := b.lists[k := rest])
  }

  /** getPropertyVariation and one setter: not found, or the first variation of that PHP
      name changed. */
  function ShapeUpdate(b: Shape, name: string, c: Change): (r: Result<Shape>)
    ensures r.Err? <==> HolderOf(b.lists, name).None?
    ensures r.Err? ==> r.error == NotFound(name)
    ensures r.Ok? ==> r.value.names == b.names && r.value.hooks == b.hooks && r.value.parameters == b.parameters
    ensures r.Ok? ==> |r.value.lists| == |b.lists|
  {
    match HolderOf(b.lists, name)
    case None => Err(NotFound(name))
    case Some(k) =>
      var j := FirstWith(b.lists[k], name).value;
      Ok(SetVariation(b, k, j, Changed(b.lists[k][j], c)))
  }

  /** getPropertyVariation and a merged setType: not found; on a conflict a
      ParseException for the class and property; otherwise the variation's type merged. */
  function ShapeMerge(b: Shape, name: string, env: Environment, t: PropertyType, className: string): (r: Result<Shape>)
    ensures r.Err? ==> r.error == NotFound(name) || r.error == ParseError(className, name)
    ensures r.Ok? ==> r.value.names == b.names && r.value.hooks == b.hooks && r.value.parameters == b.parameters
    ensures r.Ok? ==> |r.value.lists| == |b.lists|
  {
    match HolderOf(b.lists, name)
    case None => Err(NotFound(name))
    case Some(k) =>
      var j := FirstWith(b.lists[k], name).value;
      var x := b.lists[k][j];
      match Merge(env, x.propertyType, t)
      case Err(_) => Err(ParseError(className, name))
      case Ok(m) => Ok(SetVariation(b, k, j, x.(propertyType := m)))
  }

  /** The hook a step appends, if it appends one. */
  function HookOf(s: Step): seq<string> {
    if s.AddPostDeserializeMethod? then [s.hook] else []
  }

  /** The constructor parameter a step appends, if it appends one. */
  function ParameterOf(s: Step): seq<ParameterMetadata> {
    if s.AddConstructorParameter? then [s.parameter] else []
  }

  /** Every step but sorting, on the record of `className`. */
  function Apply(b: Shape, s: Step, className: string): (r: Result<Shape>)
    requires Aligned(b) && !s.SortProperties?
    ensures r.Ok? ==> Aligned(r.value)
    ensures r.Ok? ==> r.value.hooks == b.hooks + HookOf(s) && r.value.parameters == b.parameters + ParameterOf(s)
    ensures r.Err? ==> ParseFailure(r.error)
  {
    match s
    case AddVariation(name, x) => Ok(ShapeAdd(b, name, x))
    case RenameProperty(from, to) => ShapeRename(b, from, to)
    case RemoveVariation(name) => Ok(ShapeRemove(b, name))
    case AddPostDeserializeMethod(h) => Ok(b.(hooks := b.hooks + [h]))
    case AddConstructorParameter(p) => Ok(b.(parameters := b.parameters + [p]))
    case Update(name, c) => ShapeUpdate(b, name, c)
    case MergeType(name, env, t) => ShapeMerge(b, name, env, t, className)
    case Raise(message) => Err(ParseError(className, message))
  }

  /** The collections as (name, variations) pairs. */
  function Pairs(b: Shape): (r: seq<(string, seq<Variation>)>)
    requires Aligned(b)
    ensures |r| == |b.names| && forall k :: 0 <= k < |r| ==> r[k] == (b.names[k], b.lists[k])
  {
    seq(|b.names|, k requires 0 <= k < |b.names| => (b.names[k], b.lists[k]))
  }

  /** sortProperties (usort, which promises no order among equal keys): the same
      collections, hooks and parameters, with the collections in key order. */
  ghost predicate SortedFrom(b: Shape, key: string -> int, c: Shape) {
    && Aligned(b) && Aligned(c)
    && c.hooks == b.hooks && c.parameters == b.parameters
    && multiset(Pairs(c)) == multiset(Pairs(b))
    && (forall a, d :: 0 <= a < d < |c.names| ==> key(c.names[a]) <= key(c.names[d]))
  }

  /** `r` is a possible outcome of step `s` on the record `b` of `className`: the record
      after it, or its failure. Sorting is the one step whose result is a choice. */
  ghost predicate Applies(b: Shape, s: Step, className: string, r: Result<Shape>) {
    Aligned(b) && (if s.SortProperties? then r.Ok? && SortedFrom(b, s.key, r.value) else r == Apply(b, s, className))
  }

  /** The record a run from `a` holds before its call j, when `t` are the outcomes of its
      calls: the record the previous call left, `a` before the first call. */
  function Before(a: Shape, t: seq<Result<Shape>>, j: nat): Shape {
    if j == 0 || j > |t| || t[j - 1].Err? then a else t[j - 1].value
  }

  /** `t` are the outcomes of a run of `steps` from `a` that ends with `r`: each call's
      outcome is a possible outcome of its step on the record the previous call left, and
      the run stops at the first failure or after the last step. */
  ghost predicate Trace(a: Shape, steps: seq<Step>, className: string, t: seq<Result<Shape>>, r: Result<Shape>) {
    && |t| <= |steps|
    && (forall j {:trigger Applies(Before(a, t, j), steps[j], className, t[j])} ::
          0 <= j < |t| ==> Applies(Before(a, t, j), steps[j], className, t[j]))
    && (forall j :: 0 <= j < |t| - 1 ==> t[j].Ok?)
    && (if r.Ok? then |t| == |steps| && (if |t| == 0 then r.value == a else t[|t| - 1] == r)
        else |t| > 0 && t[|t| - 1] == r)
  }

  /** `r` is a possible outcome of running `steps` in order on a record that starts as
      `a`: the first failing step ends the run with its failure. */
  ghost predicate Runs(a: Shape, steps: seq<Step>, className: string, r: Result<Shape>) {
    exists t :: Trace(a, steps, className, t, r)
  }

  /** One model parser on the record: the calls it makes for the class, or class not found
      when it does not know the class. */
  ghost predicate ParserRun(a: Shape, parser: ModelParser, className: string, r: Result<Shape>) {
    if className in parser then Runs(a, parser[className], className, r) else r == Err(ClassNotFound(className))
  }

  /** `t` are the outcomes of a run of `parsers` on the record from `a` that ends with `r`,
      as `Trace` is for the calls of one parser. */
  ghost predicate ParsersTrace(a: Shape, parsers: seq<ModelParser>, className: string, t: seq<Result<Shape>>,
                               r: Result<Shape>) {
    && |t| <= |parsers|
    && (forall k {:trigger ParserRun(Before(a, t, k), parsers[k], className, t[k])} ::
          0 <= k < |t| ==> ParserRun(Before(a, t, k), parsers[k], className, t[k]))
    && (forall k :: 0 <= k < |t| - 1 ==> t[k].Ok?)
    && (if r.Ok? then |t| == |parsers| && (if |t| == 0 then r.value == a else t[|t| - 1] == r)
        else |t| > 0 && t[|t| - 1] == r)
  }

  /** The configured parsers in order on one record: the first failing parser ends the run. */
  ghost predicate RunsAll(a: Shape, parsers: seq<ModelParser>, className: string, r: Result<Shape>) {
    exists t :: ParsersTrace(a, parsers, className, t, r)
  }

  /** A possible outcome of filling a new record for the class with every parser. */
  ghost predicate Produced(parsers: seq<ModelParser>, className: string, r: Result<Shape>) {
    RunsAll(EmptyShape, parsers, className, r)
  }

  /** `e` is the error a run of the parsers on a new record for one of `names` ends with. */
  ghost predicate FailsWith(parsers: seq<ModelParser>, names: set<string>, e: Error) {
    exists c :: c in names && Produced(parsers, c, Err(e))
  }

  /** No call made yet: the record is as it was. */
  lemma {:induction false} RunsNone(a: Shape, steps: seq<Step>, className: string)
    requires |steps| == 0
    ensures Runs(a, steps, className, Ok(a))
  {
    assert Trace(a, steps, className, [], Ok(a));
  }

  /** No parser run yet: the record is as it was. */
  lemma {:induction false} RunsAllNone(a: Shape, parsers: seq<ModelParser>, className: string)
    ensures RunsAll(a, parsers[..0], className, Ok(a))
  {
    assert ParsersTrace(a, parsers[..0], className, [], Ok(a));
  }

  /** A run that has ended with a failure on a prefix of the steps ends with it. */
  lemma {:induction false} RunsFailed(a: Shape, steps: seq<Step>, n: nat, className: string, e: Error)
    requires n <= |steps| && Runs(a, steps[..n], className, Err(e))
    ensures Runs(a, steps, className, Err(e))
  {
    var t: seq<Result<Shape>> :| Trace(a, steps[..n], className, t, Err(e));
    forall j | 0 <= j < |t| ensures Applies(Before(a, t, j), steps[j], className, t[j]) {
      assert steps[..n][j] == steps[j];
      assert Applies(Before(a, t, j), steps[..n][j], className, t[j]);
    }
    assert Trace(a, steps, className, t, Err(e));
  }

  /** Outcomes added at the end of a run leave the records before its earlier calls alone. */
  lemma {:induction false} BeforeSnoc(a: Shape, t: seq<Result<Shape>>, r: Result<Shape>, j: nat)
    requires j <= |t|
    ensures Before(a, t + [r], j) == Before(a, t, j)
  {
    if 0 < j {
      assert (t + [r])[j - 1] == t[j - 1];
    }
  }

  /** One more step on a run that reached `b`. */
  lemma {:induction false} RunsSnoc(a: Shape, steps: seq<Step>, j: nat, className: string, b: Shape, r: Result<Shape>)
    requires j < |steps| && Runs(a, steps[..j], className, Ok(b)) && Applies(b, steps[j], className, r)
    ensures Runs(a, steps[..j + 1], className, r)
  {
    var t: seq<Result<Shape>> :| Trace(a, steps[..j], className, t, Ok(b));
    var u := t + [r];
    assert Before(a, t, |t|) == b;
    forall k | 0 <= k < |u| - 1 ensures u[k].Ok? {
      assert u[k] == t[k];
    }
    forall k | 0 <= k < |u| ensures Applies(Before(a, u, k), steps[..j + 1][k], className, u[k]) {
      BeforeSnoc(a, t, r, k);
      if k < |t| {
        assert steps[..j][k] == steps[..j + 1][k];
        assert Applies(Before(a, t, k), steps[..j][k], className, t[k]);
      }
    }
    assert Trace(a, steps[..j + 1], className, u, r);
  }

  /** A run of parsers that has failed on a prefix of them ends with that failure. */
  lemma {:induction false} RunsAllFailed(a: Shape, parsers: seq<ModelParser>, n: nat, className: string, e: Error)
    requires n <= |parsers| && RunsAll(a, parsers[..n], className, Err(e))
    ensures RunsAll(a, parsers, className, Err(e))
  {
    var t: seq<Result<Shape>> :| ParsersTrace(a, parsers[..n], className, t, Err(e));
    forall k | 0 <= k < |t| ensures ParserRun(Before(a, t, k), parsers[k], className, t[k]) {
      assert parsers[..n][k] == parsers[k];
      assert ParserRun(Before(a, t, k), parsers[..n][k], className, t[k]);
    }
    assert ParsersTrace(a, parsers, className, t, Err(e));
  }

  /** One more parser on a run of parsers that reached `b`. */
  lemma {:induction false} RunsAllSnoc(a: Shape, parsers: seq<ModelParser>, k: nat, className: string, b: Shape,
                                       r: Result<Shape>)
    requires k < |parsers| && RunsAll(a, parsers[..k], className, Ok(b)) && ParserRun(b, parsers[k], className, r)
    ensures RunsAll(a, parsers[..k + 1], className, r)
  {
    var t: seq<Result<Shape>> :| ParsersTrace(a, parsers[..k], className, t, Ok(b));
    var u := t + [r];
    assert Before(a, t, |t|) == b;
    forall q | 0 <= q < |u| - 1 ensures u[q].Ok? {
      assert u[q] == t[q];
    }
    forall q | 0 <= q < |u| ensures ParserRun(Before(a, u, q), parsers[..k + 1][q], className, u[q]) {
      BeforeSnoc(a, t, r, q);
      if q < |t| {
        assert parsers[..k][q] == parsers[..k + 1][q];
        assert ParserRun(Before(a, t, q), parsers[..k][q], className, t[q]);
      }
    }
    assert ParsersTrace(a, parsers[..k + 1], className, u, r);
  }

  /** A run of parsers that ends well went through parsers that all know the class. */
  lemma {:induction false} RunsAllKnown(a: Shape, parsers: seq<ModelParser>, className: string, b: Shape)
    requires RunsAll(a, parsers, className, Ok(b))
    ensures forall k :: 0 <= k < |parsers| ==> className in parsers[k]
  {
    var t: seq<Result<Shape>> :| ParsersTrace(a, parsers, className, t, Ok(b));
    forall k | 0 <= k < |parsers| ensures className in parsers[k] {
      assert ParserRun(Before(a, t, k), parsers[k], className, t[k]);
      assert t[k].Ok?;
    }
  }
}
