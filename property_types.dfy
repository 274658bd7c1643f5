/** The property-type lattice (src/Metadata/PropertyType*.php, AbstractPropertyType.php,
    DateTimeOptions.php): six variants, each with its rendering and a partial, asymmetric merge. */
module PropertyTypes {
  import opened Wrappers
  import opened Errors
  import Json

  const DATE_TIME := "DateTime"
  const DATE_TIME_IMMUTABLE := "DateTimeImmutable"
  const DATE_TIME_INTERFACE := "DateTimeInterface"
  const TRAVERSABLE := "Traversable"

  /** The PHP class table as seen by the type code: which classes and interfaces are
      declared (class_exists / interface_exists) and the strict subtype relation behind is_a. */
  datatype Environment = Environment(declared: set<string>, subclassOf: (string, string) -> bool)
  {
    /** No PHP class has an empty name, so class_exists('') is false whatever is declared. */
    predicate ClassExists(name: string) {
      name != "" && name in declared
    }

    /** is_a($sub, $sup, true): the class itself, a subclass, or an implementer. */
    predicate IsA(sub: string, sup: string) {
      sub == sup || subclassOf(sub, sup)
    }
  }

  /** Options of a JMS DateTime / DateTimeImmutable annotation. */
  datatype DateTimeOptions = DateTimeOptions(format: Option<string>, zone: Option<string>, deserializeFormat: Option<string>)
  {
    /** array_filter over format, zone and deserialize_format. */
    function ToJson(): Json.Json {
      Json.JObject(Json.ArrayFilter([
        ("format", Json.OptString(format)),
        ("zone", Json.OptString(zone)),
        ("deserialize_format", Json.OptString(deserializeFormat))]))
    }
  }

  datatype PropertyType =
    | Unknown(nullable: bool)
    | Primitive(typeName: string, nullable: bool)
    | Class(className: string, nullable: bool)
    | DateTime(immutable: bool, nullable: bool, options: Option<DateTimeOptions>)
    | Array(subType: PropertyType, hashmap: bool, nullable: bool)
    | Iterable(subType: PropertyType, hashmap: bool, nullable: bool, traversableClass: Option<string>)

  /** AbstractPropertyType::__toString */
  function NullSuffix(nullable: bool): string {
    if nullable then "|null" else ""
  }

  /** PropertyTypePrimitive::TYPE_MAP applied to a name (other names pass through). */
  function CanonicalPrimitive(name: string): string {
    if name == "boolean" then "bool"
    else if name == "integer" then "int"
    else if name == "double" || name == "real" then "float"
    else name
  }

  /** PropertyTypePrimitive::PRIMITIVE_TYPES */
  predicate IsPrimitiveName(name: string) {
    name == "string" || name == "int" || name == "float" || name == "bool"
  }

  predicate IsTypePrimitive(name: string) {
    IsPrimitiveName(CanonicalPrimitive(name))
  }

  predicate IsTypeDateTime(name: string) {
    name == DATE_TIME || name == DATE_TIME_IMMUTABLE
  }

  predicate IsTypeCustomClass(name: string) {
    !IsTypePrimitive(name) && !IsTypeDateTime(name)
  }

  /** The names accepted as primitive are exactly the four canonical names and their four aliases. */
  lemma {:induction false} IsTypePrimitiveNames(name: string)
    ensures IsTypePrimitive(name) <==>
      name in ["string", "int", "float", "bool", "boolean", "integer", "double", "real"]
  {
  }

  /** new PropertyTypePrimitive($typeName, $nullable) */
  function NewPrimitive(name: string, nullable: bool): (r: Result<PropertyType>)
    ensures r.Ok? <==> IsTypePrimitive(name)
    ensures r.Ok? ==> r.value.Primitive? && IsPrimitiveName(r.value.typeName) && r.value.nullable == nullable
    ensures r.Ok? && IsPrimitiveName(name) ==> r.value.typeName == name
  {
    var canonical := CanonicalPrimitive(name);
    if IsPrimitiveName(canonical) then Ok(Primitive(canonical, nullable)) else Err(InvalidType(canonical))
  }

  /** new PropertyTypeClass($className, $nullable): rejects primitive and date-time names first,
      then names the environment does not declare. */
  function NewClass(env: Environment, name: string, nullable: bool): (r: Result<PropertyType>)
    ensures r.Ok? <==> IsTypeCustomClass(name) && env.ClassExists(name)
    ensures r.Ok? ==> r.value == Class(name, nullable)
    ensures !IsTypeCustomClass(name) ==> r == Err(InvalidType(name))
    ensures IsTypeCustomClass(name) && !env.ClassExists(name) ==> r == Err(ClassNotFound(name))
  {
    if !IsTypeCustomClass(name) then Err(InvalidType(name))
    else if !env.ClassExists(name) then Err(ClassNotFound(name))
    else Ok(Class(name, nullable))
  }

  /** PropertyTypeDateTime::fromDateTimeClass */
  function FromDateTimeClass(name: string, nullable: bool, options: Option<DateTimeOptions>): (r: Result<PropertyType>)
    ensures r.Ok? <==> IsTypeDateTime(name)
    ensures r.Ok? ==> r.value.DateTime? && r.value.nullable == nullable && r.value.options == options
    ensures r.Ok? ==> (r.value.immutable <==> name == DATE_TIME_IMMUTABLE)
  {
    if !IsTypeDateTime(name) then Err(InvalidType(name))
    else Ok(DateTime(name == DATE_TIME_IMMUTABLE, nullable, options))
  }

  /** A type as the constructors can build it: canonical primitive names, class names
      that are custom and declared, and no empty traversable class. */
  predicate ValidType(env: Environment, t: PropertyType) {
    match t
    case Unknown(_) => true
    case Primitive(name, _) => IsPrimitiveName(name)
    case Class(name, _) => IsTypeCustomClass(name) && env.ClassExists(name)
    case DateTime(_, _, _) => true
    case Array(sub, _, _) => ValidType(env, sub)
    case Iterable(sub, _, _, tc) => ValidType(env, sub) && tc != Some("")
  }

  /** PropertyTypeIterable::isTraversable: `null != $traversableClass`, which is also false for "". */
  predicate IsTraversable(t: PropertyType)
    requires t.Iterable?
  {
    t.traversableClass.Some? && t.traversableClass.value != ""
  }

  /** `$this->isTraversable() ? $this->getTraversableClass() : null` */
  function TraversableClassOf(t: PropertyType): (r: Option<string>)
    requires t.Iterable?
    ensures r.Some? <==> IsTraversable(t)
    ensures r.Some? ==> r == t.traversableClass
  {
    if IsTraversable(t) then t.traversableClass else None
  }

  /** PropertyTypeIterable::getTraversableClass */
  function GetTraversableClass(t: PropertyType): (r: Result<string>)
    requires t.Iterable?
    ensures r.Ok? <==> IsTraversable(t)
    ensures r.Ok? ==> Some(r.value) == t.traversableClass && r.value != ""
  {
    if IsTraversable(t) then Ok(t.traversableClass.value) else Err(NotTraversable(Render(t)))
  }

  /** PropertyTypeDateTime::getFormat / getZone / getDeserializeFormat: null without options. */
  function GetFormat(t: PropertyType): (r: Option<string>)
    requires t.DateTime?
    ensures t.options.None? ==> r.None?
    ensures t.options.Some? ==> r == t.options.value.format
  {
    if t.options.Some? then t.options.value.format else None
  }

  function GetZone(t: PropertyType): (r: Option<string>)
    requires t.DateTime?
    ensures t.options.None? ==> r.None?
    ensures t.options.Some? ==> r == t.options.value.zone
  {
    if t.options.Some? then t.options.value.zone else None
  }

  function GetDeserializeFormat(t: PropertyType): (r: Option<string>)
    requires t.DateTime?
    ensures t.options.None? ==> r.None?
    ensures t.options.Some? ==> r == t.options.value.deserializeFormat
  {
    if t.options.Some? then t.options.value.deserializeFormat else None
  }

  /** __toString of every variant. */
  function Render(t: PropertyType): string {
    match t
    case Unknown(_) => "mixed"
    case Primitive(name, n) => name + NullSuffix(n)
    case Class(name, n) => name + NullSuffix(n)
    case DateTime(imm, n, _) => (if imm then DATE_TIME_IMMUTABLE else DATE_TIME) + NullSuffix(n)
    case Array(sub, hm, n) =>
      if sub.Unknown? then "array"
      else Render(sub) + (if hm then "[string]" else "[]") + NullSuffix(n)
    case Iterable(sub, hm, n, tc) =>
      if sub.Unknown? then
        "array" + (if IsTraversable(t) then "|\\" + tc.value else "")
      else
        var brackets := if hm then "[string]" else "[]";
        var collection := if IsTraversable(t)
          then "|\\" + tc.value + "<" + Render(sub) + (if hm then ", string" else "") + ">"
          else "";
        Render(sub) + brackets + collection + NullSuffix(n)
  }

  /** PropertyTypeIterable::findCommonTraversableClass: the present class when the other is
      absent, otherwise the more derived of the two, otherwise a mismatch. */
  function FindCommonTraversableClass(env: Environment, left: Option<string>, right: Option<string>): (r: Result<Option<string>>)
    ensures right.None? ==> r == Ok(left)
    ensures left.None? ==> r == Ok(right)
    ensures r.Ok? ==> r.value == left || r.value == right
    ensures left.Some? && right.Some? ==>
      (r.Ok? <==> env.IsA(left.value, right.value) || env.IsA(right.value, left.value))
    ensures r.Ok? && r.value.Some? && left.Some? && right.Some? ==>
      env.IsA(r.value.value, left.value) && env.IsA(r.value.value, right.value)
  {
    if right.None? then Ok(left)
    else if left.None? then Ok(right)
    else if env.IsA(left.value, right.value) then Ok(left)
    else if env.IsA(right.value, left.value) then Ok(right)
    else Err(TraversableMismatch(left.value, right.value))
  }

  /** Both operands are the same variant. */
  predicate SameVariant(a: PropertyType, b: PropertyType) {
    (a.Unknown? && b.Unknown?) || (a.Primitive? && b.Primitive?) || (a.Class? && b.Class?) ||
    (a.DateTime? && b.DateTime?) || (a.Array? && b.Array?) || (a.Iterable? && b.Iterable?)
  }

  function Conflict(t: PropertyType, other: PropertyType): Result<PropertyType> {
    Err(TypeConflict(Render(t), Render(other)))
  }

  /** `$this->merge($other)` for every variant. The receiver decides: the result has the
      receiver's variant, nullability is the AND of both, Unknown only merges with Unknown,
      every other variant accepts Unknown, and list-to-hashmap widening goes one way only. */
  function Merge(env: Environment, t: PropertyType, other: PropertyType): (r: Result<PropertyType>)
    decreases t, 1
    ensures r.Ok? ==> r.value.nullable == (t.nullable && other.nullable)
    ensures r.Ok? ==> SameVariant(r.value, t)
    ensures t.Unknown? ==> (r.Ok? <==> other.Unknown?)
    ensures ValidType(env, t) && other.Unknown? ==> r.Ok?
    ensures (t.Array? && other.Array?) || (t.Iterable? && other.Iterable?) ==>
      (t.hashmap && !other.hashmap ==> r.Err?) &&
      (r.Ok? ==> r.value.hashmap == (t.hashmap || other.hashmap))
    ensures ValidType(env, t) && ValidType(env, other) && r.Ok? ==> ValidType(env, r.value)
    // Primitive: only Unknown or a primitive of the same name merges, keeping the name.
    ensures t.Primitive? && IsPrimitiveName(t.typeName) && !other.Unknown? ==>
      (r.Ok? <==> other.Primitive? && other.typeName == t.typeName)
    ensures t.Primitive? && r.Ok? ==> r.value == Primitive(CanonicalPrimitive(t.typeName), t.nullable && other.nullable)
    // Class: only Unknown or the same class merges, and the result has no metadata attached.
    ensures t.Class? && ValidType(env, t) && !other.Unknown? ==>
      (r.Ok? <==> other.Class? && other.className == t.className)
    ensures t.Class? && r.Ok? ==> r.value == Class(t.className, t.nullable && other.nullable)
    // DateTime: same immutability, this side's options if it has any, else the other's.
    ensures t.DateTime? && other.DateTime? ==> (r.Ok? <==> t.immutable == other.immutable)
    ensures t.DateTime? && other.DateTime? && r.Ok? ==>
      r.value == DateTime(t.immutable, t.nullable && other.nullable, if t.options.Some? then t.options else other.options)
    // DateTime absorbs a DateTimeInterface class, immutable exactly for DateTimeImmutable descendants.
    ensures t.DateTime? && other.Class? ==>
      (r.Ok? <==> env.IsA(other.className, DATE_TIME_INTERFACE) &&
                  (env.IsA(other.className, DATE_TIME_IMMUTABLE) || env.IsA(other.className, DATE_TIME)
                   || other.className == DATE_TIME_INTERFACE))
    ensures t.DateTime? && other.Class? && r.Ok? ==>
      r.value == DateTime(env.IsA(other.className, DATE_TIME_IMMUTABLE), t.nullable && other.nullable, t.options)
    ensures t.DateTime? && !other.Unknown? && !other.Class? && !other.DateTime? ==> r.Err?
    ensures t.DateTime? && other.Unknown? ==> r == Ok(DateTime(t.immutable, t.nullable && other.nullable, t.options))
    ensures ValidType(env, t) && r.Err? ==> r.error.TypeConflict? || r.error.TraversableMismatch?
  {
    var n := t.nullable && other.nullable;
    match t
    case Unknown(_) =>
      if other.Unknown? then Ok(Unknown(n)) else Conflict(t, other)
    case Primitive(name, _) =>
      if other.Unknown? then NewPrimitive(name, n)
      else if !other.Primitive? || other.typeName != name then Conflict(t, other)
      else NewPrimitive(name, n)
    case Class(name, _) =>
      if other.Unknown? then NewClass(env, name, n)
      else if !other.Class? || other.className != name then Conflict(t, other)
      else NewClass(env, name, n)
    case DateTime(imm, _, opts) =>
      if other.Unknown? then Ok(DateTime(imm, n, opts))
      else if other.Class? && env.IsA(other.className, DATE_TIME_INTERFACE) then
        if env.IsA(other.className, DATE_TIME_IMMUTABLE) then Ok(DateTime(true, n, opts))
        else if env.IsA(other.className, DATE_TIME) || other.className == DATE_TIME_INTERFACE then Ok(DateTime(false, n, opts))
        else Conflict(t, other)
      else if !other.DateTime? || other.immutable != imm then Conflict(t, other)
      else Ok(DateTime(imm, n, if opts.Some? then opts else other.options))
    case Array(_, _, _) => MergeArray(env, t, other)
    case Iterable(_, _, _, _) => MergeIterable(env, t, other)
  }

  /** PropertyTypeArray::merge */
  function MergeArray(env: Environment, t: PropertyType, other: PropertyType): (r: Result<PropertyType>)
    requires t.Array?
    decreases t, 0
    ensures r.Ok? ==> r.value.Array? && r.value.nullable == (t.nullable && other.nullable)
    ensures other.Unknown? ==> r.Ok?
    ensures other.Array? ==>
      (t.hashmap && !other.hashmap ==> r.Err?) &&
      (r.Ok? ==> r.value.hashmap == (t.hashmap || other.hashmap))
    ensures ValidType(env, t) && ValidType(env, other) && r.Ok? ==> ValidType(env, r.value)
    ensures other.Unknown? ==> r == Ok(Array(t.subType, t.hashmap, t.nullable && other.nullable))
    ensures !other.Unknown? && !other.Array? ==> r.Err?
    // Two arrays with known elements: the elements merge, and their conflict is the array's.
    ensures other.Array? && !(t.hashmap && !other.hashmap) && !t.subType.Unknown? && !other.subType.Unknown? ==>
      (r.Ok? <==> Merge(env, t.subType, other.subType).Ok?) &&
      (r.Ok? ==> r.value == Array(Merge(env, t.subType, other.subType).value, t.hashmap || other.hashmap, t.nullable && other.nullable))
    ensures ValidType(env, t) && r.Err? ==> r.error.TypeConflict? || r.error.TraversableMismatch?
  {
    var n := t.nullable && other.nullable;
    if other.Unknown? then Ok(Array(t.subType, t.hashmap, n))
    else if !other.Array? then Conflict(t, other)
    else if t.hashmap && !other.hashmap then Conflict(t, other)
    else
      var h := t.hashmap || other.hashmap;
      if other.subType.Unknown? then Ok(Array(t.subType, h, n))
      else if t.subType.Unknown? then Ok(Array(other.subType, h, n))
      else
        var s :- Merge(env, t.subType, other.subType);
        Ok(Array(s, h, n))
  }

  /** PropertyTypeIterable::merge: also accepts a Traversable class on the other side. */
  function MergeIterable(env: Environment, t: PropertyType, other: PropertyType): (r: Result<PropertyType>)
    requires t.Iterable?
    decreases t, 0
    ensures r.Ok? ==> r.value.Iterable? && r.value.nullable == (t.nullable && other.nullable)
    ensures ValidType(env, t) && other.Unknown? ==> r.Ok?
    ensures other.Iterable? ==>
      (t.hashmap && !other.hashmap ==> r.Err?) &&
      (r.Ok? ==> r.value.hashmap == (t.hashmap || other.hashmap))
    ensures ValidType(env, t) && ValidType(env, other) && r.Ok? ==> ValidType(env, r.value)
    ensures other.Unknown? ==> r == Ok(Iterable(t.subType, t.hashmap, t.nullable && other.nullable, TraversableClassOf(t)))
    // A traversable iterable absorbs a Traversable class, keeping its element type and shape.
    ensures other.Class? && IsTraversable(t) && env.IsA(other.className, TRAVERSABLE) ==>
      var c := FindCommonTraversableClass(env, TraversableClassOf(t), Some(other.className));
      (r.Ok? <==> c.Ok?) && (r.Ok? ==> r.value == Iterable(t.subType, t.hashmap, t.nullable && other.nullable, c.value))
    ensures !other.Unknown? && !other.Iterable? && !(other.Class? && IsTraversable(t) && env.IsA(other.className, TRAVERSABLE)) ==>
      r.Err?
    // Two iterables: the traversable class is the common one, the elements merge as for arrays.
    ensures other.Iterable? && !(t.hashmap && !other.hashmap) ==>
      var c := FindCommonTraversableClass(env, TraversableClassOf(t), TraversableClassOf(other));
      (c.Err? ==> r.Err?) && (r.Ok? ==> c.Ok? && r.value.traversableClass == c.value)
    ensures other.Iterable? && !(t.hashmap && !other.hashmap) && !t.subType.Unknown? && !other.subType.Unknown? ==>
      var c := FindCommonTraversableClass(env, TraversableClassOf(t), TraversableClassOf(other));
      (r.Ok? <==> c.Ok? && Merge(env, t.subType, other.subType).Ok?) &&
      (r.Ok? ==> r.value == Iterable(Merge(env, t.subType, other.subType).value, t.hashmap || other.hashmap,
                                     t.nullable && other.nullable, c.value))
    ensures ValidType(env, t) && r.Err? ==> r.error.TypeConflict? || r.error.TraversableMismatch?
  {
    var n := t.nullable && other.nullable;
    var thisClass := TraversableClassOf(t);
    if other.Unknown? then Ok(Iterable(t.subType, t.hashmap, n, thisClass))
    else if IsTraversable(t) && other.Class? && env.IsA(other.className, TRAVERSABLE) then
      var c :- FindCommonTraversableClass(env, thisClass, Some(other.className));
      Ok(Iterable(t.subType, t.hashmap, n, c))
    else if !other.Iterable? then Conflict(t, other)
    else if t.hashmap && !other.hashmap then Conflict(t, other)
    else
      var otherClass := TraversableClassOf(other);
      var h := t.hashmap || other.hashmap;
      var c :- FindCommonTraversableClass(env, thisClass, otherClass);
      if other.subType.Unknown? then Ok(Iterable(t.subType, h, n, c))
      else if t.subType.Unknown? then Ok(Iterable(other.subType, h, n, c))
      else
        var s :- Merge(env, t.subType, other.subType);
        Ok(Iterable(s, h, n, c))
  }
}
