/** JMSTypeParser.php: turns the tree the JMS type grammar makes of a `@Type` string into a
    property type. The grammar itself is not modelled: its output, a name with parameters
    that are nested types or quoted strings, is the input. Every type this front end returns
    is nullable at the top and non-nullable inside, and its collections are iterables, never
    arrays. */
module JmsTypeParsing {
  import opened Wrappers
  import opened Errors
  import opened PropertyTypes
  import PhpTypeParsing

  const TYPE_ARRAY := "array"
  const TYPE_ARRAY_COLLECTION := "ArrayCollection"
  const ARRAY_COLLECTION_CLASS := "Doctrine\\Common\\Collections\\ArrayCollection"
  const COLLECTION_INTERFACE := "Doctrine\\Common\\Collections\\Collection"

  /** What the JMS grammar makes of a type string: `name<param, ...>`. */
  datatype TypeInfo = TypeInfo(name: string, params: seq<Param>)

  /** A parameter is a nested type or a quoted string. */
  datatype Param = TypeParam(info: TypeInfo) | TextParam(text: string)

  /** PHP truthiness of a string: "" and "0" are false. */
  predicate Truthy(s: string) {
    s != "" && s != "0"
  }

  /** getCollectionClass: ArrayCollection stands for Doctrine's class; any other name is its
      own collection class when it is a Doctrine Collection. */
  function CollectionClass(env: Environment, name: string): (r: Option<string>)
    ensures r.Some? ==> r.value == ARRAY_COLLECTION_CLASS || r.value == name
  {
    if name == TYPE_ARRAY_COLLECTION then Some(ARRAY_COLLECTION_CLASS)
    else if env.IsA(name, COLLECTION_INTERFACE) then Some(name)
    else None
  }

  /** `($typeInfo['params'][i] ?? null) ?: null` for a date-time option: a missing or falsy
      string is no option. A nested type in its place is refused. */
  function OptionText(params: seq<Param>, i: nat, name: string): (r: Result<Option<string>>)
    ensures r.Ok? && r.value.Some? ==> Truthy(r.value.value)
  {
    if i >= |params| then Ok(None)
    else match params[i]
      case TextParam(t) => Ok(if Truthy(t) then Some(t) else None)
      case TypeParam(_) => Err(InvalidType(name))
  }

  /** parseType: `isSubType` is set for every parameter type. Without parameters, `array` is
      an iterable of Unknown and other names are primitives, date-times or classes. With
      parameters, `array` and collections take one (a list) or two (a hashmap of the second;
      the key type is not looked at); date-time names take format, zone and deserialize
      format; anything else is refused. */
  function ParseType(env: Environment, info: TypeInfo, isSubType: bool): (r: Result<PropertyType>)
    decreases info
    ensures r.Ok? ==> r.value.nullable == !isSubType && ValidType(env, r.value)
    ensures r.Ok? ==> !r.value.Array? && (r.value.Iterable? ==> !r.value.subType.nullable)
  {
    var nullable := !isSubType;
    if |info.params| == 0 then
      if info.name == TYPE_ARRAY then Ok(Iterable(Unknown(false), false, nullable, None))
      else if IsTypePrimitive(info.name) then NewPrimitive(info.name, nullable)
      else if IsTypeDateTime(info.name) then FromDateTimeClass(info.name, nullable, None)
      else NewClass(env, info.name, nullable)
    else
      var collection := CollectionClass(env, info.name);
      if info.name == TYPE_ARRAY || (collection.Some? && Truthy(collection.value)) then
        if |info.params| > 2 then Err(InvalidType(info.name))
        else
          var p := info.params[|info.params| - 1];
          var sub :- match p
            case TypeParam(inner) => ParseType(env, inner, true)
            case TextParam(t) => Err(InvalidType(t));
          Ok(Iterable(sub, |info.params| == 2, nullable, collection))
      else if IsTypeDateTime(info.name) || info.name == DATE_TIME_INTERFACE then
        var format :- OptionText(info.params, 0, info.name);
        var zone :- OptionText(info.params, 1, info.name);
        var third :- OptionText(info.params, 2, info.name);
        var deserialize := if third.Some? then third else format;
        var className := if info.name == DATE_TIME_INTERFACE then DATE_TIME else info.name;
        FromDateTimeClass(className, nullable, Some(DateTimeOptions(format, zone, deserialize)))
      else Err(InvalidType(info.name))
  }

  /** parse: the empty string is Unknown and nullable; anything else is the grammar's tree
      `tree` for it, parsed as a top-level type. */
  function Parse(env: Environment, rawType: string, tree: TypeInfo): (r: Result<PropertyType>)
    ensures rawType == "" ==> r == Ok(Unknown(true))
    ensures r.Ok? ==> r.value.nullable && ValidType(env, r.value) && !r.value.Array?
  {
    if rawType == "" then Ok(Unknown(true)) else ParseType(env, tree, false)
  }

  /** A bare `array` is an iterable of Unknown, which renders as `array`. */
  lemma {:induction false} BareArray(env: Environment, isSubType: bool)
    ensures ParseType(env, TypeInfo(TYPE_ARRAY, []), isSubType) == Ok(Iterable(Unknown(false), false, !isSubType, None))
    ensures Render(ParseType(env, TypeInfo(TYPE_ARRAY, []), isSubType).value) == "array"
  {
  }

  /** `array<V>` is a list of V and `array<K, V>` a hashmap of V whatever K is; V is parsed as
      a non-nullable type. */
  lemma {:induction false} ArrayParams(env: Environment, key: Param, value: TypeInfo, isSubType: bool)
    ensures ParseType(env, TypeInfo(TYPE_ARRAY, [TypeParam(value)]), isSubType) ==
      (match ParseType(env, value, true)
       case Ok(sub) => Ok(Iterable(sub, false, !isSubType, CollectionClass(env, TYPE_ARRAY)))
       case Err(e) => Err(e))
    ensures ParseType(env, TypeInfo(TYPE_ARRAY, [key, TypeParam(value)]), isSubType) ==
      (match ParseType(env, value, true)
       case Ok(sub) => Ok(Iterable(sub, true, !isSubType, CollectionClass(env, TYPE_ARRAY)))
       case Err(e) => Err(e))
  {
    assert TypeParam(value) in [TypeParam(value)];
    assert [key, TypeParam(value)][1] == TypeParam(value);
  }

  /** `array` and collections with more than two parameters are refused. */
  lemma {:induction false} TooManyParams(env: Environment, info: TypeInfo, isSubType: bool)
    requires |info.params| > 2
    requires info.name == TYPE_ARRAY || info.name == TYPE_ARRAY_COLLECTION
    ensures ParseType(env, info, isSubType) == Err(InvalidType(info.name))
  {
  }

  /** Parameters on a name that is neither `array`, a collection nor a date-time are refused. */
  lemma {:induction false} ParamsRefused(env: Environment, info: TypeInfo, isSubType: bool)
    requires |info.params| > 0 && info.name != TYPE_ARRAY && CollectionClass(env, info.name).None?
    requires !IsTypeDateTime(info.name) && info.name != DATE_TIME_INTERFACE
    ensures ParseType(env, info, isSubType) == Err(InvalidType(info.name))
  {
  }

  /** The option of a date-time string parameter: a falsy string is no option. */
  function TextOption(t: string): Option<string> {
    if Truthy(t) then Some(t) else None
  }

  /** Date-time parameters are format, zone and deserialize format; an empty string means
      none, and a missing deserialize format falls back to the format. DateTimeInterface
      stands for the mutable DateTime. */
  lemma {:induction false} DateTimeParams(env: Environment, name: string, format: string, zone: string, deserialize: string,
                                          isSubType: bool)
    requires IsTypeDateTime(name) || name == DATE_TIME_INTERFACE
    requires !env.subclassOf(name, COLLECTION_INTERFACE)
    ensures var r := ParseType(env, TypeInfo(name, [TextParam(format)]), isSubType);
      r.Ok? && r.value.DateTime? && r.value.nullable == !isSubType && (r.value.immutable <==> name == DATE_TIME_IMMUTABLE)
      && GetFormat(r.value) == TextOption(format) && GetZone(r.value).None?
      && GetDeserializeFormat(r.value) == TextOption(format)
    ensures var r := ParseType(env, TypeInfo(name, [TextParam(format), TextParam(zone), TextParam(deserialize)]), isSubType);
      r.Ok? && r.value.DateTime? && (r.value.immutable <==> name == DATE_TIME_IMMUTABLE)
      && GetFormat(r.value) == TextOption(format) && GetZone(r.value) == TextOption(zone)
      && GetDeserializeFormat(r.value) == (if Truthy(deserialize) then Some(deserialize) else TextOption(format))
  {
  }

  /** The JMS tree of a primitive wrapped in `array<...>` levels, innermost first; a hashmap
      level has `string` as key type. */
  function Wrapped(name: string, levels: seq<bool>): TypeInfo {
    if |levels| == 0 then TypeInfo(name, [])
    else
      var inner := TypeParam(Wrapped(name, levels[..|levels| - 1]));
      TypeInfo(TYPE_ARRAY, if levels[|levels| - 1] then [TypeParam(TypeInfo("string", [])), inner] else [inner])
  }

  /** A primitive in nested `array<...>` levels renders as the PHPDoc suffix string of the
      same levels, although it is built of iterables. */
  lemma {:induction false} WrappedRendering(env: Environment, name: string, levels: seq<bool>, isSubType: bool)
    requires IsTypePrimitive(name) && !env.subclassOf(TYPE_ARRAY, COLLECTION_INTERFACE)
    ensures ParseType(env, Wrapped(name, levels), isSubType).Ok?
    ensures Render(ParseType(env, Wrapped(name, levels), isSubType).value)
      == CanonicalPrimitive(name) + PhpTypeParsing.Suffixes(levels) + NullSuffix(!isSubType)
  {
    if |levels| > 0 {
      var front := levels[..|levels| - 1];
      WrappedRendering(env, name, front, true);
      var inner := Wrapped(name, front);
      var key := TypeParam(TypeInfo("string", []));
      ArrayParams(env, key, inner, isSubType);
      var sub := ParseType(env, inner, true).value;
      assert !sub.Unknown? by {
        if |front| == 0 {
          assert sub.Primitive?;
        } else {
          assert sub.Iterable?;
        }
      }
      var last := if levels[|levels| - 1] then PhpTypeParsing.HASHMAP_SUFFIX else PhpTypeParsing.ARRAY_SUFFIX;
      var t := ParseType(env, Wrapped(name, levels), isSubType).value;
      assert t == Iterable(sub, levels[|levels| - 1], !isSubType, CollectionClass(env, TYPE_ARRAY));
      var c, a, z := CanonicalPrimitive(name), PhpTypeParsing.Suffixes(front), NullSuffix(!isSubType);
      assert CollectionClass(env, TYPE_ARRAY).None?;
      assert Render(t) == Render(sub) + last + "" + z;
      assert Render(sub) == c + a;
      assert PhpTypeParsing.Suffixes(levels) == a + last;
      PhpTypeParsing.ConcatAssoc(c, a, last, z);
    }
  }

  /** The JMS tree and the PHPDoc string for the same nesting of a primitive give types that
      render alike: the PHPDoc one is made of arrays, the JMS one of iterables. `rawType` is
      the JMS string the tree was parsed from. */
  lemma {:induction false} FrontEndsAgree(env: Environment, rawType: string, name: string, levels: seq<bool>,
                                          resolve: string -> string)
    requires rawType != "" && IsTypePrimitive(name) && !env.subclassOf(TYPE_ARRAY, COLLECTION_INTERFACE)
    ensures Parse(env, rawType, Wrapped(name, levels)).Ok?
    ensures PhpTypeParsing.AnnotationType(env, name + PhpTypeParsing.Suffixes(levels) + "|null", resolve).Ok?
    ensures Render(Parse(env, rawType, Wrapped(name, levels)).value)
      == Render(PhpTypeParsing.AnnotationType(env, name + PhpTypeParsing.Suffixes(levels) + "|null", resolve).value)
  {
    WrappedRendering(env, name, levels, false);
    PhpTypeParsing.PrimitiveRoundTrip(env, name, levels, resolve);
  }
}
