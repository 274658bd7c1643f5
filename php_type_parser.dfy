/** PhpTypeParser.php: the PHPDoc `@var` front end. A type string is split on `|`; the
    markers `null` and `mixed` only make the result nullable, the generic names `object` and
    `mixed` are dropped, and at most one type may remain, which createType turns into a
    property type by peeling `[]` and `[string]` suffixes from the right. Use-statement and
    namespace resolution is given as a function `resolve` from the written name to the
    resolved one; only the leading-backslash rule is modelled. */
module PhpTypeParsing {
  import opened Wrappers
  import opened Errors
  import opened Strings
  import opened Sequences
  import opened PropertyTypes

  const TYPE_SEPARATOR := '|'
  const TYPE_ARRAY := "array"
  const TYPE_RESOURCE := "resource"
  const ARRAY_SUFFIX := "[]"
  const HASHMAP_SUFFIX := "[string]"

  /** The first position of `c` in `s`. */
  function IndexOfChar(s: string, c: char): (i: nat)
    requires c in s
    ensures i < |s| && s[i] == c && c !in s[..i]
  {
    if s[0] == c then 0
    else
      var i := 1 + IndexOfChar(s[1..], c);
      assert s[..i] == [s[0]] + s[1..][..i - 1];
      i
  }

  /** explode: the pieces of `s` between the occurrences of `sep`, in order. */
  function Explode(s: string, sep: char): (parts: seq<string>)
    ensures |parts| > 0
    ensures forall k :: 0 <= k < |parts| ==> sep !in parts[k]
    decreases |s|
  {
    if sep !in s then [s]
    else
      var i := IndexOfChar(s, sep);
      [s[..i]] + Explode(s[i + 1..], sep)
  }

  /** Joining the pieces with the separator gives the string back. */
  lemma {:induction false} ExplodeJoin(s: string, sep: char)
    ensures Join(Explode(s, sep), [sep]) == s
    decreases |s|
  {
    if sep in s {
      var i := IndexOfChar(s, sep);
      var rest := Explode(s[i + 1..], sep);
      ExplodeJoin(s[i + 1..], sep);
      JoinCons(s[..i], rest, [sep]);
      assert s == s[..i] + [sep] + s[i + 1..];
    }
  }

  /** Splitting pieces joined with a separator none of them holds gives the pieces back. */
  lemma {:induction false} JoinExplode(parts: seq<string>, sep: char)
    requires |parts| > 0 && forall k :: 0 <= k < |parts| ==> sep !in parts[k]
    ensures Explode(Join(parts, [sep]), sep) == parts
  {
    if |parts| > 1 {
      var rest := parts[1..];
      var tail := Join(rest, [sep]);
      JoinCons(parts[0], rest, [sep]);
      assert [parts[0]] + rest == parts;
      var s := parts[0] + [sep] + tail;
      assert s[|parts[0]|] == sep;
      var i := IndexOfChar(s, sep);
      assert s[..i] == parts[0] && s[i + 1..] == tail;
      JoinExplode(rest, sep);
    }
  }

  /** `null` and `mixed` make the type nullable. */
  predicate IsNullMarker(part: string) {
    part == "null" || part == "mixed"
  }

  /** TYPES_GENERIC: `object` and `mixed` name no type of their own. */
  predicate IsGeneric(part: string) {
    part == "object" || part == "mixed"
  }

  /** A union part that is neither a null marker nor generic names the type. */
  predicate NamesType(part: string) {
    !IsNullMarker(part) && !IsGeneric(part)
  }

  predicate NullMarked(parts: seq<string>) {
    exists k :: 0 <= k < |parts| && IsNullMarker(parts[k])
  }

  predicate EndsWith(s: string, suffix: string) {
    |suffix| <= |s| && s[|s| - |suffix|..] == suffix
  }

  /** resolveClass: a leading backslash marks an absolute name and is dropped; any other
      name goes through the use statements and the namespace of the declaring class. */
  function ResolveClass(name: string, resolve: string -> string): string {
    if |name| > 0 && name[0] == '\\' then name[1..] else resolve(name)
  }

  /** createType: `array` is an array of Unknown; a trailing `[]` or `[string]` wraps the type
      of the rest, which is never nullable, in a list or a hashmap; `resource` is refused;
      primitive names and their aliases become primitives; DateTime and DateTimeImmutable
      become date-time types; any other name is a class that must exist. */
  function CreateType(env: Environment, raw: string, nullable: bool, resolve: string -> string): (r: Result<PropertyType>)
    decreases |raw|
    ensures r.Ok? ==> r.value.nullable == nullable && ValidType(env, r.value)
    ensures r.Ok? ==> !r.value.Iterable? && (r.value.Array? ==> !r.value.subType.nullable)
    ensures raw == TYPE_RESOURCE ==> r == Err(InvalidType(TYPE_RESOURCE))
    ensures IsTypePrimitive(raw) ==> r == Ok(Primitive(CanonicalPrimitive(raw), nullable))
  {
    if raw == TYPE_ARRAY then Ok(Array(Unknown(false), false, nullable))
    else if EndsWith(raw, ARRAY_SUFFIX) then
      var sub :- CreateType(env, raw[..|raw| - |ARRAY_SUFFIX|], false, resolve);
      Ok(Array(sub, false, nullable))
    else if EndsWith(raw, HASHMAP_SUFFIX) then
      var sub :- CreateType(env, raw[..|raw| - |HASHMAP_SUFFIX|], false, resolve);
      Ok(Array(sub, true, nullable))
    else if raw == TYPE_RESOURCE then Err(InvalidType(raw))
    else if IsTypePrimitive(raw) then NewPrimitive(raw, nullable)
    else
      var resolved := ResolveClass(raw, resolve);
      if IsTypeDateTime(resolved) then FromDateTimeClass(resolved, nullable, None)
      else NewClass(env, resolved, nullable)
  }

  /** What parseAnnotationType returns for `rawType`. */
  function AnnotationType(env: Environment, rawType: string, resolve: string -> string): (r: Result<PropertyType>)
    ensures rawType == "" ==> r == Ok(Unknown(true))
    ensures r.Ok? ==> ValidType(env, r.value) && !r.value.Iterable?
    ensures r.Err? && rawType != "" ==> |Filter(Explode(rawType, TYPE_SEPARATOR), NamesType)| > 0
  {
    if rawType == "" then Ok(Unknown(true))
    else
      var parts := Explode(rawType, TYPE_SEPARATOR);
      var types := Filter(parts, NamesType);
      var nullable := NullMarked(parts);
      if |types| == 0 then Ok(Unknown(nullable))
      else if |types| > 1 then Err(InvalidType(rawType))
      else CreateType(env, types[0], nullable, resolve)
  }

  /** parseAnnotationType: the foreach over the union parts collects the named types and the
      nullability, then an empty union is Unknown, a union of two types is refused and a
      single type goes to createType. */
  method ParseAnnotationType(env: Environment, rawType: string, resolve: string -> string)
    returns (r: Result<PropertyType>)
    ensures r == AnnotationType(env, rawType, resolve)
  {
    if rawType == "" {
      return Ok(Unknown(true));
    }
    var parts := Explode(rawType, TYPE_SEPARATOR);
    var types: seq<string> := [];
    var nullable := false;
    for i := 0 to |parts|
      invariant types == Filter(parts[..i], NamesType)
      invariant nullable <==> NullMarked(parts[..i])
    {
      var part := parts[i];
      if IsNullMarker(part) {
        nullable := true;
      } else if !IsGeneric(part) {
        types := types + [part];
      }
      FilterSnoc(parts[..i], part, NamesType);
      assert parts[..i + 1] == parts[..i] + [part];
    }
    assert parts[..|parts|] == parts;
    if |types| == 0 {
      return Ok(Unknown(nullable));
    }
    if |types| > 1 {
      return Err(InvalidType(rawType));
    }
    r := CreateType(env, types[0], nullable, resolve);
  }

  /** A union made only of `null`, `mixed` and `object` is Unknown, nullable exactly when a
      `null` or `mixed` part is present. */
  lemma {:induction false} MarkersOnly(env: Environment, parts: seq<string>, resolve: string -> string)
    requires |parts| > 0 && forall k :: 0 <= k < |parts| ==> !NamesType(parts[k])
    ensures AnnotationType(env, Join(parts, "|"), resolve) == Ok(Unknown(NullMarked(parts)))
  {
    forall k | 0 <= k < |parts| ensures TYPE_SEPARATOR !in parts[k] {
      assert IsNullMarker(parts[k]) || IsGeneric(parts[k]);
    }
    JoinExplode(parts, TYPE_SEPARATOR);
    FilterNone(parts, NamesType);
    var raw := Join(parts, "|");
    if raw == "" {
      assert Explode(raw, TYPE_SEPARATOR) == [""];
      assert parts[0] == "";
    }
  }

  /** Two parts that both name a type are refused, whatever else the union holds. */
  lemma {:induction false} TwoTypesRefused(env: Environment, parts: seq<string>, i: nat, j: nat, resolve: string -> string)
    requires forall k :: 0 <= k < |parts| ==> TYPE_SEPARATOR !in parts[k]
    requires i < j < |parts| && NamesType(parts[i]) && NamesType(parts[j])
    ensures AnnotationType(env, Join(parts, "|"), resolve) == Err(InvalidType(Join(parts, "|")))
  {
    JoinExplode(parts, TYPE_SEPARATOR);
    TwoKept(parts, i, j);
  }

  lemma {:induction false} TwoKept(parts: seq<string>, i: nat, j: nat)
    requires i < j < |parts| && NamesType(parts[i]) && NamesType(parts[j])
    ensures |Filter(parts, NamesType)| > 1
  {
    if i > 0 {
      TwoKept(parts[1..], i - 1, j - 1);
    } else {
      FilterSubsequence(parts[1..], NamesType);
      assert parts[1..][j - 1] == parts[j];
    }
  }

  /** One type alone is that type as written, not nullable. */
  lemma {:induction false} SingleType(env: Environment, t: string, resolve: string -> string)
    requires NamesType(t) && TYPE_SEPARATOR !in t && t != ""
    ensures AnnotationType(env, t, resolve) == CreateType(env, t, false, resolve)
  {
    JoinExplode([t], TYPE_SEPARATOR);
    assert Filter([t], NamesType) == [t];
    assert !NullMarked([t]);
  }

  /** One type with a `null` part after it is that type made nullable. */
  lemma {:induction false} NullableType(env: Environment, t: string, resolve: string -> string)
    requires NamesType(t) && TYPE_SEPARATOR !in t
    ensures AnnotationType(env, t + "|null", resolve) == CreateType(env, t, true, resolve)
  {
    var parts := [t, "null"];
    JoinCons(t, ["null"], "|");
    assert [t] + ["null"] == parts;
    assert Join(parts, "|") == t + "|null";
    JoinExplode(parts, TYPE_SEPARATOR);
    FilterSnoc([], t, NamesType);
    FilterSnoc([t], "null", NamesType);
    assert IsNullMarker(parts[1]);
  }

  /** The `null` part may as well come first. */
  lemma {:induction false} NullFirst(env: Environment, t: string, resolve: string -> string)
    requires NamesType(t) && TYPE_SEPARATOR !in t
    ensures AnnotationType(env, "null|" + t, resolve) == CreateType(env, t, true, resolve)
  {
    var parts := ["null", t];
    JoinCons("null", [t], "|");
    assert parts[1..] == [t];
    JoinExplode(parts, TYPE_SEPARATOR);
    FilterSnoc([], "null", NamesType);
    FilterSnoc(["null"], t, NamesType);
    assert ["null"] + [t] == parts;
    assert IsNullMarker(parts[0]);
  }

  /** A trailing `[]` wraps the type of the rest in a list, a trailing `[string]` in a hashmap;
      the wrapped type is built non-nullable. */
  lemma {:induction false} SuffixPeels(env: Environment, raw: string, n: bool, resolve: string -> string)
    ensures CreateType(env, raw + ARRAY_SUFFIX, n, resolve) ==
      (match CreateType(env, raw, false, resolve)
       case Ok(sub) => Ok(Array(sub, false, n))
       case Err(e) => Err(e))
    ensures CreateType(env, raw + HASHMAP_SUFFIX, n, resolve) ==
      (match CreateType(env, raw, false, resolve)
       case Ok(sub) => Ok(Array(sub, true, n))
       case Err(e) => Err(e))
  {
    var l := raw + ARRAY_SUFFIX;
    assert l[|l| - 2..] == ARRAY_SUFFIX && l[..|l| - 2] == raw;
    assert l != TYPE_ARRAY by { assert l[|l| - 1] == ']'; }
    var h := raw + HASHMAP_SUFFIX;
    assert h[|h| - 8..] == HASHMAP_SUFFIX && h[..|h| - 8] == raw;
    assert h != TYPE_ARRAY by { assert h[|h| - 1] == ']'; }
    assert !EndsWith(h, ARRAY_SUFFIX) by { assert h[|h| - 2] == 'g'; }
  }

  /** The suffix string for a list of levels, innermost first: `[string]` for a hashmap
      level, `[]` for a list level. */
  function Suffixes(levels: seq<bool>): string {
    if |levels| == 0 then ""
    else Suffixes(levels[..|levels| - 1]) + (if levels[|levels| - 1] then HASHMAP_SUFFIX else ARRAY_SUFFIX)
  }

  /** The type of a primitive name followed by suffixes: nested arrays, innermost first, around
      the canonical primitive, all levels but the outermost non-nullable. */
  function Nested(name: string, levels: seq<bool>, n: bool): PropertyType {
    if |levels| == 0 then Primitive(CanonicalPrimitive(name), n)
    else Array(Nested(name, levels[..|levels| - 1], false), levels[|levels| - 1], n)
  }

  lemma {:induction false} SuffixedPrimitive(env: Environment, name: string, levels: seq<bool>, n: bool, resolve: string -> string)
    requires IsTypePrimitive(name)
    ensures CreateType(env, name + Suffixes(levels), n, resolve) == Ok(Nested(name, levels, n))
  {
    if |levels| == 0 {
      SuffixBase(env, name, levels, n, resolve);
    } else {
      SuffixedPrimitive(env, name, levels[..|levels| - 1], false, resolve);
      SuffixStep(env, name, levels, n, resolve);
    }
  }

  /** Without suffixes the name is created as its canonical primitive. */
  lemma {:induction false} SuffixBase(env: Environment, name: string, levels: seq<bool>, n: bool, resolve: string -> string)
    requires IsTypePrimitive(name) && |levels| == 0
    ensures CreateType(env, name + Suffixes(levels), n, resolve) == Ok(Nested(name, levels, n))
  {
    assert name + Suffixes(levels) == name;
  }

  /** The outermost level around a primitive whose inner suffixes already give the nested
      type. */
  lemma {:induction false} SuffixStep(env: Environment, name: string, levels: seq<bool>, n: bool, resolve: string -> string)
    requires |levels| > 0
    requires CreateType(env, name + Suffixes(levels[..|levels| - 1]), false, resolve) == Ok(Nested(name, levels[..|levels| - 1], false))
    ensures CreateType(env, name + Suffixes(levels), n, resolve) == Ok(Nested(name, levels, n))
  {
    var front, b := levels[..|levels| - 1], levels[|levels| - 1];
    var x, last := Suffixes(front), if b then HASHMAP_SUFFIX else ARRAY_SUFFIX;
    assert Suffixes(levels) == x + last;
    Assoc(name, x, last);
    PeelOne(env, name + x, b, n, Nested(name, front, false), resolve);
  }

  lemma {:induction false} Assoc(c: string, a: string, l: string)
    ensures c + (a + l) == c + a + l
  {
  }

  /** A suffix after a string whose type is `sub` wraps `sub` in a list or a hashmap. */
  lemma {:induction false} PeelOne(env: Environment, raw: string, b: bool, n: bool, sub: PropertyType,
                                   resolve: string -> string)
    requires CreateType(env, raw, false, resolve) == Ok(sub)
    ensures CreateType(env, raw + (if b then HASHMAP_SUFFIX else ARRAY_SUFFIX), n, resolve) == Ok(Array(sub, b, n))
  {
    SuffixPeels(env, raw, n, resolve);
  }

  /** The nested type renders as the canonical name followed by the suffixes. */
  lemma {:induction false} NestedRendering(name: string, levels: seq<bool>, n: bool)
    ensures Render(Nested(name, levels, n)) == CanonicalPrimitive(name) + Suffixes(levels) + NullSuffix(n)
  {
    if |levels| > 0 {
      var front := levels[..|levels| - 1];
      NestedRendering(name, front, false);
      var last := if levels[|levels| - 1] then HASHMAP_SUFFIX else ARRAY_SUFFIX;
      var sub := Nested(name, front, false);
      assert !sub.Unknown?;
      assert Render(Nested(name, levels, n)) == Render(sub) + last + NullSuffix(n);
      var c, a, z := CanonicalPrimitive(name), Suffixes(front), NullSuffix(n);
      assert Suffixes(levels) == a + last;
      ConcatAssoc(c, a, last, z);
    }
  }

  /** Round trip: a primitive name followed by any `[]` and `[string]` suffixes, with or
      without `|null`, parses to a type that renders as the written string with the name
      made canonical. */
  lemma {:induction false} PrimitiveRoundTrip(env: Environment, name: string, levels: seq<bool>, resolve: string -> string)
    requires IsTypePrimitive(name)
    ensures AnnotationType(env, name + Suffixes(levels), resolve).Ok?
    ensures Render(AnnotationType(env, name + Suffixes(levels), resolve).value) == CanonicalPrimitive(name) + Suffixes(levels)
    ensures AnnotationType(env, name + Suffixes(levels) + "|null", resolve).Ok?
    ensures Render(AnnotationType(env, name + Suffixes(levels) + "|null", resolve).value)
      == CanonicalPrimitive(name) + Suffixes(levels) + "|null"
  {
    var t := name + Suffixes(levels);
    NoSeparator(levels);
    IsTypePrimitiveNames(name);
    if |levels| == 0 {
      assert t == name;
    } else {
      LastBracket(levels);
      assert t[|t| - 1] == ']';
    }
    SingleType(env, t, resolve);
    NullableType(env, t, resolve);
    SuffixedPrimitive(env, name, levels, false, resolve);
    SuffixedPrimitive(env, name, levels, true, resolve);
    NestedRendering(name, levels, false);
    NestedRendering(name, levels, true);
  }

  lemma {:induction false} ConcatAssoc(c: string, a: string, l: string, z: string)
    ensures c + a + l + z == c + (a + l) + z
  {
  }

  lemma {:induction false} LastBracket(levels: seq<bool>)
    requires |levels| > 0
    ensures |Suffixes(levels)| > 0 && Suffixes(levels)[|Suffixes(levels)| - 1] == ']'
  {
  }

  lemma {:induction false} NoSeparator(levels: seq<bool>)
    ensures TYPE_SEPARATOR !in Suffixes(levels)
  {
    if |levels| > 0 {
      NoSeparator(levels[..|levels| - 1]);
    }
  }

  /** `resource` is refused, and so is any array of it. */
  lemma {:induction false} ResourceRefused(env: Environment, levels: seq<bool>, n: bool, resolve: string -> string)
    ensures CreateType(env, TYPE_RESOURCE + Suffixes(levels), n, resolve) == Err(InvalidType(TYPE_RESOURCE))
  {
    if |levels| > 0 {
      var front := levels[..|levels| - 1];
      ResourceRefused(env, front, false, resolve);
      var x, last := Suffixes(front), if levels[|levels| - 1] then HASHMAP_SUFFIX else ARRAY_SUFFIX;
      assert Suffixes(levels) == x + last;
      Assoc(TYPE_RESOURCE, x, last);
      SuffixPeels(env, TYPE_RESOURCE + x, n, resolve);
    } else {
      assert TYPE_RESOURCE + Suffixes(levels) == TYPE_RESOURCE;
    }
  }

  /** An absolute name loses its leading backslash without consulting the use statements:
      DateTime and DateTimeImmutable become date-time types, a declared custom class a class
      type, and an undeclared one is not found. */
  lemma {:induction false} AbsoluteName(env: Environment, c: string, n: bool, resolve: string -> string)
    requires |c| > 0 && c[|c| - 1] != ']'
    ensures c == DATE_TIME ==> CreateType(env, "\\" + c, n, resolve) == Ok(DateTime(false, n, None))
    ensures c == DATE_TIME_IMMUTABLE ==> CreateType(env, "\\" + c, n, resolve) == Ok(DateTime(true, n, None))
    ensures IsTypeCustomClass(c) && env.ClassExists(c) ==> CreateType(env, "\\" + c, n, resolve) == Ok(Class(c, n))
    ensures IsTypeCustomClass(c) && !env.ClassExists(c) ==> CreateType(env, "\\" + c, n, resolve) == Err(ClassNotFound(c))
  {
    AbsoluteBranch(env, c, n, resolve);
  }

  /** An absolute name takes the last branch of createType, with the backslash dropped. */
  lemma {:induction false} AbsoluteBranch(env: Environment, c: string, n: bool, resolve: string -> string)
    requires |c| > 0 && c[|c| - 1] != ']'
    ensures CreateType(env, "\\" + c, n, resolve)
      == if IsTypeDateTime(c) then FromDateTimeClass(c, n, None) else NewClass(env, c, n)
  {
    var raw := "\\" + c;
    assert raw[0] == '\\' && raw[1..] == c;
    assert ResolveClass(raw, resolve) == c;
    assert raw[|raw| - 1] == c[|c| - 1];
    assert !EndsWith(raw, ARRAY_SUFFIX) && !EndsWith(raw, HASHMAP_SUFFIX);
    assert raw != TYPE_ARRAY && raw != TYPE_RESOURCE;
    assert !IsTypePrimitive(raw) by { IsTypePrimitiveNames(raw); }
  }
}
