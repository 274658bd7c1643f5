/** Getter/setter pair of a property (PropertyAccessor.php). */
module Accessors {
  import opened Wrappers
  import Json

  datatype PropertyAccessor = PropertyAccessor(getterMethod: Option<string>, setterMethod: Option<string>)
  {
    predicate HasGetterMethod() {
      getterMethod.Some?
    }

    predicate HasSetterMethod() {
      setterMethod.Some?
    }

    /** As written, the getter is tested twice and the setter never. */
    predicate IsDefined() {
      HasGetterMethod() || HasGetterMethod()
    }

    /** array_filter over getter_method and setter_method. */
    function ToJson(): Json.Json {
      Json.JObject(Json.ArrayFilter([
        ("getter_method", Json.OptString(getterMethod)),
        ("setter_method", Json.OptString(setterMethod))]))
    }
  }

  /** PropertyAccessor::none() */
  function NoAccessor(): (a: PropertyAccessor)
    ensures !a.HasGetterMethod() && !a.HasSetterMethod() && !a.IsDefined()
  {
    PropertyAccessor(None, None)
  }

  /** An accessor counts as defined exactly when it has a getter: one with only a setter does not. */
  lemma {:induction false} IsDefinedOnlyGetter(a: PropertyAccessor)
    ensures a.IsDefined() <==> a.HasGetterMethod()
    ensures a.HasSetterMethod() && !a.HasGetterMethod() ==> !a.IsDefined()
  {
  }

  /** The export holds a method name exactly when it is present and not falsy. */
  lemma {:induction false} ToJsonOmitsAbsent(a: PropertyAccessor)
    ensures Json.Lookup(a.ToJson().fields, "getter_method") ==
      if a.getterMethod.Some? && Json.TruthyString(a.getterMethod.value) then Some(Json.JString(a.getterMethod.value)) else None
    ensures Json.Lookup(a.ToJson().fields, "setter_method") ==
      if a.setterMethod.Some? && Json.TruthyString(a.setterMethod.value) then Some(Json.JString(a.setterMethod.value)) else None
  {
    var entries := [("getter_method", Json.OptString(a.getterMethod)), ("setter_method", Json.OptString(a.setterMethod))];
    Json.ArrayFilterLookup(entries, 0);
    Json.ArrayFilterLookup(entries, 1);
  }
}

/** A constructor parameter (ParameterMetadata.php). The default value is kept as the
    JSON value it is exported as. */
module Parameters {
  import opened Wrappers
  import opened Errors
  import Json

  datatype ParameterMetadata = ParameterMetadata(name: string, required: bool, defaultValue: Json.Json)
  {
    /** __toString */
    function Render(): string {
      name
    }

    /** The default of an optional parameter; a required parameter has none. */
    function GetDefaultValue(): (r: Result<Json.Json>)
      ensures r.Ok? <==> !required
      ensures r.Ok? ==> r.value == defaultValue
      ensures r.Err? ==> r.error == RequiredParameter(name)
    {
      if required then Err(RequiredParameter(name)) else Ok(defaultValue)
    }

    function ToJson(): Json.Json {
      Json.JObject([("name", Json.JString(name)), ("required", Json.JBool(required)), ("default_value", defaultValue)])
    }
  }

  /** ParameterMetadata::fromReflection: optional parameters keep their default, required
      ones get none. */
  function FromReflection(name: string, optional: bool, default: Json.Json): (p: ParameterMetadata)
    ensures p.name == name && p.Render() == name
    ensures p.required <==> !optional
    ensures optional ==> p.GetDefaultValue() == Ok(default)
    ensures !optional ==> p.GetDefaultValue().Err? && p.defaultValue == Json.JNull
  {
    if optional then ParameterMetadata(name, false, default) else ParameterMetadata(name, true, Json.JNull)
  }
}

/** The fields and export shared by raw variations and final properties
    (AbstractPropertyMetadata.php). */
module PropertyBase {
  import opened Wrappers
  import Json
  import opened Accessors
  import opened VersionRanges

  /** AbstractPropertyMetadata::jsonSerialize: name and both flags always; groups, accessor
      and version only when non-empty or defined. */
  function BaseJson(name: string, public: bool, readOnly: bool, groups: seq<string>,
                    accessor: PropertyAccessor, versionRange: VersionRange): seq<(string, Json.Json)>
  {
    Head(name, public, readOnly) + (GroupsEntry(groups) + (AccessorEntry(accessor) + VersionEntry(versionRange)))
  }

  function Head(name: string, public: bool, readOnly: bool): seq<(string, Json.Json)> {
    [("name", Json.JString(name)), ("is_public", Json.JBool(public)), ("is_read_only", Json.JBool(readOnly))]
  }

  function GroupsEntry(groups: seq<string>): (e: seq<(string, Json.Json)>)
    ensures |e| <= 1
  {
    if |groups| > 0 then [("groups", Json.JList(seq(|groups|, i requires 0 <= i < |groups| => Json.JString(groups[i]))))] else []
  }

  function AccessorEntry(accessor: PropertyAccessor): (e: seq<(string, Json.Json)>)
    ensures |e| <= 1
  {
    if accessor.IsDefined() then [("accessor", accessor.ToJson())] else []
  }

  function VersionEntry(versionRange: VersionRange): (e: seq<(string, Json.Json)>)
    ensures |e| <= 1
  {
    if versionRange.IsDefined() then [("version", versionRange.ToJson())] else []
  }

  /** Which optional entries the export carries. */
  lemma {:induction false} BaseJsonEntries(name: string, public: bool, readOnly: bool, groups: seq<string>,
                        accessor: PropertyAccessor, versionRange: VersionRange)
    ensures var j := BaseJson(name, public, readOnly, groups, accessor, versionRange);
      Json.Lookup(j, "name") == Some(Json.JString(name)) &&
      Json.Lookup(j, "is_public") == Some(Json.JBool(public)) &&
      Json.Lookup(j, "is_read_only") == Some(Json.JBool(readOnly)) &&
      (Json.Lookup(j, "groups").Some? <==> |groups| > 0) &&
      (Json.Lookup(j, "accessor").Some? <==> accessor.HasGetterMethod()) &&
      (Json.Lookup(j, "version").Some? <==> versionRange.IsDefined())
  {
    var head, g, a, v := Head(name, public, readOnly), GroupsEntry(groups), AccessorEntry(accessor), VersionEntry(versionRange);
    HeadLookups(name, public, readOnly);
    LookupAtMostOne(g);
    LookupAtMostOne(a);
    LookupAtMostOne(v);
    LookupParts(head, g, a, v, "name");
    LookupParts(head, g, a, v, "is_public");
    LookupParts(head, g, a, v, "is_read_only");
    LookupParts(head, g, a, v, "groups");
    LookupParts(head, g, a, v, "accessor");
    LookupParts(head, g, a, v, "version");
  }

  /** The three entries every export starts with, and what they do not hold. */
  lemma {:induction false} HeadLookups(name: string, public: bool, readOnly: bool)
    ensures var head := Head(name, public, readOnly);
      Json.Lookup(head, "name") == Some(Json.JString(name)) &&
      Json.Lookup(head, "is_public") == Some(Json.JBool(public)) &&
      Json.Lookup(head, "is_read_only") == Some(Json.JBool(readOnly)) &&
      Json.Lookup(head, "groups") == None && Json.Lookup(head, "accessor") == None &&
      Json.Lookup(head, "version") == None
  {
    var head := Head(name, public, readOnly);
    var tail := head[1..];
    assert tail[1..][1..] == [];
    assert Json.Lookup(tail[1..], "is_read_only") == Some(Json.JBool(readOnly));
    assert Json.Lookup(tail, "is_read_only") == Some(Json.JBool(readOnly));
    assert Json.Lookup(tail[1..], "groups") == None;
    assert Json.Lookup(tail[1..], "accessor") == None;
    assert Json.Lookup(tail[1..], "version") == None;
  }

  /** An optional entry holds its own key and nothing else. */
  lemma {:induction false} LookupAtMostOne(s: seq<(string, Json.Json)>)
    requires |s| <= 1
    ensures forall k :: Json.Lookup(s, k) == if |s| == 1 && s[0].0 == k then Some(s[0].1) else None
  {
    if |s| == 1 {
      assert s[1..] == [];
    }
  }

  lemma {:induction false} LookupParts(head: seq<(string, Json.Json)>, g: seq<(string, Json.Json)>, a: seq<(string, Json.Json)>,
                    v: seq<(string, Json.Json)>, k: string)
    ensures Json.Lookup(head + (g + (a + v)), k) ==
      if Json.Lookup(head, k).Some? then Json.Lookup(head, k)
      else if Json.Lookup(g, k).Some? then Json.Lookup(g, k)
      else if Json.Lookup(a, k).Some? then Json.Lookup(a, k)
      else Json.Lookup(v, k)
  {
    Json.LookupConcat(head, g + (a + v), k);
    Json.LookupConcat(g, a + v, k);
    Json.LookupConcat(a, v, k);
  }
}
