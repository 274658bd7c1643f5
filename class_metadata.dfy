/** The final metadata of one class (ClassMetadata.php): properties with pairwise
    distinct serialized names, constructor parameters and post-deserialize hooks. */
module Classes {
  import opened Wrappers
  import opened Errors
  import Json
  import opened Sequences
  import opened Parameters
  import opened Properties
  import RawClasses

  datatype ClassMetadata = ClassMetadata(
    className: string,
    properties: seq<PropertyMetadata>,
    constructorParameters: seq<ParameterMetadata>,
    postDeserializeMethods: seq<string>)
  {
    /** What the constructor guarantees of every instance. */
    predicate Valid() {
      DistinctSerializedNames(properties)
    }

    /** __toString */
    function Render(): string {
      className
    }

    /** array_filter over class name, properties, hooks and parameters: empty lists and a
        falsy class name are dropped. */
    function ToJson(): Json.Json {
      Json.JObject(Json.ArrayFilter([
        ("class_name", Json.JString(className)),
        ("properties", Json.JList(seq(|properties|, i requires 0 <= i < |properties| => properties[i].ToJson()))),
        ("post_deserialize_method", Json.JList(seq(|postDeserializeMethods|, i requires 0 <= i < |postDeserializeMethods| => Json.JString(postDeserializeMethods[i])))),
        ("constructor_parameters", Json.JList(seq(|constructorParameters|, i requires 0 <= i < |constructorParameters| => constructorParameters[i].ToJson())))]))
    }
  }

  predicate DistinctSerializedNames(ps: seq<PropertyMetadata>) {
    forall i, j :: 0 <= i < j < |ps| ==> ps[i].serializedName != ps[j].serializedName
  }

  /** The property at `j` reuses the serialized name of an earlier one. */
  predicate RepeatsEarlier(ps: seq<PropertyMetadata>, j: nat)
    requires j < |ps|
  {
    exists i :: 0 <= i < j && ps[i].serializedName == ps[j].serializedName
  }

  /** The first position at or after `from` that reuses an earlier serialized name. */
  function FirstRepeat(ps: seq<PropertyMetadata>, from: nat): (r: Option<nat>)
    requires from <= |ps|
    decreases |ps| - from
    ensures r.Some? ==> from <= r.value < |ps| && RepeatsEarlier(ps, r.value)
    ensures r.Some? ==> forall j :: from <= j < r.value ==> !RepeatsEarlier(ps, j)
    ensures r.None? ==> forall j :: from <= j < |ps| ==> !RepeatsEarlier(ps, j)
  {
    if from == |ps| then None
    else if RepeatsEarlier(ps, from) then Some(from)
    else FirstRepeat(ps, from + 1)
  }

  lemma {:induction false} DistinctIffNoRepeat(ps: seq<PropertyMetadata>)
    ensures DistinctSerializedNames(ps) <==> forall j :: 0 <= j < |ps| ==> !RepeatsEarlier(ps, j)
  {
    if !DistinctSerializedNames(ps) {
      var i, j :| 0 <= i < j < |ps| && ps[i].serializedName == ps[j].serializedName;
      assert RepeatsEarlier(ps, j);
    }
  }

  /** What `new ClassMetadata(...)` produces: the record itself, or propertyAlreadyExists for
      the first property whose serialized name was already added. */
  function Create(className: string, properties: seq<PropertyMetadata>,
                  constructorParameters: seq<ParameterMetadata>, postDeserializeMethods: seq<string>): (r: Result<ClassMetadata>)
    ensures r.Ok? <==> DistinctSerializedNames(properties)
    ensures r.Ok? ==> r.value.Valid() && r.value.properties == properties && r.value.className == className
    ensures r.Ok? ==> r.value.constructorParameters == constructorParameters && r.value.postDeserializeMethods == postDeserializeMethods
    ensures r.Err? ==> exists j :: 0 <= j < |properties| && RepeatsEarlier(properties, j)
                                   && (forall k :: 0 <= k < j ==> !RepeatsEarlier(properties, k))
                                   && r.error == PropertyAlreadyExists(properties[j].serializedName, className)
  {
    DistinctIffNoRepeat(properties);
    match FirstRepeat(properties, 0)
    case Some(j) => Err(PropertyAlreadyExists(properties[j].serializedName, className))
    case None => Ok(ClassMetadata(className, properties, constructorParameters, postDeserializeMethods))
  }

  /** ClassMetadata::addProperty: scans the properties added so far for the serialized name. */
  method AddProperty(className: string, added: seq<PropertyMetadata>, property: PropertyMetadata)
    returns (r: Result<seq<PropertyMetadata>>)
    ensures r.Ok? <==> forall i :: 0 <= i < |added| ==> added[i].serializedName != property.serializedName
    ensures r.Ok? ==> r.value == added + [property]
    ensures r.Err? ==> r.error == PropertyAlreadyExists(property.serializedName, className)
  {
    var i := 0;
    while i < |added|
      invariant 0 <= i <= |added|
      invariant forall k :: 0 <= k < i ==> added[k].serializedName != property.serializedName
    {
      if added[i].serializedName == property.serializedName {
        return Err(PropertyAlreadyExists(property.serializedName, className));
      }
      i := i + 1;
    }
    return Ok(added + [property]);
  }

  /** The constructor: adds the properties one by one in order. */
  method NewClassMetadata(className: string, properties: seq<PropertyMetadata>,
                          constructorParameters: seq<ParameterMetadata>, postDeserializeMethods: seq<string>)
    returns (r: Result<ClassMetadata>)
    ensures r == Create(className, properties, constructorParameters, postDeserializeMethods)
  {
    DistinctIffNoRepeat(properties);
    var added: seq<PropertyMetadata> := [];
    var i := 0;
    while i < |properties|
      invariant 0 <= i <= |properties|
      invariant added == properties[..i]
      invariant forall j :: 0 <= j < i ==> !RepeatsEarlier(properties, j)
    {
      var next := AddProperty(className, added, properties[i]);
      if next.Err? {
        assert RepeatsEarlier(properties, i);
        return Err(next.error);
      }
      added := next.value;
      i := i + 1;
      assert !RepeatsEarlier(properties, i - 1);
    }
    assert added == properties;
    return Ok(ClassMetadata(className, added, constructorParameters, postDeserializeMethods));
  }

  /** ClassMetadata::fromRawClassMetadata: the class name, constructor parameters and
      post-deserialize hooks come from the raw record, the properties from the caller. */
  method FromRawClassMetadata(raw: RawClasses.RawClassMetadata, properties: seq<PropertyMetadata>)
    returns (r: Result<ClassMetadata>)
    ensures r.Ok? <==> DistinctSerializedNames(properties)
    ensures r.Ok? ==> r.value == ClassMetadata(raw.className, properties, raw.constructorParameters, raw.postDeserializeMethods)
    ensures r == Create(raw.className, properties, raw.constructorParameters, raw.postDeserializeMethods)
  {
    r := NewClassMetadata(raw.className, properties, raw.constructorParameters, raw.postDeserializeMethods);
  }

  /** Keeping an order-preserving selection of distinct names keeps them distinct. */
  lemma {:induction false} FilterDistinct(ps: seq<PropertyMetadata>, keep: PropertyMetadata -> bool)
    requires DistinctSerializedNames(ps)
    ensures DistinctSerializedNames(Filter(ps, keep))
  {
    if |ps| > 0 {
      FilterDistinct(ps[1..], keep);
      FilterSubsequence(ps[1..], keep);
      if keep(ps[0]) {
        var f := Filter(ps, keep);
        assert f == [ps[0]] + Filter(ps[1..], keep);
        forall j | 1 <= j < |f| ensures f[0].serializedName != f[j].serializedName {
          assert f[j] in Filter(ps[1..], keep);
          var k :| 0 <= k < |ps[1..]| && ps[1..][k] == f[j];
          assert ps[k + 1] == f[j];
        }
      }
    }
  }

  /** ClassMetadata::withoutProperties: a copy without the properties whose PHP name is
      listed; everything else, including the order, is kept. */
  function WithoutProperties(cm: ClassMetadata, propertyNames: seq<string>): (r: ClassMetadata)
    requires cm.Valid()
    ensures r.Valid()
    ensures r.className == cm.className && r.constructorParameters == cm.constructorParameters
    ensures r.postDeserializeMethods == cm.postDeserializeMethods
    ensures Subsequence(r.properties, cm.properties)
    ensures forall p :: p in r.properties <==> p in cm.properties && p.name !in propertyNames
  {
    var keep := (p: PropertyMetadata) => p.name !in propertyNames;
    FilterDistinct(cm.properties, keep);
    FilterSubsequence(cm.properties, keep);
    Create(cm.className, Filter(cm.properties, keep), cm.constructorParameters, cm.postDeserializeMethods).value
  }

  /** Removing nothing gives back an equal record. */
  lemma {:induction false} WithoutNothing(cm: ClassMetadata)
    requires cm.Valid()
    ensures WithoutProperties(cm, []) == cm
  {
    FilterAll(cm.properties, (p: PropertyMetadata) => p.name !in []);
  }

  /** ClassMetadata::hasConstructorParameter */
  method HasConstructorParameter(cm: ClassMetadata, name: string) returns (found: bool)
    ensures found <==> exists i :: 0 <= i < |cm.constructorParameters| && cm.constructorParameters[i].name == name
  {
    var i := 0;
    while i < |cm.constructorParameters|
      invariant 0 <= i <= |cm.constructorParameters|
      invariant forall k :: 0 <= k < i ==> cm.constructorParameters[k].name != name
    {
      if cm.constructorParameters[i].name == name {
        return true;
      }
      i := i + 1;
    }
    return false;
  }

  /** ClassMetadata::getConstructorParameter: the first parameter with that name. */
  method GetConstructorParameter(cm: ClassMetadata, name: string) returns (r: Result<ParameterMetadata>)
    ensures r.Ok? <==> exists i :: 0 <= i < |cm.constructorParameters| && cm.constructorParameters[i].name == name
    ensures r.Ok? ==> exists i :: 0 <= i < |cm.constructorParameters| && cm.constructorParameters[i] == r.value
                        && r.value.name == name && forall k :: 0 <= k < i ==> cm.constructorParameters[k].name != name
    ensures r.Err? ==> r.error == NotFound(name)
  {
    var i := 0;
    while i < |cm.constructorParameters|
      invariant 0 <= i <= |cm.constructorParameters|
      invariant forall k :: 0 <= k < i ==> cm.constructorParameters[k].name != name
    {
      if cm.constructorParameters[i].name == name {
        return Ok(cm.constructorParameters[i]);
      }
      i := i + 1;
    }
    return Err(NotFound(name));
  }
}
