/** One candidate for a serialized name, filled in by the model parsers
    (PropertyVariationMetadata.php). */
module Variations {
  import opened Wrappers
  import Json
  import opened Accessors
  import opened VersionRanges
  import opened PropertyTypes
  import PropertyBase

  /** The state of a variation at one moment; the reducers work on these values. */
  datatype Variation = Variation(
    name: string,
    readOnly: bool,
    public: bool,
    groups: seq<string>,
    accessor: PropertyAccessor,
    versionRange: VersionRange,
    propertyType: PropertyType,
    preferred: bool,
    customInformation: map<string, Json.Json>)

  class PropertyVariationMetadata {
    /** Name of the PHP property, or of the method for a virtual property. */
    const name: string
    var readOnly: bool
    var public: bool
    var groups: seq<string>
    var accessor: PropertyAccessor
    var versionRange: VersionRange
    var propertyType: PropertyType
    var preferred: bool
    var customInformation: map<string, Json.Json>

    function Snapshot(): Variation
      reads this
    {
      Variation(name, readOnly, public, groups, accessor, versionRange, propertyType, preferred, customInformation)
    }

    /** A new variation: type Unknown(nullable), no accessor, unbounded versions, no groups. */
    constructor (name: string, readOnly: bool, public: bool, preferred: bool := false)
      ensures this.name == name && this.readOnly == readOnly && this.public == public
      ensures this.preferred == preferred && propertyType == Unknown(true)
      ensures groups == [] && customInformation == map[]
      ensures !accessor.HasGetterMethod() && !accessor.HasSetterMethod()
      ensures !versionRange.IsDefined() && forall v :: versionRange.IsIncluded(v)
    {
      this.name := name;
      this.readOnly := readOnly;
      this.public := public;
      groups := [];
      accessor := NoAccessor();
      versionRange := All();
      propertyType := Unknown(true);
      this.preferred := preferred;
      customInformation := map[];
    }

    /** PropertyVariationMetadata::fromReflection: never read-only, public as the PHP property. */
    static method FromReflection(propertyName: string, isPublic: bool) returns (v: PropertyVariationMetadata)
      ensures fresh(v)
      ensures v.Snapshot() == Variation(propertyName, false, isPublic, [], NoAccessor(), All(), Unknown(true), false, map[])
    {
      v := new PropertyVariationMetadata(propertyName, false, isPublic);
    }

    method SetType(t: PropertyType)
      modifies this
      ensures Snapshot() == old(Snapshot()).(propertyType := t)
    {
      propertyType := t;
    }

    method SetPreferred(p: bool)
      modifies this
      ensures Snapshot() == old(Snapshot()).(preferred := p)
    {
      preferred := p;
    }

    method SetReadOnly(r: bool)
      modifies this
      ensures Snapshot() == old(Snapshot()).(readOnly := r)
    {
      readOnly := r;
    }

    method SetPublic(p: bool)
      modifies this
      ensures Snapshot() == old(Snapshot()).(public := p)
    {
      public := p;
    }

    method SetGroups(g: seq<string>)
      modifies this
      ensures Snapshot() == old(Snapshot()).(groups := g)
    {
      groups := g;
    }

    method SetAccessor(a: PropertyAccessor)
      modifies this
      ensures Snapshot() == old(Snapshot()).(accessor := a)
    {
      accessor := a;
    }

    method SetVersionRange(r: VersionRange)
      modifies this
      ensures Snapshot() == old(Snapshot()).(versionRange := r)
    {
      versionRange := r;
    }

    /** Stores one custom entry, replacing an earlier value under the same key. */
    method SetCustomInformation(key: string, value: Json.Json)
      modifies this
      ensures Snapshot() == old(Snapshot()).(customInformation := old(customInformation)[key := value])
    {
      customInformation := customInformation[key := value];
    }

    function ToJson(): Json.Json
      reads this
    {
      VariationJson(Snapshot())
    }
  }

  /** The states of a list of variations, in order. */
  function Snapshots(vs: seq<PropertyVariationMetadata>): (r: seq<Variation>)
    reads set v | v in vs
    ensures |r| == |vs|
    ensures forall i :: 0 <= i < |vs| ==> r[i] == vs[i].Snapshot()
  {
    if |vs| == 0 then [] else [vs[0].Snapshot()] + Snapshots(vs[1..])
  }

  /** The shared export with the type's rendering appended under "type". */
  function VariationJson(v: Variation): (j: Json.Json)
    ensures j.JObject? && |j.fields| > 0
    ensures j.fields[|j.fields| - 1] == ("type", Json.JString(Render(v.propertyType)))
  {
    Json.JObject(PropertyBase.BaseJson(v.name, v.public, v.readOnly, v.groups, v.accessor, v.versionRange)
      + [("type", Json.JString(Render(v.propertyType)))])
  }
}

/** The final, immutable property (PropertyMetadata.php). */
module Properties {
  import opened Wrappers
  import Json
  import opened Accessors
  import opened VersionRanges
  import opened PropertyTypes
  import opened Variations
  import PropertyBase

  datatype PropertyMetadata = PropertyMetadata(
    serializedName: string,
    name: string,
    propertyType: PropertyType,
    readOnly: bool,
    public: bool,
    versionRange: VersionRange,
    groups: seq<string>,
    accessor: PropertyAccessor,
    customInformation: map<string, Json.Json>)
  {
    /** __toString is the serialized name, not the PHP name. */
    function Render(): string {
      serializedName
    }

    /** serialized_name first, then the shared fields, then the type's rendering. */
    function ToJson(): (j: Json.Json)
      ensures j.JObject? && |j.fields| > 1
      ensures j.fields[0] == ("serialized_name", Json.JString(serializedName))
      ensures j.fields[|j.fields| - 1] == ("type", Json.JString(PropertyTypes.Render(propertyType)))
    {
      Json.JObject([("serialized_name", Json.JString(serializedName))]
        + PropertyBase.BaseJson(name, public, readOnly, groups, accessor, versionRange)
        + [("type", Json.JString(PropertyTypes.Render(propertyType)))])
    }
  }

  /** new PropertyMetadata(...) with its defaults: type Unknown(true), read-only, not public,
      unbounded versions, no groups, and no accessor unless one is given. */
  function NewProperty(serializedName: string, name: string, propertyType: Option<PropertyType> := None,
                       readOnly: bool := true, public: bool := false,
                       versionRange: Option<VersionRange> := None, groups: seq<string> := [],
                       accessor: Option<PropertyAccessor> := None,
                       customInformation: map<string, Json.Json> := map[]): (p: PropertyMetadata)
    ensures p.serializedName == serializedName && p.name == name
    ensures p.readOnly == readOnly && p.public == public && p.groups == groups
    ensures p.customInformation == customInformation
    ensures propertyType.None? ==> p.propertyType == Unknown(true)
    ensures propertyType.Some? ==> p.propertyType == propertyType.value
    ensures versionRange.None? ==> !p.versionRange.IsDefined() && forall v :: p.versionRange.IsIncluded(v)
    ensures versionRange.Some? ==> p.versionRange == versionRange.value
    ensures accessor.None? ==> !p.accessor.HasGetterMethod() && !p.accessor.HasSetterMethod()
    ensures accessor.Some? ==> p.accessor == accessor.value
  {
    PropertyMetadata(serializedName, name, propertyType.GetOr(Unknown(true)), readOnly, public,
      versionRange.GetOr(VersionRange(None, None)), groups, accessor.GetOr(NoAccessor()), customInformation)
  }

  /** PropertyMetadata::fromRawProperty: everything but the serialized name comes from the variation. */
  function FromRawProperty(serializedName: string, v: Variation): (p: PropertyMetadata)
    ensures p.serializedName == serializedName && p.Render() == serializedName
    ensures p.name == v.name && p.propertyType == v.propertyType && p.readOnly == v.readOnly && p.public == v.public
    ensures p.versionRange == v.versionRange && p.groups == v.groups && p.accessor == v.accessor
    ensures p.customInformation == v.customInformation
  {
    NewProperty(serializedName, v.name, Some(v.propertyType), v.readOnly, v.public, Some(v.versionRange),
      v.groups, Some(v.accessor), v.customInformation)
  }
}
