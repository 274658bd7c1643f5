/** All variations that share one serialized name (PropertyCollection.php). */
module Collections {
  import opened Wrappers
  import opened Errors
  import opened Strings
  import Json
  import opened Variations

  /** PropertyCollection::serializedName: an underscore before every upper-case letter,
      then everything lower-cased ("fooBar" becomes "foo_bar"). */
  function SerializedName(name: string): string {
    if |name| == 0 then ""
    else (if IsUpper(name[0]) then ['_', ToLower(name[0])] else [name[0]]) + SerializedName(name[1..])
  }

  predicate IsNormalised(s: string) {
    forall i :: 0 <= i < |s| ==> !IsUpper(s[i])
  }

  /** The normalised name never holds an upper-case letter. */
  lemma {:induction false} SerializedNameNormalised(name: string)
    ensures IsNormalised(SerializedName(name))
  {
    if |name| > 0 {
      SerializedNameNormalised(name[1..]);
      var head := if IsUpper(name[0]) then ['_', ToLower(name[0])] else [name[0]];
      assert SerializedName(name) == head + SerializedName(name[1..]);
      forall i | 0 <= i < |SerializedName(name)| ensures !IsUpper(SerializedName(name)[i]) {
        if i >= |head| {
          assert SerializedName(name)[i] == SerializedName(name[1..])[i - |head|];
        }
      }
    }
  }

  /** A name without upper-case letters is left as it is. */
  lemma {:induction false} NormalisedFixpoint(s: string)
    requires IsNormalised(s)
    ensures SerializedName(s) == s
  {
    if |s| > 0 {
      NormalisedFixpoint(s[1..]);
      assert s == [s[0]] + s[1..];
    }
  }

  /** Normalising twice is normalising once. */
  lemma {:induction false} SerializedNameIdempotent(name: string)
    ensures SerializedName(SerializedName(name)) == SerializedName(name)
  {
    SerializedNameNormalised(name);
    NormalisedFixpoint(SerializedName(name));
  }

  /** The first position in `order` holding `name` (array_search with strict comparison). */
  function IndexIn(order: seq<string>, name: string): (r: Option<nat>)
    ensures r.Some? ==> r.value < |order| && order[r.value] == name
    ensures r.Some? ==> forall m :: 0 <= m < r.value ==> order[m] != name
    ensures r.None? <==> name !in order
  {
    if |order| == 0 then None
    else if order[0] == name then Some(0)
    else match IndexIn(order[1..], name)
      case None => None
      case Some(k) => Some(k + 1)
  }

  lemma {:induction false} IndexInIsFirst(order: seq<string>, name: string, i: nat)
    requires i < |order| && order[i] == name
    requires forall m :: 0 <= m < i ==> order[m] != name
    ensures IndexIn(order, name) == Some(i)
  {
  }

  /** The position of the first variation named `name`. */
  function FirstNamed(vs: seq<PropertyVariationMetadata>, name: string): (r: Option<nat>)
    ensures r.None? <==> forall i :: 0 <= i < |vs| ==> vs[i].name != name
    ensures r.Some? ==> r.value < |vs| && vs[r.value].name == name
    ensures r.Some? ==> forall k :: 0 <= k < r.value ==> vs[k].name != name
  {
    if |vs| == 0 then None
    else if vs[0].name == name then Some(0)
    else match FirstNamed(vs[1..], name)
      case None => None
      case Some(k) => Some(k + 1)
  }

  lemma {:induction false} FirstNamedIsFirst(vs: seq<PropertyVariationMetadata>, name: string, i: nat)
    requires i < |vs| && vs[i].name == name
    requires forall k :: 0 <= k < i ==> vs[k].name != name
    ensures FirstNamed(vs, name) == Some(i)
  {
  }

  /** The variations without the first one named `name` (all of them when none is). */
  function RemoveFirst(vs: seq<PropertyVariationMetadata>, name: string): seq<PropertyVariationMetadata> {
    match FirstNamed(vs, name)
    case None => vs
    case Some(i) => vs[..i] + vs[i + 1..]
  }

  /** Removing drops exactly one variation, the first of that name, when there is one. */
  lemma {:induction false} RemoveFirstDropsOne(vs: seq<PropertyVariationMetadata>, name: string)
    ensures FirstNamed(vs, name).None? ==> RemoveFirst(vs, name) == vs
    ensures FirstNamed(vs, name).Some? ==>
      |RemoveFirst(vs, name)| == |vs| - 1
      && multiset(RemoveFirst(vs, name)) + multiset{vs[FirstNamed(vs, name).value]} == multiset(vs)
  {
    if FirstNamed(vs, name).Some? {
      var i := FirstNamed(vs, name).value;
      var front, back := vs[..i], vs[i + 1..];
      assert RemoveFirst(vs, name) == front + back;
      assert vs == front + [vs[i]] + back;
      assert multiset(vs) == multiset(front) + multiset{vs[i]} + multiset(back);
    }
  }

  class PropertyCollection {
    var serializedName: string
    var variations: seq<PropertyVariationMetadata>

    /** The stored name is always normalised. */
    ghost predicate Valid()
      reads this
    {
      IsNormalised(serializedName)
    }

    constructor (name: string)
      ensures Valid()
      ensures serializedName == SerializedName(name) && variations == []
    {
      serializedName := SerializedName(name);
      variations := [];
      SerializedNameNormalised(name);
    }

    /** __toString */
    function Render(): string
      reads this
    {
      serializedName
    }

    method SetSerializedName(name: string)
      modifies this
      ensures Valid()
      ensures serializedName == SerializedName(name) && variations == old(variations)
    {
      serializedName := SerializedName(name);
      SerializedNameNormalised(name);
    }

    /** Appends without looking for an existing variation of the same name. */
    method AddVariation(v: PropertyVariationMetadata)
      modifies this
      ensures variations == old(variations) + [v] && serializedName == old(serializedName)
    {
      variations := variations + [v];
    }

    /** PropertyCollection::findVariation: the first variation with that PHP name. */
    method FindVariation(name: string) returns (r: Option<PropertyVariationMetadata>)
      ensures r.None? <==> FirstNamed(variations, name).None?
      ensures r.Some? ==> r.value == variations[FirstNamed(variations, name).value] && r.value.name == name
    {
      var i := 0;
      while i < |variations|
        invariant 0 <= i <= |variations|
        invariant forall k :: 0 <= k < i ==> variations[k].name != name
      {
        if variations[i].name == name {
          FirstNamedIsFirst(variations, name, i);
          return Some(variations[i]);
        }
        i := i + 1;
      }
      return None;
    }

    method HasVariation(name: string) returns (found: bool)
      ensures found <==> FirstNamed(variations, name).Some?
    {
      var r := FindVariation(name);
      found := r.Some?;
    }

    /** The first variation with that name, or UnexpectedValueException. */
    method GetVariation(name: string) returns (r: Result<PropertyVariationMetadata>)
      ensures r.Err? <==> forall i :: 0 <= i < |variations| ==> variations[i].name != name
      ensures r.Err? ==> r.error == NotFound(name)
      ensures r.Ok? ==> r.value == variations[FirstNamed(variations, name).value] && r.value.name == name
    {
      var found := FindVariation(name);
      if found.None? {
        return Err(NotFound(name));
      }
      return Ok(found.value);
    }

    /** Removes the first variation with that name only; the others keep their order. */
    method RemoveVariation(name: string)
      modifies this
      ensures serializedName == old(serializedName)
      ensures variations == RemoveFirst(old(variations), name)
    {
      var i := 0;
      while i < |variations|
        invariant 0 <= i <= |variations|
        invariant variations == old(variations)
        invariant forall k :: 0 <= k < i ==> variations[k].name != name
      {
        if variations[i].name == name {
          FirstNamedIsFirst(variations, name, i);
          variations := variations[..i] + variations[i + 1..];
          return;
        }
        i := i + 1;
      }
    }

    /** PropertyCollection::getPosition: the index in `order` of the first variation, in
        variation order, whose name appears there at all. */
    method GetPosition(order: seq<string>) returns (pos: Option<nat>)
      ensures pos.None? <==> forall i :: 0 <= i < |variations| ==> variations[i].name !in order
      ensures pos.Some? ==> (exists i :: 0 <= i < |variations| && pos == IndexIn(order, variations[i].name)
                               && forall k :: 0 <= k < i ==> variations[k].name !in order)
    {
      var i := 0;
      while i < |variations|
        invariant 0 <= i <= |variations|
        invariant forall k :: 0 <= k < i ==> variations[k].name !in order
      {
        var p := IndexIn(order, variations[i].name);
        if p.Some? {
          return p;
        }
        i := i + 1;
      }
      return None;
    }

    function ToJson(): Json.Json
      reads this, variations
    {
      Json.JObject([
        ("serialized_name", Json.JString(serializedName)),
        ("variations", Json.JList(VariationsJson(variations)))])
    }
  }

  function VariationsJson(vs: seq<PropertyVariationMetadata>): (r: seq<Json.Json>)
    reads set v | v in vs
    ensures |r| == |vs|
  {
    if |vs| == 0 then [] else [vs[0].ToJson()] + VariationsJson(vs[1..])
  }
}
