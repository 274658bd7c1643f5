# liip/metadata-parser, modelled in Dafny

The metadata parser turns a root PHP class into serialization metadata: one record per
class, holding its properties, their types and the records of the classes they refer to.
It works in stages:

- **Model parsers** (reflection, PHPDoc, JMS and Liip annotations) fill one raw record
  per class. The record is an ordered list of *property collections*. A collection is
  keyed by a normalised serialized name and holds the *variations* found for that name.
- **The parser** walks the class graph from the root. It registers each class once in a
  registry and then follows every variation whose type leads to a class.
- **Reducers** (group, version, oldest version, preferred, take-best) choose among the
  variations of each collection. The first survivor becomes the final property.
- **The builder** reduces every raw record and attaches to each class-typed property the
  record built for its class. It then runs **the recursion checker** from the root. The
  checker prunes properties that an expected-recursion pattern names. It rejects a
  class that would occur a third time on one path.
- **Two type-string front ends** produce the property types. One reads PHPDoc strings
  such as `int[]|null`. The other reads the parameter tree of JMS `@Type` strings.
- **Property types** form a closed family: Unknown, Primitive, Class, DateTime, Array
  and Iterable. Each has a rendering and a partial, asymmetric `merge`.

## Files

Each Dafny file models one part of the library:

- `property_types.dfy` and `property_type_laws.dfy`: the type family, its merges and
  the leaf types.
- `versions.dfy`: version numbers, ranges and the mutable `Version`.
- `property_records.dfy`: accessors, constructor parameters and the shared property
  export.
- `variations.dfy`: variations and final properties.
- `class_metadata.dfy`: final class records.
- `collections.dfy`, `raw_class.dfy` and `registry.dfy`: the raw accumulator.
- `reducers.dfy` and `property_reducer.dfy`: the reducer pipeline.
- `contexts.dfy`: the two context values.
- `parser_steps.dfy`: the calls a model parser makes on a raw record, and what they do to
  it seen as a value.
- `parser.dfy`: the class-graph walk.
- `recursion_checker.dfy`: the links and the checker.
- `builder.dfy`: the build.
- `php_type_parser.dfy` and `jms_type_parser.dfy`: the two front ends.
- `json.dfy`, `strings.dfy`, `sequences.dfy` and `errors.dfy`: shared helpers.

The model keeps the source's split between values and objects:

- Objects the source updates in place are classes with `modifies` frames: variations,
  property collections, raw records, the registry, `Version` and the store of attached
  class metadata.
- Everything else is a datatype with functions.
- Loops in the source are methods with invariants. Each is proved equal to a
  specification function, or to the state change it performs.

Exceptions are the `Err`/`Fail` cases of `Result`/`Outcome`, with one `Error`
constructor per kind.

## Model

| member | source | states |
|---|---|---|
| PropertyTypes.IsTypePrimitiveNames | src/Metadata/PropertyTypePrimitive.php:67-74 | A name is primitive exactly when it is one of string, int, float, bool or the aliases boolean, integer, double, real |
| PropertyTypes.NewPrimitive | src/Metadata/PropertyTypePrimitive.php:28-38 | Construction succeeds exactly for primitive names. The stored name is always canonical and a canonical name is kept. Nullability is the given flag |
| PropertyTypes.NewClass | src/Metadata/PropertyTypeClass.php:21-32 | Primitive and date-time names are an invalid type. A custom name that does not exist is class-not-found. Otherwise the result is that class with the given nullability |
| PropertyTypes.FromDateTimeClass | src/Metadata/PropertyTypeDateTime.php:111-118 | Succeeds exactly for DateTime and DateTimeImmutable. It is immutable exactly for DateTimeImmutable and keeps the nullability and options |
| PropertyTypes.TraversableClassOf | src/Metadata/PropertyTypeIterable.php:82-85 | There is a traversable class exactly when `isTraversable` holds, and it is the stored one |
| PropertyTypes.GetTraversableClass | src/Metadata/PropertyTypeIterable.php:73-80 | Fails unless the iterable is traversable. Otherwise it returns the stored, non-empty class |
| PropertyTypes.GetFormat | src/Metadata/PropertyTypeDateTime.php:43-50 | None without options, otherwise the options' format unchanged |
| PropertyTypes.GetZone | src/Metadata/PropertyTypeDateTime.php:52-59 | None without options, otherwise the options' zone unchanged |
| PropertyTypes.GetDeserializeFormat | src/Metadata/PropertyTypeDateTime.php:64-71 | None without options, otherwise the options' deserialize format unchanged |
| PropertyTypes.FindCommonTraversableClass | src/Metadata/PropertyTypeIterable.php:142-159 | Without one side it is the other. With both, it succeeds exactly when one is a subclass of the other, and then gives the one that is a subclass of both |
| PropertyTypes.Merge | src/Metadata/PropertyTypeUnknown.php:19-26 | Every success ANDs the operands' nullability and keeps the receiver's variant. Unknown on the left accepts only Unknown. A primitive accepts only the same primitive name and a class only the same class. A date-time accepts a date-time of the same immutability, keeping its own options if it has any, and a DateTimeInterface class, becoming immutable exactly for DateTimeImmutable. Every constructible type accepts Unknown on the right, and merging constructible types gives a constructible type. Errors are type conflicts or traversable mismatches |
| PropertyTypes.MergeArray | src/Metadata/PropertyTypeArray.php:63-92 | The result is an array with ANDed nullability. Unknown on the right keeps the array, and anything but an array is refused. A hashmap merged with a list is refused; otherwise the hashmap flags are ORed and, when both elements are known, the array exists exactly when the elements merge and holds their merge |
| PropertyTypes.MergeIterable | src/Metadata/PropertyTypeIterable.php:100-136 | The result is an iterable with ANDed nullability. Unknown on the right keeps it. A traversable iterable absorbs a Traversable class exactly when their common traversable class exists; anything else but an iterable is refused. Two iterables need a common traversable class and, with known elements, elements that merge |
| PropertyTypeLaws.MergeUnknownRight | src/Metadata/PropertyTypeArray.php:65-69 | A constructible type merged with Unknown is itself, with only its nullability ANDed |
| PropertyTypeLaws.MergeIdempotent | src/Metadata/PropertyTypePrimitive.php:50-65 | A constructible type merged with itself is itself |
| PropertyTypeLaws.MergeAsymmetric | src/Metadata/PropertyTypeUnknown.php:19-26 | Unknown merged with a known type fails, while the known type merged with Unknown succeeds |
| PropertyTypeLaws.MergeConflictBothOrders | src/Metadata/PropertyTypeClass.php:63-78 | Two known types of different variants conflict in both orders, except where a date-time or an iterable absorbs a class |
| PropertyTypeLaws.ClassRefusesAbsorbers | src/Metadata/PropertyTypeClass.php:70-72 | The absorptions go one way: a class type merged with a date-time or an iterable fails |
| PropertyTypeLaws.ListToHashmapWidens | src/Metadata/PropertyTypeArray.php:79-83 | A list merged with a hashmap of the same element is that hashmap, but the hashmap merged with the list fails |
| PropertyTypeLaws.MergeArrayUnknownElement | src/Metadata/PropertyTypeArray.php:84-89 | An Unknown element on either side is replaced by the other side's element |
| PropertyTypeLaws.MergeIterableUnknownElement | src/Metadata/PropertyTypeIterable.php:124-133 | An Unknown element on either side of two iterables is replaced by the other side's element; the merge then fails exactly when the traversable classes have no common one |
| PropertyTypeLaws.LeafClass | src/Parser.php:55-63 | A type leads to a class exactly when its array leaf is a class type, and then to that class |
| PropertyTypeLaws.MergeLeafClass | src/Metadata/PropertyTypeArray.php:63-92 | The class a merge leads to is the class one of the operands leads to |
| PropertyTypeLaws.ArrayLeafType | src/Metadata/PropertyTypeArray.php:53-61 | The while loop returns the array leaf, which is never an array |
| PropertyTypeLaws.IterableLeafType | src/Metadata/PropertyTypeIterable.php:90-98 | The while loop returns the iterable leaf, which is never an iterable |
| PropertyTypeLaws.ArrayLeafValid | src/Metadata/PropertyTypeArray.php:19-25 | The leaf of a constructible type is constructible and not an array |
| PropertyTypeLaws.ArrayLeafOfIterable | src/Builder.php:77-91 | Only arrays are unwrapped: the array leaf of an iterable is the iterable itself |
| VersionOrder.LessIrreflexive | src/Metadata/VersionRange.php:104-114 | No version is lower than itself |
| VersionOrder.LessTransitive | src/Metadata/VersionRange.php:104-114 | The version order is transitive |
| VersionOrder.LessTotal | src/Metadata/VersionRange.php:104-114 | Two different versions are always comparable |
| VersionOrder.LessAsymmetric | src/Metadata/VersionRange.php:104-114 | If a is lower than b, then b is not lower than a |
| VersionRanges.VersionRange.WithSince | src/Metadata/VersionRange.php:88-94 | The copy has the new lower bound and the old upper bound, and it is defined |
| VersionRanges.VersionRange.WithUntil | src/Metadata/VersionRange.php:96-102 | The copy has the new upper bound and the old lower bound, and it is defined |
| VersionRanges.All | src/Metadata/VersionRange.php:28-31 | The unbounded range is not defined and includes every version |
| VersionRanges.BoundsIncluded | src/Metadata/VersionRange.php:104-114 | Both bounds are inclusive |
| VersionRanges.IsIncludedBetween | src/Metadata/VersionRange.php:104-114 | A version is included exactly when it is not below a present lower bound and not above a present upper bound |
| VersionRanges.AllowsLowerThanIrreflexive | src/Metadata/VersionRange.php:43-53 | No range allows lower than itself |
| VersionRanges.AllowsLowerThanTransitive | src/Metadata/VersionRange.php:43-53 | "Allows lower than" is transitive |
| VersionRanges.AllowsLowerThanTotal | src/Metadata/VersionRange.php:43-53 | Two ranges where neither allows lower than the other have the same lower bound |
| VersionRanges.AllowsLowerThanWitness | src/Metadata/VersionRange.php:43-53 | If a allows lower than b, then b rejects a's lower bound |
| VersionRanges.AllowsHigherThanIrreflexive | src/Metadata/VersionRange.php:60-70 | No range allows higher than itself |
| VersionRanges.AllowsHigherThanTransitive | src/Metadata/VersionRange.php:60-70 | "Allows higher than" is transitive |
| VersionRanges.AllowsHigherThanWitness | src/Metadata/VersionRange.php:60-70 | If a allows higher than a range b that has an upper bound, then b rejects a's upper bound |
| VersionRanges.ToJsonBounds | src/Metadata/VersionRange.php:116-122 | A range with two truthy bounds exports exactly since and until, rendered |
| Versions.Version.constructor | src/Metadata/Version.php:22-26 | The bounds are the given ones |
| Versions.Version.All | src/Metadata/Version.php:28-31 | A fresh unbounded version: not defined, and it includes everything |
| Versions.Version.SetSince | src/Metadata/Version.php:43-46 | Only the lower bound changes, and the version becomes defined |
| Versions.Version.SetUntil | src/Metadata/Version.php:48-51 | Only the upper bound changes, and the version becomes defined |
| Json.ArrayFilterLookup | src/Metadata/DateTimeOptions.php:51-58 | After array_filter a key is present exactly when its value was truthy, and then with that value |
| Json.ArrayFilterAbsent | src/Metadata/DateTimeOptions.php:51-58 | array_filter never introduces a key |
| Json.ArrayFilterTruthy | src/Metadata/DateTimeOptions.php:51-58 | Only truthy entries of the input survive |
| Accessors.NoAccessor | src/Metadata/PropertyAccessor.php:25-28 | `none()` has neither getter nor setter and is not defined |
| Accessors.IsDefinedOnlyGetter | src/Metadata/PropertyAccessor.php:30-33 | `isDefined` equals `hasGetterMethod`, so a setter-only accessor is undefined |
| Accessors.ToJsonOmitsAbsent | src/Metadata/PropertyAccessor.php:55-61 | The export holds a method name exactly when it is present and truthy |
| Parameters.ParameterMetadata.GetDefaultValue | src/Metadata/ParameterMetadata.php:58-65 | A required parameter fails. An optional one returns the stored default |
| Parameters.FromReflection | src/Metadata/ParameterMetadata.php:36-43 | The parameter is named and rendered as the source parameter. It is required exactly when that is not optional, and only an optional one carries its default |
| PropertyBase.BaseJsonEntries | src/Metadata/AbstractPropertyMetadata.php:92-111 | The export always holds name, is_public and is_read_only. It holds groups only when non-empty, the accessor only when its getter is set, and the version only when defined |
| PropertyBase.HeadLookups | src/Metadata/AbstractPropertyMetadata.php:94-98 | The three leading entries hold the given values and none of the optional keys |
| Variations.PropertyVariationMetadata.constructor | src/ModelParser/RawMetadata/PropertyVariationMetadata.php:33-38 | A new variation has the given name, flags and preference. Its type is nullable Unknown, it has no groups and no custom entries, its accessor is empty and its range is unbounded |
| Variations.PropertyVariationMetadata.FromReflection | src/ModelParser/RawMetadata/PropertyVariationMetadata.php:40-43 | A fresh variation that is not read-only, whose public flag is the property's, and otherwise has the defaults |
| Variations.PropertyVariationMetadata.SetType | src/ModelParser/RawMetadata/PropertyVariationMetadata.php:45-48 | Only the type changes |
| Variations.PropertyVariationMetadata.SetPreferred | src/ModelParser/RawMetadata/PropertyVariationMetadata.php:55-58 | Only the preferred flag changes |
| Variations.PropertyVariationMetadata.SetReadOnly | src/ModelParser/RawMetadata/PropertyVariationMetadata.php:65-68 | Only the read-only flag changes |
| Variations.PropertyVariationMetadata.SetPublic | src/ModelParser/RawMetadata/PropertyVariationMetadata.php:70-73 | Only the public flag changes |
| Variations.PropertyVariationMetadata.SetGroups | src/ModelParser/RawMetadata/PropertyVariationMetadata.php:75-78 | Only the groups change |
| Variations.PropertyVariationMetadata.SetAccessor | src/ModelParser/RawMetadata/PropertyVariationMetadata.php:80-83 | Only the accessor changes |
| Variations.PropertyVariationMetadata.SetVersionRange | src/ModelParser/RawMetadata/PropertyVariationMetadata.php:85-88 | Only the version range changes |
| Variations.PropertyVariationMetadata.SetCustomInformation | src/ModelParser/RawMetadata/PropertyVariationMetadata.php:96-99 | Only the custom entry under that key changes |
| Variations.VariationJson | src/ModelParser/RawMetadata/PropertyVariationMetadata.php:101-107 | The export ends with the type's rendering under "type" |
| Properties.PropertyMetadata.ToJson | src/Metadata/PropertyMetadata.php:79-90 | The export starts with serialized_name and ends with the type's rendering |
| Properties.NewProperty | src/Metadata/PropertyMetadata.php:25-47 | The given fields are kept. The defaults are nullable Unknown, an empty accessor and an unbounded range |
| Properties.FromRawProperty | src/Metadata/PropertyMetadata.php:54-67 | Everything but the serialized name comes from the variation. The property renders as its serialized name |
| Classes.FirstRepeat | src/Metadata/ClassMetadata.php:167-176 | The first position that reuses an earlier serialized name, or none |
| Classes.DistinctIffNoRepeat | src/Metadata/ClassMetadata.php:56-58 | Serialized names are distinct exactly when no property repeats an earlier one |
| Classes.Create | src/Metadata/ClassMetadata.php:46-59 | A record exists exactly when the serialized names are distinct, and it keeps every argument. Otherwise the error is propertyAlreadyExists for the first property whose serialized name repeats an earlier one |
| Classes.AddProperty | src/Metadata/ClassMetadata.php:167-176 | Appends exactly when no added property has the name, and fails with propertyAlreadyExists otherwise |
| Classes.NewClassMetadata | src/Metadata/ClassMetadata.php:46-59 | The constructor's loop computes Create |
| Classes.FromRawClassMetadata | src/Metadata/ClassMetadata.php:69-77 | Class name, constructor parameters and hooks come from the raw record, the properties from the argument |
| Classes.FilterDistinct | src/Metadata/ClassMetadata.php:137-152 | Keeping a selection of properties keeps serialized names distinct |
| Classes.WithoutProperties | src/Metadata/ClassMetadata.php:137-152 | The copy keeps everything but the properties whose PHP name is listed, in order, and stays valid |
| Classes.WithoutNothing | src/Metadata/ClassMetadata.php:137-152 | Removing no names gives an equal record |
| Classes.HasConstructorParameter | src/Metadata/ClassMetadata.php:108-117 | True exactly when some parameter has the name |
| Classes.GetConstructorParameter | src/Metadata/ClassMetadata.php:119-128 | The first parameter with the name, or not-found when there is none |
| Collections.SerializedNameNormalised | src/ModelParser/RawMetadata/PropertyCollection.php:29-32 | A normalised name has no upper-case letter |
| Collections.NormalisedFixpoint | src/ModelParser/RawMetadata/PropertyCollection.php:29-32 | A name without upper-case letters is left as it is |
| Collections.SerializedNameIdempotent | src/ModelParser/RawMetadata/PropertyCollection.php:29-32 | Normalising twice is normalising once |
| Collections.IndexIn | src/ModelParser/RawMetadata/PropertyCollection.php:53 | The first position of the name in the order, or none exactly when it is absent |
| Collections.FirstNamed | src/ModelParser/RawMetadata/PropertyCollection.php:124-133 | The position of the first variation with that name, or none exactly when there is none |
| Collections.RemoveFirstDropsOne | src/ModelParser/RawMetadata/PropertyCollection.php:104-114 | Removing takes out exactly the first variation with the name, or nothing when none has it |
| Collections.PropertyCollection.constructor | src/ModelParser/RawMetadata/PropertyCollection.php:19-22 | The stored name is the normalised one, and there are no variations |
| Collections.PropertyCollection.SetSerializedName | src/ModelParser/RawMetadata/PropertyCollection.php:61-64 | The stored name becomes the normalised new name. The variations are kept |
| Collections.PropertyCollection.AddVariation | src/ModelParser/RawMetadata/PropertyCollection.php:71-74 | Appends the variation without deduplication |
| Collections.PropertyCollection.FindVariation | src/ModelParser/RawMetadata/PropertyCollection.php:124-133 | The first variation with the name, or none exactly when none has it |
| Collections.PropertyCollection.HasVariation | src/ModelParser/RawMetadata/PropertyCollection.php:84-87 | True exactly when some variation has the name |
| Collections.PropertyCollection.GetVariation | src/ModelParser/RawMetadata/PropertyCollection.php:94-102 | The first variation with the name, or not-found |
| Collections.PropertyCollection.RemoveVariation | src/ModelParser/RawMetadata/PropertyCollection.php:104-114 | Only the first variation with the name is removed. The others keep their order |
| Collections.PropertyCollection.GetPosition | src/ModelParser/RawMetadata/PropertyCollection.php:49-59 | The order index of the first variation, in variation order, whose name appears there, or none exactly when no name appears |
| RawClasses.Holder | src/ModelParser/RawMetadata/RawClassMetadata.php:251-260 | The first collection that holds a variation with the name |
| RawClasses.AppendAddsOne | src/ModelParser/RawMetadata/RawClassMetadata.php:85-95 | Appending to one collection adds exactly that variation to all variations |
| RawClasses.RemoveFromListKeepsOthers | src/ModelParser/RawMetadata/RawClassMetadata.php:138-151 | Removing from one collection, and dropping it when empty, takes out exactly the removed variation |
| RawClasses.RawClassMetadata.Position | src/ModelParser/RawMetadata/RawClassMetadata.php:239-249 | The position of the collection whose name equals the normalised query, or none exactly when there is none |
| RawClasses.RawClassMetadata.constructor | src/ModelParser/RawMetadata/RawClassMetadata.php:42-45 | An empty record for the class name |
| RawClasses.RawClassMetadata.FindPropertyCollection | src/ModelParser/RawMetadata/RawClassMetadata.php:239-249 | The collection of the normalised name, or none |
| RawClasses.RawClassMetadata.HasPropertyCollection | src/ModelParser/RawMetadata/RawClassMetadata.php:163-166 | True exactly when the normalised name has a collection |
| RawClasses.RawClassMetadata.GetPropertyCollection | src/ModelParser/RawMetadata/RawClassMetadata.php:173-181 | That collection, or not-found |
| RawClasses.RawClassMetadata.AddPropertyCollection | src/ModelParser/RawMetadata/RawClassMetadata.php:186-193 | Appends a collection with a new name. A taken name fails and changes nothing. Names stay distinct |
| RawClasses.RawClassMetadata.AddPropertyVariation | src/ModelParser/RawMetadata/RawClassMetadata.php:85-95 | Appends to the collection of the normalised name, or to a new collection created at the end. Nothing else changes |
| RawClasses.RawClassMetadata.AddCollectionWith | src/ModelParser/RawMetadata/RawClassMetadata.php:89-94 | A name with no collection gets a new last collection holding the variation. Nothing else changes |
| RawClasses.RawClassMetadata.AppendToCollection | src/ModelParser/RawMetadata/RawClassMetadata.php:92 | Only collection k gains the variation |
| RawClasses.RawClassMetadata.RenameProperty | src/ModelParser/RawMetadata/RawClassMetadata.php:105-129 | A missing source or a rename onto itself fails and changes nothing. A free target renames in place. A taken target moves its variations into the source, drops the target and renames the source. No variation is lost or added |
| RawClasses.RawClassMetadata.AbsorbAndRename | src/ModelParser/RawMetadata/RawClassMetadata.php:118-128 | The rename onto a taken name: the target's variations join the source, the target is dropped and the source is renamed |
| RawClasses.RawClassMetadata.MergeVariations | src/ModelParser/RawMetadata/RawClassMetadata.php:119-121 | The target's variations are appended to the source collection |
| RawClasses.RawClassMetadata.SearchCollection | src/ModelParser/RawMetadata/RawClassMetadata.php:122 | The first position of that very collection |
| RawClasses.RawClassMetadata.RenameAt | src/ModelParser/RawMetadata/RawClassMetadata.php:61-64 | Only collection i's name changes, to the normalised new name |
| RawClasses.RawClassMetadata.RemovePropertyVariation | src/ModelParser/RawMetadata/RawClassMetadata.php:138-151 | Removes the first variation of the name from the first collection holding one. It drops that collection when it becomes empty and keeps the order of the others. No variation is added |
| RawClasses.RawClassMetadata.RemoveFromCollection | src/ModelParser/RawMetadata/RawClassMetadata.php:140-149 | The removal from collection i, dropping it when emptied |
| RawClasses.RawClassMetadata.DropCollection | src/ModelParser/RawMetadata/RawClassMetadata.php:145-146 | unset plus array_values: collection k is gone and the others keep their order |
| RawClasses.RawClassMetadata.RemoveVariationAt | src/ModelParser/RawMetadata/RawClassMetadata.php:142 | Only collection k loses its first variation with the name |
| RawClasses.RawClassMetadata.FindPropertyVariation | src/ModelParser/RawMetadata/RawClassMetadata.php:251-260 | The first variation of the name in the first collection holding one, or none |
| RawClasses.RawClassMetadata.HolderIndex | src/ModelParser/RawMetadata/RawClassMetadata.php:251-260 | The loop finds the first holding collection |
| RawClasses.RawClassMetadata.HasPropertyVariation | src/ModelParser/RawMetadata/RawClassMetadata.php:57-60 | True exactly when some collection holds the name |
| RawClasses.RawClassMetadata.GetPropertyVariation | src/ModelParser/RawMetadata/RawClassMetadata.php:65-73 | That variation, or not-found |
| RawClasses.RawClassMetadata.GetPropertyVariations | src/ModelParser/RawMetadata/RawClassMetadata.php:78-83 | All variations, collection by collection, in order |
| RawClasses.RawClassMetadata.AddPostDeserializeMethod | src/ModelParser/RawMetadata/RawClassMetadata.php:203-206 | Appends the hook. Nothing else changes |
| RawClasses.RawClassMetadata.AddConstructorParameter | src/ModelParser/RawMetadata/RawClassMetadata.php:216-219 | Appends the parameter. Nothing else changes |
| RawClasses.RawClassMetadata.SortProperties | src/ModelParser/RawMetadata/RawClassMetadata.php:198-201 | The collections are permuted into key order. Names stay normalised and distinct |
| RawClasses.RawClassMetadata.PermutationStaysValid | src/ModelParser/RawMetadata/RawClassMetadata.php:198-201 | Any reordering keeps names normalised and distinct |
| Registry.ClassNames | src/RawClassMetadataRegistry.php:33-36 | The set of class names of a list of records |
| Registry.ClassNamesSnoc | src/RawClassMetadataRegistry.php:22 | Appending a record adds its class name |
| Registry.RawClassMetadataRegistry.InNameSet | src/RawClassMetadataRegistry.php:25-28 | The key set holds a name exactly when `contains` does |
| Registry.RawClassMetadataRegistry.constructor | src/RawClassMetadataRegistry.php:14 | A fresh registry contains no class |
| Registry.RawClassMetadataRegistry.Add | src/RawClassMetadataRegistry.php:16-23 | A second record for a class fails and changes nothing. Otherwise the record is appended. Afterwards the class is contained |
| Registry.RawClassMetadataRegistry.GetAll | src/RawClassMetadataRegistry.php:33-36 | The stored records, which Add appends to, so in insertion order, one per class name, naming exactly the contained classes |
| Reducers.ReduceByGroup | src/Reducer/GroupReducer.php:27-37 | The loop computes the group selection |
| Reducers.GroupSelectionKeeps | src/Reducer/GroupReducer.php:39-42 | The selection is a subsequence. A variation is kept exactly when no groups are requested or it shares one |
| Reducers.GroupSelectionNoGroups | src/Reducer/GroupReducer.php:41 | With no requested groups nothing is dropped |
| Reducers.GroupSelectionDropsUngrouped | src/Reducer/GroupReducer.php:41 | A variation without groups never survives a group request |
| Reducers.GroupSelectionIdempotent | src/Reducer/GroupReducer.php:27-37 | Reducing twice is reducing once |
| Reducers.ReduceByVersion | src/Reducer/VersionReducer.php:22-32 | The loop computes the version selection |
| Reducers.VersionSelectionKeeps | src/Reducer/VersionReducer.php:26 | A subsequence holding exactly the variations whose range includes the version. It is empty when none does |
| Reducers.VersionSelectionIdempotent | src/Reducer/VersionReducer.php:22-32 | Reducing twice is reducing once |
| Reducers.LowestOfIsOldest | src/Reducer/OldestVersionReducer.php:29-31 | There is a lowest variation exactly when some variation has a lower bound. It is the earliest of those with the lowest bound |
| Reducers.ReduceByOldestVersion | src/Reducer/OldestVersionReducer.php:18-43 | The loop computes the oldest selection |
| Reducers.OldestSelectionShape | src/Reducer/OldestVersionReducer.php:34-42 | A subsequence that is non-empty exactly when the input is. Unversioned variations win as a group, otherwise the single lowest one wins |
| Reducers.PreferredSelectionShape | src/Reducer/PreferredReducer.php:17-28 | A subsequence that is non-empty exactly when the input is. It is the preferred variations if there are any, else everything |
| Reducers.PreferredSelectionIdempotent | src/Reducer/PreferredReducer.php:17-28 | Reducing twice is reducing once |
| Reducers.TakeBestOrderShape | src/Reducer/TakeBestReducer.php:15-33 | A permutation whose head has the serialized name when any variation does. It is the identity when none does |
| Reducers.Reduce | src/Reducer/PropertyReducerInterface.php:16 | A reducer call computes that reducer's selection |
| Reducers.ApplyFromInput | src/Reducer/PropertyReducerInterface.php:16 | Every reducer returns only variations of its input |
| Reducers.ChainFromInput | src/PropertyReducer.php:26-28 | A chain of reducers returns only variations of its input |
| PropertyReducer.Contribution | src/PropertyReducer.php:26-32 | A collection yields one property, built from the first survivor, exactly when its chain leaves a variation |
| PropertyReducer.ReducedOrder | src/PropertyReducer.php:21-33 | The properties follow collection order and carry their collections' names |
| PropertyReducer.ReducedOrigins | src/PropertyReducer.php:21-33 | Every property is the one some collection contributes |
| PropertyReducer.ReducedCovers | src/PropertyReducer.php:26-31 | Every collection whose chain leaves a variation contributes the property built from the first survivor |
| PropertyReducer.ReducedDistinct | src/PropertyReducer.php:31-35 | Distinct collection names give distinct serialized names, so building the class never fails |
| PropertyReducer.DroppedCollection | src/PropertyReducer.php:30-32 | A collection the chain empties contributes no property |
| PropertyReducer.ReducedWithoutReducers | src/PropertyReducer.php:21-32 | With no reducers every collection contributes its first variation |
| PropertyReducer.ReduceCollection | src/PropertyReducer.php:24-28 | The inner loop runs the reducers in order, each on the previous output |
| PropertyReducer.ReduceEach | src/PropertyReducer.php:21-33 | The outer loop computes the reduced properties |
| PropertyReducer.Reduce | src/PropertyReducer.php:17-36 | A valid record with the raw record's class name, hooks and parameters, whose properties are the reduced ones |
| ParserContexts.ParserContext.Names | src/ModelParser/ParserContext.php:32-34 | The names of the followed variations |
| ParserContexts.ParserContext.Render | src/ModelParser/ParserContext.php:26-37 | The root alone, or the root and the names joined by "->" |
| ParserContexts.ParserContext.Push | src/ModelParser/ParserContext.php:39-45 | A copy with the variation appended. The stack grows by one |
| ParserContexts.RenderPush | src/ModelParser/ParserContext.php:39-45 | Pushing adds "->" and the variation's name to the rendering |
| RecursionContexts.RecursionContext.Path | src/RecursionContext.php:64-67 | The root, then each serialized name |
| RecursionContexts.RecursionContext.Render | src/RecursionContext.php:30-41 | The root alone, or the path joined by "->" |
| RecursionContexts.RecursionContext.Push | src/RecursionContext.php:43-49 | A copy with the property appended, whose path gains its serialized name |
| RecursionContexts.Target | src/RecursionContext.php:94-100 | A property leads to a class exactly when its array leaf is a class type |
| RecursionContexts.CountClassNames | src/RecursionContext.php:88-105 | The counter loop counts the root if it is the class, plus each property leading to it |
| RecursionContexts.PushCount | src/RecursionContext.php:88-105 | One push raises a count by one exactly when the property leads to that class, and otherwise not at all |
| RecursionContexts.CountIsMultiplicity | src/RecursionContext.php:88-105 | On a path through classes, the count is the class's multiplicity on the path |
| RecursionContexts.PathBound | src/RecursionChecker.php:103-107 | When no class occurs more than twice, a path through classes from u is at most 2\|u\| long |
| RecursionContexts.EntriesAccept | src/RecursionContext.php:69-80 | The inner loop's flag holds exactly when no entry rejects the start |
| RecursionContexts.CurrentPath | src/RecursionContext.php:64-67 | The loop builds the path |
| RecursionContexts.Matches | src/RecursionContext.php:58-86 | True exactly when the pattern is non-empty, no longer than the path and matches at some start |
| RecursionContexts.SegmentMatches | src/RecursionContext.php:64-83 | A stretch of the path spelled out matches at its own start |
| RecursionContexts.LeadingWildcardNeverMatches | src/RecursionContext.php:70 | A leading "*" is compared literally and never matches |
| RecursionContexts.TrailingWildcardsMatch | src/RecursionContext.php:73 | Trailing "*" entries match even past the end of the path |
| Links.SlotOf | src/Metadata/PropertyTypeClass.php:58-61 | The slot of a property names its owner, its serialized name and its class |
| Links.LinkStore.constructor | src/Metadata/PropertyTypeClass.php:21-32 | No class type has metadata yet |
| Links.LinkStore.GetClassMetadata | src/Metadata/PropertyTypeClass.php:44-51 | The attached metadata, which describes the slot's class, or an error before any was set |
| Links.LinkStore.SetClassMetadata | src/Metadata/PropertyTypeClass.php:58-61 | Attaches the metadata, replacing what was there. Nothing else changes |
| RecursionChecking.Pruned | src/RecursionChecker.php:76-97 | The PHP names of exactly the class-typed properties that some pattern matches |
| RecursionChecking.Checked | src/RecursionChecker.php:111-115 | The record itself or a copy without the pruned properties, valid and of the same class |
| RecursionChecking.AnyMatches | src/RecursionChecker.php:76-82 | True exactly when some expected recursion matches |
| Links.PrunedCopyTrans | src/Metadata/ClassMetadata.php:137-152 | Removing properties from a copy that already lacks some gives a copy of the original |
| Links.LinksPrunedTrans | src/RecursionChecker.php:103-107 | Links pruned twice are pruned links of the first |
| RecursionChecking.PropertyWalk | src/RecursionChecker.php:64-109 | The walk for one property fails with recursion or missing metadata only, and always when the property escalates: a linked, unpruned class occurring a third time. On success it is pruned exactly when a pattern matches, and the links are pruned copies |
| RecursionChecking.LinkedWalk | src/RecursionChecker.php:103-107 | The deeper walk leaves pruned links whose slot holds the checked form of the fetched record |
| RecursionChecking.PrefixWalk | src/RecursionChecker.php:64-109 | The walk over the first n properties leaves pruned links, and none of those properties escalates |
| RecursionChecking.PrefixWalkFails | src/RecursionChecker.php:64-109 | The first failure ends the foreach: every longer prefix fails the same way |
| RecursionChecking.RecordWalk | src/RecursionChecker.php:62-116 | The walk over a whole record leaves pruned links and no property escalates, or fails with recursion or missing metadata |
| RecursionChecking.CheckedPrunes | src/RecursionChecker.php:111-115 | The checked record is a pruned copy of the record |
| RecursionChecking.CheckProperty | src/RecursionChecker.php:64-109 | Fails exactly when PropertyWalk fails, with the same error. On success it says whether the property is pruned and leaves the links PropertyWalk gives |
| RecursionChecking.CheckLinked | src/RecursionChecker.php:103-107 | Fails exactly when LinkedWalk fails. On success the links are LinkedWalk's, and the slot holds the checked form of the record fetched from it |
| RecursionChecking.PruneEach | src/RecursionChecker.php:64-109 | Fails exactly when RecordWalk fails. On success the links are RecordWalk's and the names are exactly the Pruned ones, in property order |
| RecursionChecking.CheckClassMetadata | src/RecursionChecker.php:62-116 | Fails exactly when RecordWalk fails. On success the Checked record and RecordWalk's links. It terminates, because paths are bounded |
| RecursionChecking.Check | src/RecursionChecker.php:57-60 | The walk from the record as root: fails exactly when RecordWalk fails, at whatever depth, with a recursion or missing metadata. On success the Checked record, no root property escalates, and every link holds a pruned copy of what it held |
| ParserSteps.Changed | src/ModelParser/RawMetadata/PropertyVariationMetadata.php:45-99 | A setter changes only its own field of the variation, so the PHP name stays |
| ParserSteps.FirstWith | src/ModelParser/RawMetadata/PropertyCollection.php:124-133 | The first position of a variation with the name: none exactly when no variation has it |
| ParserSteps.FirstWithIsFirst | src/ModelParser/RawMetadata/PropertyCollection.php:124-133 | A position with the name and none before it is the one FirstWith finds |
| ParserSteps.HolderOf | src/ModelParser/RawMetadata/RawClassMetadata.php:251-260 | The first collection holding a variation of the name: none exactly when no collection holds one |
| ParserSteps.HolderOfIsFirst | src/ModelParser/RawMetadata/RawClassMetadata.php:251-260 | A holding collection with none holding before it is the one HolderOf finds |
| ParserSteps.ShapeAdd | src/ModelParser/RawMetadata/RawClassMetadata.php:85-95 | addPropertyVariation on the record as a value keeps one list per name, hooks and parameters |
| ParserSteps.ShapeRename | src/ModelParser/RawMetadata/RawClassMetadata.php:105-129 | renameProperty as a value fails only with not-found or same-property. A success keeps one list per name, hooks and parameters |
| ParserSteps.ShapeRemove | src/ModelParser/RawMetadata/RawClassMetadata.php:138-151 | removePropertyVariation as a value keeps one list per name, hooks and parameters |
| ParserSteps.ShapeUpdate | src/ModelParser/RawMetadata/RawClassMetadata.php:65-73 | A lookup and a setter fail, with not-found, exactly when no collection holds the name. A success keeps names, hooks, parameters and the number of lists |
| ParserSteps.ShapeMerge | src/Exception/ParseException.php:63-70 | A lookup and a merged setType fail with not-found or a ParseException for the class and the name. A success keeps names, hooks, parameters and the number of lists |
| ParserSteps.Apply | src/ModelParser/ModelParserInterface.php:15 | One call other than a sort: a success keeps one list per name and appends exactly the hook or parameter the call adds. Every failure is a parse failure |
| ParserSteps.Pairs | src/ModelParser/RawMetadata/RawClassMetadata.php:198-201 | The collections as (name, variations) pairs in order, which a sort permutes |
| ParserSteps.RunsNone | src/ModelParser/ModelParserInterface.php:15 | No call made: the record is as it was |
| ParserSteps.RunsFailed | src/ModelParser/ModelParserInterface.php:15 | An exception ends the parser: a failing run of the first calls is the run of all of them, with the same error |
| ParserSteps.BeforeSnoc | src/ModelParser/ModelParserInterface.php:15 | One more outcome does not change the state before the earlier calls |
| ParserSteps.RunsSnoc | src/ModelParser/ModelParserInterface.php:15 | A successful run of the first calls, then one call, is a run of one call more |
| ParserSteps.RunsAllNone | src/Parser.php:50-52 | No parser run yet: the record is as it was |
| ParserSteps.RunsAllFailed | src/Parser.php:50-52 | A failing parser ends the foreach: the run of every parser fails with the same error |
| ParserSteps.RunsAllSnoc | src/Parser.php:50-52 | A successful run of the first parsers, then one parser, is a run of one parser more |
| ParserSteps.RunsAllKnown | src/Parser.php:50-52 | A successful run means every parser knew the class |
| Parsing.ParserTargets | src/Parser.php:55-63 | The least set of classes the model parsers can make variations refer to |
| Parsing.ListedParsed | src/Parser.php:55-63 | A listed record the parsers produced, whose every variation leads into the names, is parsed under them |
| Parsing.Lookup | src/ModelParser/RawMetadata/RawClassMetadata.php:251-260 | findPropertyVariation on the lists: none exactly when no collection holds the name, otherwise a variation of the record with that name |
| Parsing.LookupPlace | src/ModelParser/RawMetadata/RawClassMetadata.php:251-260 | The variation found is the one at the places HolderOf and FirstWith give on the record as a value |
| Parsing.ViewIs | src/ModelParser/RawMetadata/RawClassMetadata.php:20-40 | The record as a value holds the names of its collections, the states of their variations, its hooks and its parameters |
| Parsing.StepAddVariation | src/ModelParser/RawMetadata/RawClassMetadata.php:85-95 | A parser adding a new variation: the record afterwards is ShapeAdd of the record before. It stays valid, leads into u and holds each variation once. New objects are fresh |
| Parsing.AddStep | src/ModelParser/RawMetadata/RawClassMetadata.php:85-95 | The same for a variation object the record does not hold yet, whose state the call leaves alone |
| Parsing.AddTo | src/ModelParser/RawMetadata/RawClassMetadata.php:85-95 | addPropertyVariation on the object: appends to the collection of the normalised name, or to a new last collection. Every variation keeps its state |
| Parsing.AddedShape | src/ModelParser/RawMetadata/RawClassMetadata.php:85-95 | Those two cases are exactly ShapeAdd |
| Parsing.StepRename | src/ModelParser/RawMetadata/RawClassMetadata.php:105-129 | A parser's renameProperty: the outcome and the record afterwards are ShapeRename of the record before. Failures are not-found or same-property |
| Parsing.RenameIn | src/ModelParser/RawMetadata/RawClassMetadata.php:105-129 | renameProperty on the object: a missing source fails, a rename onto itself fails, a free target renames, a taken target is absorbed and dropped. Every variation keeps its state |
| Parsing.RenamedShape | src/ModelParser/RawMetadata/RawClassMetadata.php:105-129 | Those four cases are exactly ShapeRename |
| Parsing.StepRemove | src/ModelParser/RawMetadata/RawClassMetadata.php:138-151 | A parser's removePropertyVariation: the record afterwards is ShapeRemove of the record before |
| Parsing.RemoveFrom | src/ModelParser/RawMetadata/RawClassMetadata.php:138-151 | removePropertyVariation on the object: nothing when no collection holds the name. Otherwise the first variation goes from the first holding collection, which is dropped when emptied |
| Parsing.RemovedShape | src/ModelParser/RawMetadata/RawClassMetadata.php:138-151 | Those cases are exactly ShapeRemove |
| Parsing.ApplyChange | src/ModelParser/RawMetadata/PropertyVariationMetadata.php:45-99 | The setter leaves the variation in the state Changed gives |
| Parsing.ChangeVariation | src/ModelParser/RawMetadata/PropertyVariationMetadata.php:45-99 | One setter changes the variation as Changed says and no other variation. The record keeps its collections, and as a value changes only at that place |
| Parsing.ChangeAt | src/ModelParser/RawMetadata/PropertyVariationMetadata.php:45-99 | Only the state at that place of the lists changes, since no other place holds the same object |
| Parsing.StepUpdate | src/ModelParser/RawMetadata/RawClassMetadata.php:65-73 | getPropertyVariation and a setter: a name no variation has is not found. Otherwise the variation found changes as the setter says and nothing else does. The outcome is ShapeUpdate's |
| Parsing.StepMergeType | src/Exception/ParseException.php:63-70 | getPropertyVariation and a merged setType: not found, or on a merge conflict a ParseException for the class and property with the variation unchanged, or the variation's type replaced by the merge. The outcome is ShapeMerge's |
| Parsing.StepHook | src/ModelParser/RawMetadata/RawClassMetadata.php:203-219 | addPostDeserializeMethod and addConstructorParameter append the hook or parameter and leave the collections alone, as Apply says |
| Parsing.SortIn | src/ModelParser/RawMetadata/RawClassMetadata.php:198-201 | usort: the collections are permuted into key order. Hooks and parameters stay, and so do the variation objects |
| Parsing.SortedView | src/ModelParser/RawMetadata/RawClassMetadata.php:198-201 | The sorted record is a key-ordered permutation of the (name, variations) pairs of the record before |
| Parsing.Resorted | src/ModelParser/RawMetadata/RawClassMetadata.php:198-201 | Reordering the collections keeps every variation leading into u, each once, and the same collections |
| Parsing.StepSort | src/ModelParser/RawMetadata/RawClassMetadata.php:198-201 | The collections are permuted into key order, SortedFrom the record before. The variations stay the same objects |
| Parsing.ApplyStep | src/ModelParser/ModelParserInterface.php:15 | One parser call keeps the record valid and leading into u, and its outcome is the one Applies gives on the record as a value. Adding, removing, hooks, parameters and sorting pass. A rename fails with not-found or same-property, an update exactly when the name has no variation, a type merge with not-found or a ParseException, and a raised ParseException names the class |
| Parsing.RunParser | src/ModelParser/ModelParserInterface.php:15 | ParserRun on the record as a value: the parser's calls for the class in order, or class-not-found when it does not know the class |
| Parsing.RunSteps | src/ModelParser/ModelParserInterface.php:15 | Runs on the record as a value: the calls in order, the first failure ending the run |
| Parsing.ApplyNext | src/ModelParser/ModelParserInterface.php:15 | One call more extends the run by that call's outcome |
| Parsing.RunParsers | src/Parser.php:50-52 | The foreach: the outcome and the record afterwards are RunsAll of the parsers in order from the record before. Success means every parser knew the class. New objects are fresh |
| Parsing.ParseNext | src/Parser.php:50-52 | One parser more extends the run by that parser's outcome |
| Parsing.TargetGrows | src/Parser.php:55-63 | A type leading into some names leads into more names |
| Parsing.ParsedGrows | src/Parser.php:55-63 | A record parsed under some names is parsed under more names |
| Parsing.Descend | src/Parser.php:56-62 | A variation leading to a class has that class parsed with the variation pushed. Every new record stays parsed under the registered names. A failure is the error some run of the parsers on a new record for a class in u ends with |
| Parsing.DescendEach | src/Parser.php:55-63 | The loop over the variations descends into each in turn. Afterwards every variation leads to a registered class. A failure is the error some run of the parsers on a new record for a class in u ends with |
| Parsing.DescendAll | src/Parser.php:55-63 | After the loop the record and every record added after it are parsed under the registered names. A failure is the error some run of the parsers on a new record for a class in u ends with |
| Parsing.ParsedFrom | src/Parser.php:55-63 | The record before a parsed stretch, when parsed, extends the stretch |
| Parsing.Fill | src/Parser.php:49-52 | A fresh record for the class. On success it is what the parsers produce from an empty record, with its variations listed. On failure the parsers' run fails with that error |
| Parsing.ListVariations | src/ModelParser/RawMetadata/RawClassMetadata.php:78-83 | getPropertyVariations lists the variations in collection order and changes nothing |
| Parsing.Register | src/Parser.php:49-53 | The filled record is appended to the registry, adding its class name. It is what the parsers produce from an empty record. On failure the registry is unchanged and the parsers' run for the class fails with that error |
| Parsing.ParseNew | src/Parser.php:49-63 | A class not yet registered gets its record at the next position, and then its references are parsed. Every new record is parsed under the registered names. A failure is the error some run of the parsers on a new record for a class in u ends with |
| Parsing.ParseModel | src/Parser.php:43-64 | A registered class changes nothing. Otherwise its record is added and every new record is parsed under the registered names. It terminates by the registry guard. A failure is the error some run of the parsers on a new record for a class in u ends with |
| Parsing.Parse | src/Parser.php:34-41 | The root's record comes first and each class has one record. Every record is parsed: closed under the class names of the result, and a possible outcome of the parsers' calls on an empty record. A failure is class-not-found, not-found, same-property or a ParseException, and it is the error a run of the parsers on a new record for the root or a class they refer to ends with |
| Building.Slots | src/Builder.php:59-67 | Every class-typed property of a record has its slot |
| Building.PropertySlotsMembers | src/Builder.php:60-66 | The gathered slots are exactly those of the class-typed properties |
| Building.PropertySlotsOfRecord | src/Builder.php:60-66 | Gathering property by property gives the record's slots |
| Building.ReducedTargets | src/Builder.php:55-57 | Reduction only selects: reduced properties lead where the variations led |
| Building.ReducedWithin | src/Builder.php:55-57 | The reduced records of closed records lead into the same names |
| Building.ReduceInto | src/Builder.php:56 | Stores the reduced record under its class name and keeps the other entries |
| Building.ReduceStep | src/Builder.php:55-57 | One more stored name keeps the earlier ones, because names are distinct |
| Building.ReduceAll | src/Builder.php:55-57 | The first loop gives one reduced record per raw record, keyed by class name |
| Building.SetTypeClassMetadata | src/Builder.php:77-91 | A class leaf gets the built record of its class, or not-found. Other types change nothing |
| Building.LinkClass | src/Builder.php:60-66 | Links every class-typed property of a record. A class nothing was built for is class-not-parsed |
| Building.LinkAll | src/Builder.php:59-67 | The second loop links every record in build order |
| Building.NameOrder | src/Builder.php:59 | The class names of the records in order |
| Building.AllSlotsMembers | src/Builder.php:59-67 | The linked slots are those of the class-typed properties of the named records |
| Building.SlotsOfOrder | src/Builder.php:59-67 | Linking every built record attaches exactly one slot per class-typed property |
| Building.BuiltWithin | src/Builder.php:55-67 | Records reduced from a closed parse refer only to built classes |
| Building.ReduceRecords | src/Builder.php:55-57 | The first loop on the parsed records: one reduced record per class, referring only to built classes |
| Building.BuiltLinks | src/Builder.php:59-67 | The links the second loop attaches, one per class reference of a built record, holding the record built for its class; on well-keyed records they are valid links |
| Building.LinkBuilt | src/Builder.php:59-67 | The second loop on an empty store: links cover exactly the class-typed properties and hold the built records of their classes |
| Building.CheckRoot | src/Builder.php:69 | The recursion check of the root on those links fails exactly when RootWalk fails, with the same error. On success the Checked root record, RootWalk's links, and every link still holding a pruned copy of the built record |
| Building.ReduceLinkCheck | src/Builder.php:53-69 | Reduce, link and check: every parsed record is reduced into the record of its class, the built records refer only to built classes, and the outcome is as for CheckRoot, failing exactly when RootWalk fails |
| Building.BuildParsed | src/Builder.php:53-69 | The same for records the parsers produced, stated on the records after the call, which the store does not touch |
| Building.Build | src/Builder.php:49-70 | On success the parsed records start at the root, one per class, and the built record of each holds the reduction of its collections. The result is the recursion-checked record of the root. Links cover exactly the class-typed properties of the built records and hold pruned copies of the built records of their classes. A failure is a parse failure exactly when nothing was parsed; otherwise it fails exactly when RootWalk fails, with the same error |
| PhpTypeParsing.Explode | src/TypeParser/PhpTypeParser.php:49 | explode gives a non-empty list of pieces, possibly empty ones, none holding the separator |
| PhpTypeParsing.ExplodeJoin | src/TypeParser/PhpTypeParser.php:49 | Joining the pieces with the separator gives the string back |
| PhpTypeParsing.JoinExplode | src/TypeParser/PhpTypeParser.php:49 | Splitting joined pieces that lack the separator gives them back |
| PhpTypeParsing.CreateType | src/TypeParser/PhpTypeParser.php:81-113 | The result has the given nullability, is constructible and never an iterable. Array elements are non-nullable. resource is refused, and a primitive is its canonical name |
| PhpTypeParsing.AnnotationType | src/TypeParser/PhpTypeParser.php:43-67 | The empty string is nullable Unknown. A success is constructible and not an iterable. A failure on a non-empty string has a named part |
| PhpTypeParsing.ParseAnnotationType | src/TypeParser/PhpTypeParser.php:43-67 | The loop over the union parts computes AnnotationType |
| PhpTypeParsing.MarkersOnly | src/TypeParser/PhpTypeParser.php:59-61 | A union of only null, mixed and object is Unknown, nullable exactly when null or mixed appears |
| PhpTypeParsing.TwoTypesRefused | src/TypeParser/PhpTypeParser.php:62-64 | Two named parts are refused, whatever else the union holds |
| PhpTypeParsing.TwoKept | src/TypeParser/PhpTypeParser.php:49-57 | Two named parts both survive the filter |
| PhpTypeParsing.SingleType | src/TypeParser/PhpTypeParser.php:66 | A single type is created non-nullable |
| PhpTypeParsing.NullableType | src/TypeParser/PhpTypeParser.php:50-52 | `T\|null` is T created nullable |
| PhpTypeParsing.NullFirst | src/TypeParser/PhpTypeParser.php:50-52 | `null\|T` is T created nullable |
| PhpTypeParsing.SuffixPeels | src/TypeParser/PhpTypeParser.php:87-95 | A trailing `[]` or `[string]` wraps the non-nullable type of the rest in a list or a hashmap |
| PhpTypeParsing.Nested | src/TypeParser/PhpTypeParser.php:87-95 | The nested array type of a primitive with suffixes |
| PhpTypeParsing.SuffixedPrimitive | src/TypeParser/PhpTypeParser.php:87-104 | A primitive with any suffixes creates the nested arrays around the canonical primitive |
| PhpTypeParsing.NestedRendering | src/Metadata/PropertyTypeArray.php:27-35 | The nested type renders as the canonical name followed by the suffixes and the null suffix |
| PhpTypeParsing.PrimitiveRoundTrip | src/TypeParser/PhpTypeParser.php:81-96 | A primitive with any suffixes, alone or with `\|null`, parses and renders back to itself in canonical form |
| PhpTypeParsing.ResourceRefused | src/TypeParser/PhpTypeParser.php:98-100 | resource and every array of it are refused |
| PhpTypeParsing.AbsoluteName | src/TypeParser/PhpTypeParser.php:118-120 | A leading backslash is dropped without consulting use statements. DateTime names give date-times and other names give existing classes or class-not-found |
| JmsTypeParsing.CollectionClass | src/TypeParser/JMSTypeParser.php:108-116 | ArrayCollection stands for Doctrine's class. Any other collection class is itself |
| JmsTypeParsing.OptionText | src/TypeParser/JMSTypeParser.php:86-90 | A present option is a truthy string |
| JmsTypeParsing.ParseType | src/TypeParser/JMSTypeParser.php:44-106 | The result is nullable exactly at the top, constructible and never an array. Iterable elements are non-nullable |
| JmsTypeParsing.Parse | src/TypeParser/JMSTypeParser.php:35-42 | The empty string is nullable Unknown. Every result is nullable, constructible and not an array |
| JmsTypeParsing.BareArray | src/TypeParser/JMSTypeParser.php:58-60 | A bare array is an iterable of Unknown and renders as "array" |
| JmsTypeParsing.ArrayParams | src/TypeParser/JMSTypeParser.php:72-79 | One parameter gives a list of it. Two give a hashmap of the second, whatever the key |
| JmsTypeParsing.TooManyParams | src/TypeParser/JMSTypeParser.php:80-81 | More than two parameters are refused |
| JmsTypeParsing.ParamsRefused | src/TypeParser/JMSTypeParser.php:105 | Parameters on any other name are refused |
| JmsTypeParsing.DateTimeParams | src/TypeParser/JMSTypeParser.php:84-102 | Format, zone and deserialize format, with empty meaning none and the format as the deserialize fallback. DateTimeInterface becomes a mutable DateTime |
| JmsTypeParsing.WrappedRendering | src/TypeParser/JMSTypeParser.php:72-79 | A primitive in nested array levels renders as the PHPDoc suffix string of those levels |
| JmsTypeParsing.FrontEndsAgree | src/TypeParser/JMSTypeParser.php:35-42 | The JMS tree and the PHPDoc string for the same nesting of a primitive render alike |

## Left out

- Model parsers (JMS, PHPDoc, reflection, Liip annotations, the visibility-aware accessor
  guesser) are driven by reflection and annotation readers. Each is a map from class name
  to the ordered calls it makes on the raw record: adding, renaming and removing
  variations, hooks and constructor parameters, one setter on a variation looked up by
  name, a type merged into such a variation, sorting, and a ParseException of its own. A
  class a parser does not know is "class not found". What the readers find in the PHP
  code, and so which calls a parser makes, is not part of this model.
- The class hierarchy (`class_exists`, `interface_exists`, `is_a`) is a parameter: a set
  of declared names and a subclass relation.
- `version_compare` is modelled on versions as sequences of naturals compared
  componentwise, where a proper prefix is lower. PHP's alpha, RC and pl suffix rules are
  not modelled.
- Logging in the recursion checker has no effect on control flow and is left out.
- Exception messages are left out. Errors carry their kind and the names involved.
- Use-statement and namespace resolution of class names is a `resolve` function
  parameter. Only the leading backslash is modelled.
- `parseReflectionType` and the JMS grammar library are not part of this model. The
  grammar's `{name, params}` tree is the input of the JMS front end.
- Two PHP TypeErrors the JMS front end can raise are modelled as an invalid-type error: a
  quoted string where a type is expected, and a nested type where a date-time option is
  expected. The TypeError of the date-time deserialize format is not; see the line on
  JmsTypeParsing.DateTimeParams.
- `findCommonDateTimeClass` is protected and never called, and is not part of this model.
- JmsTypeParsing.DateTimeParams: src/TypeParser/JMSTypeParser.php:88-101 wraps the
  deserialize format in a one-element list and passes that list to the `?string
  $deserializeFormat` parameter of src/Metadata/DateTimeOptions.php:29, which PHP refuses
  with a TypeError whenever a format or a deserialize format is given.
  tests/TypeParser/JMSTypeParserTest.php:121-126 and :161-166 expect no deserialize format
  when only the format is given. The model follows neither: DateTimeOptions holds a single
  deserialize format, as its constructor declares, and the front end stores the one
  element of that list, the explicit deserialize format or else the format, which is the
  fallback the parser's comment at line 87 describes.
- ParserContext is passed along the parse but only feeds exception messages. The model
  keeps it and proves its rendering, but no error carries it.
- RecursionChecking.Check: does not promise that the links it leaves form a tree, as the
  doc comment of src/Builder.php:43 says. Pruning copies a record but keeps its property
  objects, so one slot can be written twice on one walk. With R.p of class A, A.a of class
  B, B.b of class A and the pattern ["R","p","a","b","a","b"], the deepest level writes a
  pruned B into slot (A,a,B), and the level above then overwrites that slot with the
  unpruned B, so the links lead A to B to A without end. The model states the links
  exactly (RecordWalk) and that each holds a pruned copy, which is what the code does.
- Building.Build: does not rule out MissingClassMetadata. That error cannot occur after
  a successful link, but the checker's contract does not carry that fact.
- Building.Build returns the built records and the store of attached metadata. In PHP
  they live inside the class type objects.
- Parsing.Parse: does not state that the records are fresh, so a second call sharing
  nothing with the first is not proved.
- RawClasses.RawClassMetadata.RenameProperty and RawClasses.RawClassMetadata.ToJson: the
  PHP record keeps its collections in an array whose keys renameProperty does not reindex.
  When a rename absorbs a taken target, src/ModelParser/RawMetadata/RawClassMetadata.php:125
  unsets that key and leaves a gap, while removePropertyVariation (:144-145) and
  sortProperties (:200) renumber the keys. jsonSerialize (:229-237) exports the array as
  it is, so after collections a, b, c and renameProperty("a", "b") the keys are 0 and 2
  and PHP writes `properties` as a JSON object keyed "0" and "2". The model holds the
  collections as a sequence and always exports them as a list. Lookups, removal and the
  export order are not affected, since PHP walks the array in insertion order.
- PhpTypeParsing.TwoTypesRefused: the library's tests expect unions of an array type
  with a Doctrine collection to parse. tests/TypeParser/PhpTypeParserTest.php:127-130
  expects `string[]|\Doctrine\Common\Collections\Collection|null` to render with
  the collection typed `Collection<string>`, :138-147 with :165-170 expect such unions to be a traversable
  iterable, and :206-209 expects `Nested[]|Collection` to parse. src/TypeParser/PhpTypeParser.php:62-64
  refuses every union with two named parts, as testMultiType (:172-176) expects for
  `string|int`, and the model follows that code for collection unions too.
- JmsTypeParsing.DateTimeParams, JmsTypeParsing.WrappedRendering and
  JmsTypeParsing.FrontEndsAgree require an environment that does not make DateTime,
  DateTimeInterface or "array" a Doctrine collection.
- Variations.PropertyVariationMetadata.SetReadOnly and
  Variations.PropertyVariationMetadata.SetCustomInformation: src/Metadata/AbstractPropertyMetadata.php
  has neither `setReadOnly` nor `setCustomInformation`, so the `parent::` calls of
  src/ModelParser/RawMetadata/PropertyVariationMetadata.php:65-68 and :96-99 would fail in
  this version. The model takes the base class to hold a mutable read-only flag and a
  custom-information map keyed by string, as those two calls use them.
- Custom information on final properties is carried along but its export is not modelled,
  because the base class has no such accessor.
- Rendering of each type variant is a function without a separate contract. Its shape is
  stated through the nesting lemmas of both front ends.
- The TakeBest comparator is not a consistent order. It is modelled as a stable
  partition that puts variations named like the serialized name first, as its doc comment
  and tests describe.
- A self-referencing root class is rejected when no pattern allows it, as the code does:
  the root counts once, so its second reference would be the third occurrence.
