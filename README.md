# graphql-schema-builder in Dafny

A model of the core of graphql-schema-builder. This JavaScript library compiles
declarative field and type declarations (mongoose-like `{type, ref, required}`
records, scalar markers, inline subtypes, resolver maps) into GraphQL output types.
The model covers these parts:

- **Primitive type resolvers** (`getqltype.dfy`, and the older one in
  `buildtypes.dfy`). Each maps a declaration to an output type.
  - It dispatches on the scalar markers, `ObjectId`, a plain type name and an array.
  - Each level is wrapped in NonNull when `required` holds.
- **Subtype classifiers** (`subtype.dfy`, `issubtype.dfy`). They decide when a
  declaration is an inline subtype.
- **Field-set builder** (`buildfields.dfy`).
  - It resolves fields, derives subtype names and builds inline subtypes recursively.
  - A subtype reuses an already registered type of the same name when the fields
    are equal, and fails when they differ. Otherwise a new type is minted.
  - It attaches descriptions, resolvers and resolver `args`.
  - The registry that the `buildSubType` and `getExistingType` callbacks share is
    passed through every call as a value, `map<Val, TypeObj>`.
- **Type builder and type-graph builder** (`buildtypes.dfy`).
  - `buildType` wraps a type declaration in a deferred field accessor, the thunk.
    The thunk merges `fields` with `dynamicFields` and adds a synthetic `id`.
  - `buildTypes` is a loop over the schema's own keys. It builds each type and
    registers it under its declared name.
- **Helpers.**
  - `getProjection` (`projection.dfy`) is a loop that collects `{name: 1}`.
  - `memoize` (`memoize.dfy`) is a class whose method checks and updates its cache in place.
  - `parseLiteral` of the JSON scalar (`jsontype.dfy`) is a recursive function.
    Its list and object branches are methods with loops.

JavaScript values are the datatype `JsValue.Val` (`js_value.dfy`):
- Plain objects list their properties in insertion order.
- The scalar markers `String`, `Number`, `Date` and `Boolean` are a closed enumeration.
  So are the two sentinels `Mixed` and `ObjectId`. In each builder they stand for the
  sentinel pair that builder compares against and hands its own producers: the frozen
  objects of `src/types.js` for the field-set builder, the local `types` of
  `src/buildtypes.js` for the older one.
- A user function is `Func(id, ret)`. It is the value it returns when the builders
  call it with the markers (the producer convention).
- A thrown error is `Result.Err`. It is either a `TypeError` (a property read on
  null or undefined) or an `AssertionError` with the source's message.

The output types of the graphql library are plain constructors (`output_types.dfy`).

Behaviours of the source worth noting:
- A non-array inline subtype is built under the raw field name, not capitalised.
- `getSubTypeName` removes the first `s` that ends a word (`/s\b/`), not only a final one.
- The subtype check compares the complete built fields, resolvers and `args`
  included, against the registered type's `fields`.
- The type builder of `src/buildtypes.js` uses a `Map` store, not a lookup callback
  or a registering `buildSubType`.
- That type builder copies a `description` only when it is truthy.

## Model

| member | source | states |
|---|---|---|
| GetQLType.GetQLType | src/getqltype.js:31-79 | Null or undefined input throws a TypeError. The function fails unless the lookup is a function and `type` is set. Each scalar marker gives its scalar, wrapped in NonNull exactly when `required` holds; `required` defaults to true. `ObjectId` gives the type found under `ref`, or `ID`. A plain name must be found, or it fails with "Failed to find existing type <name>". An array gives a list of the type its first element resolves to, through `ElementSpec`, and an element's error is the array's error. An empty array throws a TypeError. Any other `type` gives null. |
| GetQLType.ElementSpec | src/getqltype.js:62-75 | An element with its own `type` is used whole, with its own `ref` and `required`. Any other element becomes `{type: element, ref}`: it inherits the array's `ref`, and its `required` is unset, so it defaults to true. |
| GetQLType.LookupLocality | src/getqltype.js:31-79 | Two lookups that agree on every key the declaration can ask for give the same result, so the resolver's only effect is calling the lookup. |
| GetQLType.NullabilityIsPerLevel | src/getqltype.js:37-75 | Changing only the outer `required` adds or removes only the outermost NonNull; the rest of the type, including an array's element type, stays the same. |
| GetQLType.ListOfRequiredString | src/getqltype.js:61-68 | `{type: [{type: String}], required: false}` is a nullable list of non-null String, for any registry. |
| GetQLType.ListOfTyped | src/getqltype.js:61-67 | An array of one element that has its own `type` is the list of that element's type, non-null exactly when the array level is required. |
| GetQLType.RequiredListOfOptionalBoolean | src/getqltype.js:61-68 | `{type: [{type: Boolean, required: false}]}` is a non-null list of nullable Boolean. |
| GetQLType.ListOfReferences | src/getqltype.js:52-75 | `{type: [ObjectId], ref: 'Asset'}` is a non-null list of the non-null registered `Asset`. |
| GetQLType.ListOfNames | src/getqltype.js:56-75 | `{type: ['Asset']}` is a non-null list of the non-null registered `Asset`. |
| GetQLType.UnknownName | src/getqltype.js:56-58 | An unregistered name fails with "Failed to find existing type DoesNotExist". |
| GetQLType.EmptyArrayTypeThrows | src/getqltype.js:61-64 | `{type: []}` throws a TypeError, because `type[0]` is undefined and its `type` is read. |
| GetQLType.EmptyObjectTypeIsUnrecognised | src/getqltype.js:77-78 | `{type: {}}` yields null. |
| SubType.IsTypeDefinition | src/subtype.js:9-17 | The test holds exactly for plain objects whose `type` is null or undefined. |
| SubType.MarkersAreNotTypeDefinitions | src/subtype.js:10-16 | None of the six scalar markers is a type definition. |
| SubType.IsSubType | src/subtype.js:19-20 | It throws exactly on null or undefined. Otherwise it holds exactly when the declaration, or its `type`, is a type definition. |
| SubType.GetSubType | src/subtype.js:22-33 | The result is the declaration, its `type`, or null. A subtype declaration, `{type: {...}}` included, is returned whole. A non-null result is a subtype, or an array whose first element is one. A null result means none of the three tests held. It throws a TypeError exactly when the declaration is null or undefined, or is an array whose first element is, or has an array `type` whose first element is; a name, a marker or an array of records never throws. |
| SubType.ReferenceArrayIsNotSubType | src/subtype.js:29-32 | `{type: [ObjectId]}` is not a subtype. |
| SubType.NameAndMarkerAreNotSubTypes | src/subtype.js:22-33 | `'Asset'` and `Number` are not subtypes. |
| SubType.EmptyArrayThrows | src/subtype.js:24-25 | `[]` throws, because `isSubType(undefined)` reads a property of undefined. |
| IsSubType.IsSubType | src/issubtype.js:9-17 | It holds exactly for plain objects whose `type` is null or undefined. |
| IsSubType.AgreesWithTypeDefinition | src/issubtype.js:9-17 | The stand-alone predicate equals `_isTypeDefinition` of src/subtype.js on every value. |
| IsSubType.NonObjectsAreNotSubTypes | src/issubtype.js:10-16 | Primitives, functions, the markers and the sentinels are never subtypes. |
| BuildFields.FirstBoundaryS | src/buildfields.js:27 | It finds the first `s` at or after a position that no word character follows, or reports that there is none. |
| BuildFields.GetSubTypeName | src/buildfields.js:26-27 | An empty name throws. Otherwise the result is the name with its first character upper-cased, either whole when no `s` ends a word, or with exactly the first `s` that ends a word removed, which is what the non-global `/s\b/` replaces. |
| BuildFields.IdentifierSubTypeName | src/buildfields.js:26-27 | For an identifier, the derived name is the name capitalised with one final `s` dropped, and nothing else changes. |
| BuildFields.SubTypeNameOfMetadatas | src/buildfields.js:26-27 | `metadatas` derives `Metadata`. |
| BuildFields.SubTypeNameOfAssets | src/buildfields.js:26-27 | `assets` derives `Asset`. |
| BuildFields.SubTypeNameOfChildren | src/buildfields.js:26-27 | `children` derives `Children`, so the heuristic does not singularise irregular plurals. |
| BuildFields.WithDefaults | src/buildfields.js:29-33 | After the defaults, the callbacks are usable exactly when none that was passed is a non-function. A resolver map is present afterwards exactly when it was present before. |
| BuildFields.BuildFields | src/buildfields.js:29-65 | It fails when `fields` is null, and when a callback that was passed is not a function; an explicit null is refused, not defaulted. A producer that returns null or undefined throws a TypeError. The result has exactly the declaration's own keys, after a producer is applied to the markers. Each key has the description of its declaration. Without a registering `buildSubType`, every entry is exactly `BuildField` of that key. The registry changes only through a registering `buildSubType`, and with a registry-backed lookup it only grows. |
| BuildFields.BuildEach | src/buildfields.js:65-130 | The `map`/`reduce` over the own names has exactly those keys, with their descriptions. Without a registering `buildSubType`, every entry is exactly `BuildField` of that key. The registry only grows from field to field. |
| BuildFields.BuildEachInOrder | src/buildfields.js:65-130 | For distinct names, entry `names[i]` is `BuildField` run against the registry that building `names[..i]` left, and the registry it leaves is the one `names[i + 1]` sees. |
| BuildFields.BuildFieldsInOrder | src/buildfields.js:40-130 | Through the whole builder: own field `i` of the declaration is built against the registry the own fields before it left. |
| BuildFields.NullProducerThrows | src/buildfields.js:40-65 | A `fields` producer that returns null or undefined throws a TypeError. |
| BuildFields.FieldType | src/buildfields.js:66-96 | A null declaration throws. An object subtype is built under the raw field name. An array subtype is a list that is never non-null itself. Its element is non-null unless `required === false`, and is built under `getSubTypeName(x)`. Any other declaration is resolved by the primitive resolver, on the declaration or on `{type: declaration}`, and leaves the registry as it is. |
| BuildFields.BuildField | src/buildfields.js:98-129 | The field has its type, and a description exactly when `description != null`. A function resolver becomes `resolve`. An object resolver must have a function `resolve`, otherwise the build fails with "resolve must be a function when resolver is an object". Its `args`, when present, are exactly the field set `BuildFields` builds from them with the same callbacks and no resolvers, against the registry the field's type left; an error there is the field's error. The field leaves the registry its `args` left, or else the one its type left. |
| BuildFields.BuildSubFields | src/buildfields.js:42-63 | The subtype's fields are built with the same callbacks and resolvers. A known type of that name is returned when its fields are equal, and the build fails with the subtype's name when they differ. Otherwise one new type with exactly those fields is minted, and registered only by a registering `buildSubType`. |
| BuildFields.OneField | src/buildfields.js:65-130 | A declaration with one field gives exactly that field's result. |
| BuildFields.PrimitiveField | src/buildfields.js:90-101 | A bare scalar marker field is its non-null scalar, and leaves the registry as it is. |
| BuildFields.ObjectSubTypeField | src/buildfields.js:72-74 | An object subtype field's type is `buildSubFields` under the field's own name. |
| BuildFields.PlainBuildField | src/buildfields.js:98-103 | With no description and no resolver, the field is its type alone. |
| BuildFields.FirstBuildRegisters | src/buildfields.js:61-62 | Against an empty shared registry, the subtype is minted under the field name and registered. |
| BuildFields.SecondBuildReuses | src/buildfields.js:50-59 | Against the registry the first build left, the registered type is reused and the registry is not changed. |
| BuildFields.DivergentBuildFails | src/buildfields.js:50-57 | A subtype of an already registered name with other fields fails with "Subtypes' fields with same name `<name>` have to match". |
| BuildFields.SubTypesAreSharedByName | src/buildfields.js:42-63 | The three cases above together, across builds that share one registry. |
| BuildFields.ObjectResolverField | src/buildfields.js:113-126 | A field whose resolver is an object with a function `resolve` and `args` gets both. The `args` are built with the same callbacks and no resolvers, against the registry the field's type left, and the field leaves the registry the `args` left. |
| BuildFields.ObjectResolverNumberField | src/buildfields.js:113-126 | A `Number` field with the resolver `{resolve, args: {<arg>: {type: String, required: true}}}` gets that `resolve` and a non-null String argument. |
| BuildFields.ResolverWithArgs | src/buildfields.js:103-126 | The same through the whole builder, starting from default callbacks. |
| BuildFields.NopeResolverRefused | src/buildfields.js:113-116 | An object resolver whose `resolve` is a string is refused with the assertion message. |
| BuildFields.ResolverObjectNeedsResolve | src/buildfields.js:103-116 | The same through the whole builder. |
| BuildTypes.GetQLType | src/buildtypes.js:25-65 | The older resolver fails unless the store is a `Map` and `type` is set. NonNull applies exactly when `required` holds. Each scalar marker gives its scalar, with `Date` as Int. `ObjectId` gives the stored type under `ref`, or `ID`. An array gives a list of the type its first element resolves to, through `ElementSpec`, and an element's error is the array's error. An empty array throws a TypeError. A plain type name is not recognised and yields null. |
| BuildTypes.ResolversAgree | src/buildtypes.js:25-65 | On every declaration that mentions neither `Date`, nor a plain name, nor a sentinel, at any depth, the older resolver equals the one of src/getqltype.js. |
| BuildTypes.ResolversDiffer | src/buildtypes.js:35-36 | `Date` is Int here and DateTime there. A plain name is null here and the registered type there. |
| BuildTypes.BuildField | src/buildtypes.js:73-93 | A null declaration throws. Otherwise the field's type is what the older `getQLType` gives for the declaration, or for `{type: declaration}` when it has no `type`; the field fails exactly when that resolution fails, with its error. NonNull follows `required`. A description is attached exactly when it is truthy. `resolvers[x]` is attached as it is. There are never any `args`. |
| BuildTypes.BuildEach | src/buildtypes.js:73-94 | The build succeeds exactly when every field does, and the result has exactly those keys, each the field's result. |
| BuildTypes.BuildFields | src/buildtypes.js:67-95 | A null `fields` and a store that is not a `Map` are refused. A producer that returns null or undefined throws a TypeError. Otherwise the build succeeds exactly when every own field builds, and the result has exactly the own keys, each that field's `BuildField`. |
| BuildTypes.NullProducerThrows | src/buildtypes.js:71-73 | A `fields` producer that returns null or undefined throws a TypeError. |
| BuildTypes.BuildType | src/buildtypes.js:97-145 | `typeSchema`, the store and the name are checked in order, with the source's messages. The result is an object type with the declared name, and a description exactly when it is truthy. Its accessor keeps the declaration and the resolvers, and uses a private empty registry only when the caller passed no store. |
| BuildTypes.DbFields | src/buildtypes.js:104-121 | Without `dynamicFields` the field set is `fields`, after a producer is applied. With `dynamicFields` the two are merged, and `dynamicFields` wins on a shared key; a null `fields` throws. A plain `fields` object is the target of `Object.assign`, so afterwards the declaration's `fields` is the merged set; in every other case the declaration is unchanged. No other property of the declaration changes. |
| BuildTypes.InvokeFields | src/buildtypes.js:103-133 | The accessor's fields are the merged set's own keys plus `id`. `id` is always non-null ID, overriding a declared `id`. Every other field is built with the resolvers `resolvers[typeSchema.name]`. |
| BuildTypes.Thunk | src/buildtypes.js:103-139 | Calling the accessor of a built type always gives `id`. A type built without a caller's store sees only its own empty registry. |
| BuildTypes.DbFieldsIsIdempotent | src/buildtypes.js:104-121 | Merging again on the declaration the first merge left gives the same set and changes nothing. |
| BuildTypes.InvokeIsIdempotent | src/buildtypes.js:103-133 | Calling the accessor a second time, after its in-place merge, gives the same fields. |
| BuildTypes.SameAssembly | src/buildtypes.js:123-127 | The accessor depends on the declaration only through the merged field set and the declared name. |
| BuildTypes.BuildTypes | src/buildtypes.js:147-166 | A null schema fails with "schema must be set". Otherwise the loop gives exactly the result of building and registering the own keys in order. |
| BuildTypes.BuildTypeIgnoresEntries | src/buildtypes.js:97-145 | Building a type does not read what the store holds. |
| BuildTypes.BuildAllFails | src/buildtypes.js:154-158 | The pass succeeds exactly when every declaration builds. |
| BuildTypes.BuildAllTypes | src/buildtypes.js:154-163 | Every domain key maps to the type built from its declaration, and the keys are exactly the domain keys. |
| BuildTypes.BuildAllRegisters | src/buildtypes.js:157 | The registry holds exactly the declared names, each type under its own name. |
| BuildTypes.BuildAllStoresBuiltTypes | src/buildtypes.js:154-159 | Every registry entry is one of the built types. |
| BuildTypes.BuildTypesShape | src/buildtypes.js:147-166 | All of the above, from the empty start `buildTypes` uses. |
| BuildTypes.TwoTypesBuild | src/buildtypes.js:154-163 | A two-type schema builds into both types and registers them under their names. |
| BuildTypes.MeasurementThunk | src/buildtypes.js:103-133 | The accessor of `Measurement` resolves its `ObjectId` reference to whatever the registry holds under `Asset` when it is called. |
| BuildTypes.ForwardReferenceResolves | src/buildtypes.js:102-133 | A type that references one declared after it sees that type once the whole pass has filled the registry. |
| Projection.Selections | src/projection.js:4-11 | Each guard (null input, no array `fieldNodes`, an empty one, no `selectionSet`, no array `selections`) gives no selections. A null first node throws. |
| Projection.SelectionKey | src/projection.js:13 | It throws exactly when the selection or its `name` is null or undefined. |
| Projection.Project | src/projection.js:11-15 | The result exists exactly when every selection has a name. Its keys are exactly the selection names, each with value 1. |
| Projection.ProjectionOf | src/projection.js:3-16 | Every value is 1, and the result is the projection of the first node's selections. |
| Projection.GetProjection | src/projection.js:3-16 | The method computes `ProjectionOf`. |
| Projection.Collect | src/projection.js:11-15 | The `reduce` loop computes `Project`. |
| Projection.GuardsGiveEmpty | src/projection.js:4-9 | Each guard gives `{}`. |
| Projection.NullFirstNodeThrows | src/projection.js:7 | A null first field node throws. |
| Projection.OnlyFirstNode | src/projection.js:7-11 | The field nodes after the first one change nothing. |
| Projection.DuplicatesCollapse | src/projection.js:11-15 | `id, title, id` gives `{id: 1, title: 1}`. |
| Memoize.Memoized.constructor | src/memoize.js:3-4 | The cache starts empty. |
| Memoize.Memoized.Call | src/memoize.js:5-14 | A hit returns the stored value without calling `fn`. A miss calls `fn` once and stores its result under the key. A stored value is never replaced, and the cache only grows. |
| Memoize.Memoized.FirstCallWins | src/memoize.js:6-13 | The value cached for a key is `fn` of the one call that first produced the key. |
| Memoize.SameKeyTwice | src/memoize.js:5-14 | Two argument lists with the same key both get the first one's result, and `fn` runs once. |
| JsonType.FieldKey | src/jsontype.js:34 | Reading a field's name throws exactly when the field or its `name` is null or undefined. |
| JsonType.Literal | src/jsontype.js:18-43 | Null or undefined throws, and a TypeError is the only error. A list literal gives an array and an object literal gives an object. |
| JsonType.ListFrom | src/jsontype.js:29 | The element-wise map fails only with a TypeError. |
| JsonType.FieldsFrom | src/jsontype.js:33-35 | The field loop fails only with a TypeError. |
| JsonType.LiteralKinds | src/jsontype.js:19-42 | BOOLEAN and STRING give `ast.value` whatever it is. FLOAT and INT give `parseFloat(ast.value)`. LIST and OBJECT without their array throw. Any other kind gives null. |
| JsonType.ParseLiteral | src/jsontype.js:18-43 | The method computes `Literal`. |
| JsonType.ParseList | src/jsontype.js:28-29 | The loop computes the element-wise map. |
| JsonType.ParseObject | src/jsontype.js:31-38 | The loop that sets `value[field.name.value]` computes the object's properties. |
| JsonType.ListOk | src/jsontype.js:29 | A list literal fails exactly when one of its elements does. |
| JsonType.ListValues | src/jsontype.js:29 | A list literal keeps the length and order, element by element. |
| JsonType.ListLiteral | src/jsontype.js:28-29 | The LIST branch succeeds exactly when every element does. The result has the same length, and element `j` is the literal of element `j`. |
| JsonType.LastFieldIsLast | src/jsontype.js:33-35 | It finds the last field with a given key, or reports that there is none. |
| JsonType.FieldsKeys | src/jsontype.js:33-35 | The object gets the key of every well-named field, and no other key. |
| JsonType.FieldsValues | src/jsontype.js:33-35 | Each key takes the value of the last field with that key. |
| JsonType.ObjectLiteral | src/jsontype.js:31-38 | The OBJECT branch's keys are exactly the field names. Each takes the value of the last field of that name; a name no field has is undefined. |
| JsonType.DuplicateFieldOverrides | src/jsontype.js:31-38 | `{a: "x", b: "y", a: "z"}` gives `{a: "z", b: "y"}`. |
| JsonType.Serialize | src/jsontype.js:47 | `serialize` is the identity. |
| JsonType.ParseValue | src/jsontype.js:48 | `parseValue` is the identity. |
| JsValue.Names | src/buildfields.js:65 | `Object.getOwnPropertyNames` lists every key once. |
| JsValue.SetProp | src/jsontype.js:34 | `o[k] = v` makes `k` read `v`, leaves every other key as it was, and adds `k` to the keys. |
| JsValue.Assign | src/buildtypes.js:113-120 | `Object.assign` throws on a null target. It copies a plain-object source's properties over the target's, and otherwise leaves the target as it is. |

## Left out

- Own property names of strings, arrays and functions (indices, `length`) are not modelled: only plain objects have own names.
- Constructors used as producers: `String`, `Number` and `Boolean` called with the markers give fixed values, and `Date` gives an empty string, since only their use as `fields` producers matters.
- A user function used as a property key becomes the fixed text `"function"` rather than its source text.
- `Object.assign` onto a non-object target (a string or number `fields`) returns the target unchanged, without boxing it.
- `JSON.stringify` of memoize's argument list is the parameter `key`. `fn` is a pure function, so a call's side effects are not modelled.
- `parseFloat` is a parameter of `parseLiteral`, so its numeric semantics are not modelled.
- The graphql library's types, `GraphQLScalarType` construction and schema validation are foreign code. Types are plain constructors, and `deepStrictEqual` is structural equality of the built fields.
- The sentinel objects `Mixed` and `ObjectId` are identified by enumeration, not by object identity.
- The two sentinel pairs, of `src/types.js` and the local `types` of `src/buildtypes.js`, are merged into one. A sentinel of one pair given to the other builder's resolver, which the source resolves to null, is not modelled; `BuildTypes.ResolversAgree` therefore excludes the sentinels.
- `Object.getOwnPropertyNames` lists integer-like keys (`"1"`, `"20"`) first, in ascending order, and only then the other keys in insertion order. The model lists every key in insertion order, so for declarations with integer-like keys the fields are built, and the registry is threaded, in a different order.
- A build that throws after an earlier field's `buildSubType` registered a subtype leaves that entry in the caller's registry. The model returns only the error, so registrations made before a throw are not kept.
- The registry's keys use structural equality of values, where a `Map` uses identity for objects.
- The thunk's in-place `Object.assign` on the declaration is returned as the changed declaration. Aliasing of that object elsewhere is not modelled.
- The registry that `buildSubType` and `getExistingType` share is an explicit argument and result of the builder, not closure state.
- `toUpperCase` upper-cases ASCII letters only.
- The `buildSubType` and `getExistingType` callbacks take fixed shapes only: a `buildSubType` that mints a type and registers it or not, and a `getExistingType` that finds nothing or reads the shared registry. Other user callbacks, such as a `buildSubType` that returns undefined or a lookup backed by another store, are not expressible.
- `src/buildfields.js` exports `memoize(buildFields)`. The memoisation wrapper is modelled on its own, and the builder without it.
- A `graphql` argument of the curried `buildFields` is not modelled; the builder calls the resolver of src/getqltype.js directly, as the uncurried `getQLType(getExistingType, fieldData)`.
- The shared-registry scenarios (`BuildFields.Shared`) pass no resolvers, as the defaults leave them.
- `BuildFields.FirstBuildRegisters`: the scenario's inner field may not be called `type` (which would make it a typed field and not a subtype) or `description` (which would add a description).
- Numbers are integers or NaN. Non-integral numbers are not modelled, because the core only tests their truthiness.
- The later `buildtypes.js` that some tests target, with `buildSubType` and an external lookup, is not part of this model.
- src/index.js only re-exports and is not part of this model.
