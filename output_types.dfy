/** The output side: the types the graphql library's constructors build
    (`GraphQLNonNull`, `GraphQLList`, the scalars, `GraphQLObjectType`,
    `GraphQLInputObjectType`), modelled as plain constructors, and the type
    registry the builders share. */
module OutputTypes {
  import opened JsValue

  /** The scalar types: graphql's String, Float, Int, Boolean and ID,
      graphql-iso-date's DateTime, and the JSON scalar of src/jsontype.js. */
  datatype ScalarKind = StringT | FloatT | IntT | DateTimeT | BooleanT | JsonT | IdT

  datatype TypeKind = ObjectType | InputObjectType

  /** An output type. `NoType` is a JavaScript null standing where a type is
      expected, as in `new GraphQLList(null)`. */
  datatype OutType =
    | NonNull(ofType: OutType)
    | List(ofType: OutType)
    | Scalar(scalar: ScalarKind)
    | Named(obj: TypeObj)
    | NoType

  /** A named object type with the configuration it was constructed with. */
  datatype TypeObj = TypeObj(kind: TypeKind, name: Val, description: Option<Val>, config: FieldsConfig)

  /** The `fields` of a type configuration: a built field map, or the deferred
      field accessor of src/buildtypes.js, which closes over the type
      declaration, the resolver map and a registry. `privateStore` says that
      the registry is the empty one `buildType` made for itself because the
      caller passed none. */
  datatype FieldsConfig =
    | Direct(fields: map<string, BuiltField>)
    | Deferred(decl: Val, resolvers: Val, privateStore: bool)

  /** A built field: `{type, description?, resolve?, args?}`. */
  datatype BuiltField = BuiltField(
    fieldType: OutType,
    description: Option<Val>,
    resolve: Option<Val>,
    args: Option<map<string, BuiltField>>)

  /** The type registry: type name to built type. */
  type Store = map<Val, TypeObj>

  /** A `getExistingType` argument: something that is not a function, or a
      function answering from a registry (a no-op lookup answers from the
      empty one). */
  datatype Lookup = NotCallable | Callable(known: Store) {
    function Call(key: Val): Option<TypeObj>
      requires Callable?
    {
      if key in known then Some(known[key]) else None
    }
  }

  /** `required ? new GraphQLNonNull(t) : t`. */
  function Wrap(required: bool, t: OutType): OutType {
    if required then NonNull(t) else t
  }

  /** A type with its outermost NonNull removed. */
  function Nullable(t: OutType): OutType {
    if t.NonNull? then t.ofType else t
  }

  /** A field of the given type without description, resolver or args. */
  function PlainField(t: OutType): BuiltField {
    BuiltField(t, None, None, None)
  }
}
