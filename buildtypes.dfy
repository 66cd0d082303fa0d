/** src/buildtypes.js: the type builder. It has its own, older primitive
    resolver and field builder over a `Map` store, `buildType`, which wraps
    a type declaration in a deferred field accessor, and `buildTypes`, which
    builds and registers every declared type in turn. */
module BuildTypes {
  import opened JsValue
  import opened OutputTypes
  import Current = GetQLType

  /** The `schemaStore` argument: left out (the default `new Map` applies),
      something that is not a `Map`, or a `Map` with these entries. */
  datatype StoreArg = StoreUnset | NotAMap | AMap(entries: Store)

  function Entries(s: StoreArg): Store {
    if s.AMap? then s.entries else map[]
  }

  // ---------------------------------------------------------------------
  // The older primitive resolver

  /** The scalar a marker stands for here: Date maps to Int. */
  function ScalarOf(m: Marker): Option<ScalarKind> {
    match m
    case StringFn => Some(StringT)
    case NumberFn => Some(FloatT)
    case DateFn => Some(IntT)
    case BooleanFn => Some(BooleanT)
    case Mixed => Some(JsonT)
    case ObjectId => None
  }

  /** `getQLType(schemaStore, {type, ref, required = true})`. */
  function GetQLType(schemaStore: StoreArg, spec: Val): (r: Result<OutType>)
    decreases Size(Get(spec, "type"))
    ensures Nullish(spec) ==> r == Err(TypeError)
    ensures !Nullish(spec) && !schemaStore.AMap? ==> r == Err(AssertionError("schemaStore must be a Map"))
    ensures !Nullish(spec) && schemaStore.AMap? && Nullish(Get(spec, "type")) ==>
      r == Err(AssertionError("type must be set"))
    ensures r.Ok? && r.value != NoType ==> (r.value.NonNull? <==> Current.Required(spec))
    ensures r.Ok? ==> var ty := Get(spec, "type");
      && (ty.Mark? && ScalarOf(ty.marker).Some? ==>
            r.value == Wrap(Current.Required(spec), Scalar(ScalarOf(ty.marker).value)))
      && (ty == Mark(ObjectId) ==> r.value == Wrap(Current.Required(spec),
            if Get(spec, "ref") in Entries(schemaStore) then Named(Entries(schemaStore)[Get(spec, "ref")]) else Scalar(IdT)))
      // a plain type name is not recognised: there is no registry lookup for it
      && (!ty.Mark? && !ty.Arr? ==> r.value == NoType)
    // an array is a list of what its first element resolves to
    ensures r.Ok? && Get(spec, "type").Arr? ==> var sub := Index(Get(spec, "type"), 0);
      && !Nullish(sub)
      && GetQLType(schemaStore, Current.ElementSpec(spec, sub)).Ok?
      && Nullable(r.value) == List(GetQLType(schemaStore, Current.ElementSpec(spec, sub)).value)
    ensures !Nullish(spec) && schemaStore.AMap? && Get(spec, "type").Arr? ==>
      var sub := Index(Get(spec, "type"), 0);
      // an empty array reads `type` of undefined
      && (Nullish(sub) ==> r == Err(TypeError))
      && (!Nullish(sub) && GetQLType(schemaStore, Current.ElementSpec(spec, sub)).Err? ==>
            r == GetQLType(schemaStore, Current.ElementSpec(spec, sub)))
  {
    if Nullish(spec) then Err(TypeError)
    else if !schemaStore.AMap? then Err(AssertionError("schemaStore must be a Map"))
    else
      var ty, ref, required := Get(spec, "type"), Get(spec, "ref"), Current.Required(spec);
      if Nullish(ty) then Err(AssertionError("type must be set"))
      else if ty.Mark? && ScalarOf(ty.marker).Some? then
        Ok(Wrap(required, Scalar(ScalarOf(ty.marker).value)))
      else if ty == Mark(ObjectId) then
        var refType := if ref in schemaStore.entries then Named(schemaStore.entries[ref]) else Scalar(IdT);
        Ok(Wrap(required, refType))
      else if ty.Arr? then
        var sub := Index(ty, 0);
        if Nullish(sub) then Err(TypeError)
        else
          var elem :- GetQLType(schemaStore, Current.ElementSpec(spec, sub));
          Ok(Wrap(required, List(elem)))
      else Ok(NoType)
  }

  /** The declaration mentions neither Date, nor a plain type name, nor a
      sentinel, at any level of array nesting. The sentinels are excluded
      because each resolver compares against its own pair, so a sentinel
      one of them recognises falls through to null in the other. */
  predicate Portable(spec: Val)
    decreases Size(Get(spec, "type"))
  {
    var ty := Get(spec, "type");
    if ty == Mark(DateFn) || ty == Mark(Mixed) || ty == Mark(ObjectId) || ty.Str? then false
    else if ty.Arr? && !Nullish(Index(ty, 0)) then Portable(Current.ElementSpec(spec, Index(ty, 0)))
    else true
  }

  /** Apart from Date, plain type names and the sentinels, the two
      resolvers give the same type. */
  lemma {:induction false} ResolversAgree(m: Store, spec: Val)
    requires Portable(spec)
    ensures GetQLType(AMap(m), spec) == Current.GetQLType(Callable(m), spec)
    decreases Size(Get(spec, "type"))
  {
    var ty := Get(spec, "type");
    if !Nullish(spec) && !Nullish(ty) && ty.Arr? && !Nullish(Index(ty, 0)) {
      ResolversAgree(m, Current.ElementSpec(spec, Index(ty, 0)));
    }
  }

  /** Where they differ: Date is Int here and DateTime there; a plain name
      is unrecognised here and looked up there. */
  lemma ResolversDiffer(m: Store, asset: TypeObj)
    ensures GetQLType(AMap(m), Obj([Prop("type", Mark(DateFn))])) == Ok(NonNull(Scalar(IntT)))
    ensures Current.GetQLType(Callable(m), Obj([Prop("type", Mark(DateFn))])) == Ok(NonNull(Scalar(DateTimeT)))
    ensures GetQLType(AMap(map[Str("Asset") := asset]), Obj([Prop("type", Str("Asset"))])) == Ok(NoType)
    ensures Current.GetQLType(Callable(map[Str("Asset") := asset]), Obj([Prop("type", Str("Asset"))]))
      == Ok(NonNull(Named(asset)))
  {
  }

  // ---------------------------------------------------------------------
  // The older field builder

  /** The resolver a field gets: `resolvers[x]` as it is, when both exist. */
  function ResolverOf(resolvers: Val, x: string): Option<Val> {
    if !Nullish(resolvers) && !Nullish(Get(resolvers, x)) then Some(Get(resolvers, x)) else None
  }

  /** One field `x` with declaration `fieldData`. */
  function BuildField(fieldData: Val, x: string, store: Store, resolvers: Val): (r: Result<BuiltField>)
    ensures Nullish(fieldData) ==> r == Err(TypeError)
    // the type is what the older resolver gives for the declaration, or for
    // `{type: fieldData}` when it has no `type`; its error is the field's
    ensures !Nullish(fieldData) ==>
      var spec := if Nullish(Get(fieldData, "type")) then Obj([Prop("type", fieldData)]) else fieldData;
      && (r.Ok? <==> GetQLType(AMap(store), spec).Ok?)
      && (r.Ok? ==> r.value.fieldType == GetQLType(AMap(store), spec).value)
      && (r.Err? ==> r.error == GetQLType(AMap(store), spec).error)
    ensures r.Ok? && r.value.fieldType != NoType ==>
      (r.value.fieldType.NonNull? <==>
         Current.Required(if Nullish(Get(fieldData, "type")) then Obj([Prop("type", fieldData)]) else fieldData))
    // a description only when it is truthy (an empty string is dropped)
    ensures r.Ok? ==> ((r.value.description.Some? <==> Truthy(Get(fieldData, "description")))
      && (r.value.description.Some? ==> r.value.description.value == Get(fieldData, "description")))
    // the resolver goes in as it is, whatever it is; there are no args here
    ensures r.Ok? ==> r.value.resolve == ResolverOf(resolvers, x) && r.value.args.None?
  {
    if Nullish(fieldData) then Err(TypeError)
    else
      var spec := if Nullish(Get(fieldData, "type")) then Obj([Prop("type", fieldData)]) else fieldData;
      var t :- GetQLType(AMap(store), spec);
      var description := if Truthy(Get(fieldData, "description")) then Some(Get(fieldData, "description")) else None;
      Ok(BuiltField(t, description, ResolverOf(resolvers, x), None))
  }

  function BuildEach(decl: Val, names: seq<string>, store: Store, resolvers: Val): (r: Result<map<string, BuiltField>>)
    ensures r.Ok? <==> forall k :: k in names ==> BuildField(Get(decl, k), k, store, resolvers).Ok?
    ensures r.Ok? ==> (r.value.Keys == (set k | k in names)
      && forall k :: k in r.value ==> BuildField(Get(decl, k), k, store, resolvers) == Ok(r.value[k]))
  {
    if names == [] then Ok(map[])
    else
      var rest := BuildEach(decl, names[1..], store, resolvers);
      assert forall k :: k in names <==> k == names[0] || k in names[1..];
      var f :- BuildField(Get(decl, names[0]), names[0], store, resolvers);
      var m :- rest;
      Ok(map[names[0] := f] + m)
  }

  /** `buildFields(fields, schemaStore = new Map, resolvers = null)`. */
  function BuildFields(fields: Val, schemaStore: StoreArg, resolvers: Val): (r: Result<map<string, BuiltField>>)
    ensures Nullish(fields) ==> r == Err(AssertionError("fields must be set"))
    ensures !Nullish(fields) && schemaStore.NotAMap? ==> r == Err(AssertionError("schemaStore must be a Map"))
    // a producer that returns null or undefined has no own names to list
    ensures !Nullish(fields) && !schemaStore.NotAMap? && Nullish(Produce(fields)) ==> r == Err(TypeError)
    // once the assertions pass, it fails exactly when that happens or one of the fields does
    ensures !Nullish(fields) && !schemaStore.NotAMap? ==> var decl := Produce(fields);
      r.Ok? <==> !Nullish(decl) && forall k :: k in OwnNames(decl) ==> BuildField(Get(decl, k), k, Entries(schemaStore), resolvers).Ok?
    ensures r.Ok? ==> var decl := Produce(fields);
      && r.value.Keys == (set k | k in OwnNames(decl))
      && forall k :: k in r.value ==> BuildField(Get(decl, k), k, Entries(schemaStore), resolvers) == Ok(r.value[k])
  {
    if Nullish(fields) then Err(AssertionError("fields must be set"))
    else if schemaStore.NotAMap? then Err(AssertionError("schemaStore must be a Map"))
    else
      var decl := Produce(fields);
      if Nullish(decl) then Err(TypeError)  // `Object.getOwnPropertyNames(null)`
      else BuildEach(decl, OwnNames(decl), Entries(schemaStore), resolvers)
  }

  /** A `fields` producer that returns null or undefined throws. */
  lemma NullProducerThrows(id: nat, store: Store, resolvers: Val)
    ensures BuildFields(Func(id, Null), AMap(store), resolvers) == Err(TypeError)
    ensures BuildFields(Func(id, Undefined), StoreUnset, resolvers) == Err(TypeError)
  {
  }

  // ---------------------------------------------------------------------
  // The type builder

  /** `buildType(typeSchema, schemaStore = new Map, resolvers = null)`: the
      type's fields are not built here but by the deferred accessor. */
  function BuildType(typeSchema: Val, schemaStore: StoreArg, resolvers: Val): (r: Result<TypeObj>)
    ensures !Truthy(typeSchema) ==> r == Err(AssertionError("typeSchema must be set"))
    ensures Truthy(typeSchema) && schemaStore.NotAMap? ==> r == Err(AssertionError("schemaStore must be a Map"))
    ensures Truthy(typeSchema) && !schemaStore.NotAMap? && !Truthy(Get(typeSchema, "name")) ==>
      r == Err(AssertionError("typeSchema.name must be set"))
    ensures r.Ok? ==>
      && r.value.kind == ObjectType
      && r.value.name == Get(typeSchema, "name") && Truthy(r.value.name)
      && (r.value.description.Some? <==> Truthy(Get(typeSchema, "description")))
      && (r.value.description.Some? ==> r.value.description.value == Get(typeSchema, "description"))
      // the accessor keeps the declaration, the resolvers and a registry of
      // its own only when the caller gave none
      && r.value.config == Deferred(typeSchema, resolvers, schemaStore.StoreUnset?)
  {
    if !Truthy(typeSchema) then Err(AssertionError("typeSchema must be set"))
    else if schemaStore.NotAMap? then Err(AssertionError("schemaStore must be a Map"))
    else
      var name := Get(typeSchema, "name");
      if !Truthy(name) then Err(AssertionError("typeSchema.name must be set"))
      else
        var description := if Truthy(Get(typeSchema, "description")) then Some(Get(typeSchema, "description")) else None;
        Ok(TypeObj(ObjectType, name, description, Deferred(typeSchema, resolvers, schemaStore.StoreUnset?)))
  }

  /** The declaration's field set as the accessor assembles it: `fields`
      (applied to the markers when a producer), with `dynamicFields` copied
      over it when present. The second component is the declaration
      afterwards: a plain `fields` object is merged into in place, so the
      declaration then holds the merged set. */
  function DbFields(decl: Val): (r: Result<(Val, Val)>)
    ensures var fields, dynamic := Get(decl, "fields"), Get(decl, "dynamicFields");
      && (Nullish(dynamic) ==> r == Ok((Produce(fields), decl)))
      && (!Nullish(dynamic) ==> (r.Err? <==> Nullish(Produce(fields))))
      && (r.Err? ==> r.error == TypeError)
    // entries of `dynamicFields` win over those of `fields`
    ensures r.Ok? ==> var base, extra := Produce(Get(decl, "fields")), Produce(Get(decl, "dynamicFields"));
      !Nullish(Get(decl, "dynamicFields")) && base.Obj? && extra.Obj? ==>
        && r.value.0.Obj?
        && KeySet(r.value.0.props) == KeySet(base.props) + KeySet(extra.props)
        && forall k :: Get(r.value.0, k) == if k in KeySet(extra.props) then Get(extra, k) else Get(base, k)
    // only the declaration's `fields` can change, and only to the merged set
    ensures r.Ok? ==> ((forall k :: k != "fields" ==> Get(r.value.1, k) == Get(decl, k))
      && (r.value.1 != decl ==> Get(r.value.1, "fields") == r.value.0))
    // a plain `fields` object is the target of the merge, so the declaration
    // afterwards holds the merged set; in every other case it is unchanged
    ensures r.Ok? ==> var fields := Get(decl, "fields");
      if !Nullish(Get(decl, "dynamicFields")) && !IsFunction(fields) && fields.Obj? && decl.Obj?
      then Get(r.value.1, "fields") == r.value.0
      else r.value.1 == decl
  {
    var fields, dynamic := Get(decl, "fields"), Get(decl, "dynamicFields");
    if Nullish(dynamic) then Ok((Produce(fields), decl))
    else
      var merged :- Assign(Produce(fields), Produce(dynamic));
      if !IsFunction(fields) && fields.Obj? && decl.Obj? then
        Ok((merged, Obj(SetProp(decl.props, "fields", merged))))
      else Ok((merged, decl))
  }

  /** The resolver map the accessor hands on: `resolvers[typeSchema.name]`. */
  function TypeResolvers(decl: Val, resolvers: Val): Val {
    if Nullish(resolvers) then Null else Get(resolvers, ToPropertyKey(Get(decl, "name")))
  }

  function IdField(): BuiltField { PlainField(NonNull(Scalar(IdT))) }

  /** The result of calling the accessor: the field map and the declaration
      as the call left it. */
  datatype Invoked = Invoked(fields: map<string, BuiltField>, decl: Val)

  /** The body of the deferred `fields()` accessor, with the registry the
      `Map` it closes over holds at the time of the call. */
  function InvokeFields(decl: Val, resolvers: Val, store: Store): (r: Result<Invoked>)
    // every type gets an `id: ID!`, replacing any declared `id`
    ensures r.Ok? ==> "id" in r.value.fields && r.value.fields["id"] == IdField()
    ensures r.Ok? ==> DbFields(decl).Ok? && var db := Produce(DbFields(decl).value.0);
      && r.value.decl == DbFields(decl).value.1
      && r.value.fields.Keys == (set k | k in OwnNames(db)) + {"id"}
      && forall k :: k in r.value.fields && k != "id" ==>
           BuildField(Get(db, k), k, store, TypeResolvers(decl, resolvers)) == Ok(r.value.fields[k])
  {
    var (db, after) :- DbFields(decl);
    var built :- BuildFields(db, AMap(store), TypeResolvers(decl, resolvers));
    Ok(Invoked(built["id" := IdField()], after))
  }

  /** Calls the deferred accessor of a built type; a type built without a
      registry of the caller's sees an empty one. */
  function Thunk(t: TypeObj, registry: Store): (r: Result<Invoked>)
    requires t.config.Deferred?
    ensures r.Ok? ==> "id" in r.value.fields && r.value.fields["id"] == IdField()
    ensures t.config.privateStore ==> r == Thunk(t, map[])
  {
    InvokeFields(t.config.decl, t.config.resolvers, if t.config.privateStore then map[] else registry)
  }

  /** Assembling the field set again from the declaration it left behind
      gives the same set and leaves the declaration as it is. */
  lemma DbFieldsIsIdempotent(decl: Val)
    requires DbFields(decl).Ok?
    ensures DbFields(DbFields(decl).value.1) == DbFields(decl)
  {
    var fields, dynamic := Get(decl, "fields"), Get(decl, "dynamicFields");
    var (db, after) := DbFields(decl).value;
    if !Nullish(dynamic) && !IsFunction(fields) && fields.Obj? && decl.Obj? {
      var extra := Produce(dynamic);
      assert Produce(fields) == fields;
      assert after == Obj(SetProp(decl.props, "fields", db));
      assert Get(after, "fields") == db;
      assert Get(after, "dynamicFields") == dynamic;
      assert db.Obj? && !IsFunction(db) && Produce(db) == db;
      if extra.Obj? {
        assert db == Obj(AssignNames(fields.props, extra.props, Names(extra.props)));
        AssignAgain(fields.props, extra.props);
      } else {
        assert db == fields;
      }
      assert Assign(db, extra) == Ok(db);
      SetPropSame(after.props, "fields", db);
    }
  }

  /** Calling the accessor again on the declaration it left behind gives
      the same fields and changes nothing further. */
  lemma InvokeIsIdempotent(decl: Val, resolvers: Val, store: Store)
    requires InvokeFields(decl, resolvers, store).Ok?
    ensures var r := InvokeFields(decl, resolvers, store).value;
      InvokeFields(r.decl, resolvers, store) == Ok(r)
  {
    var after := DbFields(decl).value.1;
    DbFieldsIsIdempotent(decl);
    DbFieldsKeepsName(decl);
    SameAssembly(decl, after, resolvers, store);
  }

  lemma DbFieldsKeepsName(decl: Val)
    requires DbFields(decl).Ok?
    ensures Get(DbFields(decl).value.1, "name") == Get(decl, "name")
  {
  }

  /** The accessor depends on the declaration only through the field set it
      assembles and the declared name. */
  lemma SameAssembly(d1: Val, d2: Val, resolvers: Val, store: Store)
    requires DbFields(d1) == DbFields(d2) && Get(d1, "name") == Get(d2, "name")
    ensures InvokeFields(d1, resolvers, store) == InvokeFields(d2, resolvers, store)
  {
    assert TypeResolvers(d1, resolvers) == TypeResolvers(d2, resolvers);
  }

  /** Copying the same object onto a merged set a second time changes nothing. */
  lemma AssignAgain(target: seq<Prop>, src: seq<Prop>)
    ensures var once := Obj(AssignNames(target, src, Names(src)));
      Assign(once, Obj(src)) == Ok(once)
  {
    var once := AssignNames(target, src, Names(src));
    AssignNamesSame(once, src, Names(src));
  }

  lemma {:induction false} AssignNamesSame(target: seq<Prop>, src: seq<Prop>, names: seq<string>)
    requires forall k :: k in names ==> k in KeySet(target) && JsValue.Lookup(target, k) == JsValue.Lookup(src, k)
    ensures AssignNames(target, src, names) == target
    decreases |names|
  {
    if names != [] {
      SetPropSame(target, names[0], JsValue.Lookup(src, names[0]));
      AssignNamesSame(target, src, names[1..]);
    }
  }

  /** Setting a property to the value it already has leaves the list as it is. */
  lemma {:induction false} SetPropSame(ps: seq<Prop>, k: string, v: Val)
    requires k in KeySet(ps) && JsValue.Lookup(ps, k) == v
    ensures SetProp(ps, k, v) == ps
  {
    KeySetCons(ps);
    if ps[0].key != k {
      SetPropSame(ps[1..], k, v);
      assert [ps[0]] + ps[1..] == ps;
    } else {
      assert [Prop(k, v)] + ps[1..] == ps;
    }
  }

  // ---------------------------------------------------------------------
  // The type graph

  /** The built types by domain key, and the registry by declared name. */
  datatype Graph = Graph(types: map<string, TypeObj>, store: Store)

  /** The name a domain entry declares. */
  function DeclaredName(schema: Val, x: string): Val {
    Get(Get(schema, x), "name")
  }

  /** Builds the entries `names` in order on top of `g`, registering each
      type under its declared name straight after building it. */
  function BuildAll(schema: Val, names: seq<string>, resolvers: Val, g: Graph): (r: Result<Graph>)
    decreases |names|
  {
    if names == [] then Ok(g)
    else
      var t :- BuildType(Get(schema, names[0]), AMap(g.store), resolvers);
      BuildAll(schema, names[1..], resolvers,
        Graph(g.types[names[0] := t], g.store[DeclaredName(schema, names[0]) := t]))
  }

  /** `buildTypes(schema, resolvers = null)`. */
  method BuildTypes(schema: Val, resolvers: Val) returns (r: Result<Graph>)
    ensures Nullish(schema) ==> r == Err(AssertionError("schema must be set"))
    ensures !Nullish(schema) ==> r == BuildAll(schema, OwnNames(schema), resolvers, Graph(map[], map[]))
  {
    if Nullish(schema) {
      return Err(AssertionError("schema must be set"));
    }
    var names := OwnNames(schema);
    var types: map<string, TypeObj> := map[];
    var store: Store := map[];
    var i := 0;
    while i < |names|
      invariant 0 <= i <= |names|
      invariant BuildAll(schema, names, resolvers, Graph(map[], map[]))
        == BuildAll(schema, names[i..], resolvers, Graph(types, store))
    {
      var x := names[i];
      var built := BuildType(Get(schema, x), AMap(store), resolvers);
      if built.Err? {
        assert names[i..][0] == x;
        return Err(built.error);
      }
      var t := built.value;
      store := store[DeclaredName(schema, x) := t];
      types := types[x := t];
      assert names[i..][1..] == names[i + 1..];
      i := i + 1;
    }
    return Ok(Graph(types, store));
  }

  /** Building does not depend on what the registry holds. */
  lemma BuildTypeIgnoresEntries(typeSchema: Val, a: Store, b: Store, resolvers: Val)
    ensures BuildType(typeSchema, AMap(a), resolvers) == BuildType(typeSchema, AMap(b), resolvers)
  {
  }

  /** The registry holds every type under its own name. */
  ghost predicate Coherent(g: Graph) {
    forall n :: n in g.store ==> g.store[n].name == n
  }

  /** Distinct names, none of them already built. */
  predicate Fresh(names: seq<string>, types: map<string, TypeObj>) {
    && (forall i, j :: 0 <= i < j < |names| ==> names[i] != names[j])
    && (forall x :: x in names ==> x !in types)
  }

  lemma FreshTail(names: seq<string>, types: map<string, TypeObj>, t: TypeObj)
    requires names != [] && Fresh(names, types)
    ensures Fresh(names[1..], types[names[0] := t]) && names[0] !in names[1..]
  {
    forall i, j | 0 <= i < j < |names[1..]| ensures names[1..][i] != names[1..][j] {
      assert names[1..][i] == names[i + 1] && names[1..][j] == names[j + 1];
    }
    forall j | 0 <= j < |names[1..]| ensures names[1..][j] != names[0] {
      assert names[1..][j] == names[j + 1];
    }
  }

  /** The graph pass fails exactly when one declaration is refused. */
  lemma {:induction false} BuildAllFails(schema: Val, names: seq<string>, resolvers: Val, g: Graph)
    ensures BuildAll(schema, names, resolvers, g).Ok?
      <==> forall x :: x in names ==> BuildType(Get(schema, x), AMap(map[]), resolvers).Ok?
    decreases |names|
  {
    if names != [] {
      BuildTypeIgnoresEntries(Get(schema, names[0]), g.store, map[], resolvers);
      assert forall y :: y in names <==> y == names[0] || y in names[1..];
      var b := BuildType(Get(schema, names[0]), AMap(g.store), resolvers);
      if b.Ok? {
        BuildAllFails(schema, names[1..], resolvers,
          Graph(g.types[names[0] := b.value], g.store[DeclaredName(schema, names[0]) := b.value]));
      }
    }
  }

  /** Every domain key maps to the type built from its declaration. */
  lemma {:induction false} BuildAllTypes(schema: Val, names: seq<string>, resolvers: Val, g: Graph)
    requires Fresh(names, g.types)
    ensures var r := BuildAll(schema, names, resolvers, g); r.Ok? ==>
      && r.value.types.Keys == g.types.Keys + (set x | x in names)
      && (forall x :: x in g.types ==> r.value.types[x] == g.types[x])
      && (forall x :: x in names ==>
            BuildType(Get(schema, x), AMap(map[]), resolvers).Ok?
            && r.value.types[x] == BuildType(Get(schema, x), AMap(map[]), resolvers).value)
    decreases |names|
  {
    if names != [] {
      var x := names[0];
      BuildTypeIgnoresEntries(Get(schema, x), g.store, map[], resolvers);
      assert forall y :: y in names <==> y == x || y in names[1..];
      var b := BuildType(Get(schema, x), AMap(g.store), resolvers);
      if b.Ok? {
        FreshTail(names, g.types, b.value);
        BuildAllTypes(schema, names[1..], resolvers, Graph(g.types[x := b.value], g.store[DeclaredName(schema, x) := b.value]));
      }
    }
  }

  /** Every declared name is registered, the registry holds nothing else,
      and it holds each type under its own name. */
  lemma {:induction false} BuildAllRegisters(schema: Val, names: seq<string>, resolvers: Val, g: Graph)
    requires Coherent(g)
    ensures var r := BuildAll(schema, names, resolvers, g); r.Ok? ==>
      && r.value.store.Keys == g.store.Keys + (set x | x in names :: DeclaredName(schema, x))
      && Coherent(r.value)
    decreases |names|
  {
    if names != [] {
      var x := names[0];
      var b := BuildType(Get(schema, x), AMap(g.store), resolvers);
      if b.Ok? {
        var g' := Graph(g.types[x := b.value], g.store[DeclaredName(schema, x) := b.value]);
        assert Coherent(g');
        BuildAllRegisters(schema, names[1..], resolvers, g');
        assert (set y | y in names :: DeclaredName(schema, y))
          == {DeclaredName(schema, x)} + (set y | y in names[1..] :: DeclaredName(schema, y)) by {
          assert forall y :: y in names <==> y == x || y in names[1..];
        }
      }
    }
  }

  /** Each registry entry is one of the built types. */
  lemma {:induction false} BuildAllStoresBuiltTypes(schema: Val, names: seq<string>, resolvers: Val, g: Graph)
    requires Fresh(names, g.types)
    requires forall n :: n in g.store ==> exists y :: y in g.types && g.types[y] == g.store[n]
    ensures var r := BuildAll(schema, names, resolvers, g); r.Ok? ==>
      forall n :: n in r.value.store ==> exists y :: y in r.value.types && r.value.types[y] == r.value.store[n]
    decreases |names|
  {
    if names != [] {
      var x := names[0];
      var b := BuildType(Get(schema, x), AMap(g.store), resolvers);
      if b.Ok? {
        var t := b.value;
        var g' := Graph(g.types[x := t], g.store[DeclaredName(schema, x) := t]);
        forall n | n in g'.store ensures exists y :: y in g'.types && g'.types[y] == g'.store[n] {
          if n == DeclaredName(schema, x) {
            assert g'.types[x] == g'.store[n];
          } else {
            var y :| y in g.types && g.types[y] == g.store[n];
            assert y != x;
            assert g'.types[y] == g'.store[n];
          }
        }
        FreshTail(names, g.types, t);
        BuildAllStoresBuiltTypes(schema, names[1..], resolvers, g');
        assert BuildAll(schema, names, resolvers, g) == BuildAll(schema, names[1..], resolvers, g');
        var r := BuildAll(schema, names[1..], resolvers, g');
        assert r.Ok? ==> forall n :: n in r.value.store ==> exists y :: y in r.value.types && r.value.types[y] == r.value.store[n];
      }
    }
  }

  /** What the graph pass promises, from an empty start. */
  lemma BuildTypesShape(schema: Val, resolvers: Val)
    ensures var names := OwnNames(schema);
      var r := BuildAll(schema, names, resolvers, Graph(map[], map[]));
      && (r.Ok? <==> forall x :: x in names ==> BuildType(Get(schema, x), AMap(map[]), resolvers).Ok?)
      && (r.Ok? ==>
        && r.value.types.Keys == (set x | x in names)
        && (forall x :: x in names ==> r.value.types[x] == BuildType(Get(schema, x), AMap(map[]), resolvers).value)
        && r.value.store.Keys == (set x | x in names :: DeclaredName(schema, x))
        && Coherent(r.value)
        && forall n :: n in r.value.store ==> exists y :: y in r.value.types && r.value.types[y] == r.value.store[n])
  {
    var names := OwnNames(schema);
    var g := Graph(map[], map[]);
    BuildAllFails(schema, names, resolvers, g);
    BuildAllTypes(schema, names, resolvers, g);
    BuildAllRegisters(schema, names, resolvers, g);
    BuildAllStoresBuiltTypes(schema, names, resolvers, g);
  }

  // ---------------------------------------------------------------------
  // A forward reference

  function AssetDecl(): Val {
    Obj([Prop("name", Str("Asset")), Prop("fields", Obj([Prop("title", Mark(StringFn))]))])
  }

  function MeasurementDecl(): Val {
    Obj([Prop("name", Str("Measurement")),
         Prop("fields", Obj([Prop("asset", Obj([Prop("type", Mark(ObjectId)), Prop("ref", Str("Asset"))]))]))])
  }

  function TwoTypes(): Val {
    Obj([Prop("measurement", MeasurementDecl()), Prop("asset", AssetDecl())])
  }

  function AssetType(): TypeObj { TypeObj(ObjectType, Str("Asset"), None, Deferred(AssetDecl(), Null, false)) }
  function MeasurementType(): TypeObj {
    TypeObj(ObjectType, Str("Measurement"), None, Deferred(MeasurementDecl(), Null, false))
  }

  function TwoTypesGraph(): Graph {
    Graph(map["measurement" := MeasurementType(), "asset" := AssetType()],
          map[Str("Measurement") := MeasurementType(), Str("Asset") := AssetType()])
  }

  /** Each declaration builds on its own, whatever the registry holds. */
  lemma TwoTypesEach(store: Store)
    ensures BuildType(MeasurementDecl(), AMap(store), Null) == Ok(MeasurementType())
    ensures BuildType(AssetDecl(), AMap(store), Null) == Ok(AssetType())
  {
  }

  lemma TwoTypesBuild()
    ensures BuildAll(TwoTypes(), OwnNames(TwoTypes()), Null, Graph(map[], map[])) == Ok(TwoTypesGraph())
  {
    var ps := TwoTypes().props;
    assert ps[..1] == [ps[0]];
    NamesOfOne(ps[0]);
    assert OwnNames(TwoTypes()) == ["measurement", "asset"];
    TwoTypesEach(map[Str("Measurement") := MeasurementType()]);
    assert ["measurement", "asset"][1..] == ["asset"];
    assert ["asset"][1..] == [];
  }

  function MeasurementFields(): Val {
    Obj([Prop("asset", Obj([Prop("type", Mark(ObjectId)), Prop("ref", Str("Asset"))]))])
  }

  lemma MeasurementFieldsBuild(store: Store)
    requires Str("Asset") in store
    ensures BuildFields(MeasurementFields(), AMap(store), Null)
      == Ok(map["asset" := PlainField(NonNull(Named(store[Str("Asset")])))])
  {
    var fields := MeasurementFields();
    NamesOfOne(fields.props[0]);
    AssetReference(store);
    BuildOne(fields, "asset", store, Null);
  }

  lemma BuildOne(decl: Val, k: string, store: Store, resolvers: Val)
    requires BuildField(Get(decl, k), k, store, resolvers).Ok?
    ensures BuildEach(decl, [k], store, resolvers) == Ok(map[k := BuildField(Get(decl, k), k, store, resolvers).value])
  {
    assert [k][1..] == [];
    assert BuildEach(decl, [], store, resolvers) == Ok(map[]);
    assert map[k := BuildField(Get(decl, k), k, store, resolvers).value] + map[]
      == map[k := BuildField(Get(decl, k), k, store, resolvers).value];
  }

  lemma AssetReference(store: Store)
    requires Str("Asset") in store
    ensures BuildField(Get(MeasurementFields(), "asset"), "asset", store, Null)
      == Ok(PlainField(NonNull(Named(store[Str("Asset")]))))
  {
    var fd := Obj([Prop("type", Mark(ObjectId)), Prop("ref", Str("Asset"))]);
    assert Get(MeasurementFields(), "asset") == fd;
    assert Get(fd, "type") == Mark(ObjectId) && Get(fd, "ref") == Str("Asset");
    assert Get(fd, "description") == Undefined;
    assert GetQLType(AMap(store), fd) == Ok(NonNull(Named(store[Str("Asset")])));
  }

  lemma MeasurementParts()
    ensures DbFields(MeasurementDecl()) == Ok((MeasurementFields(), MeasurementDecl()))
    ensures TypeResolvers(MeasurementDecl(), Null) == Null
  {
  }

  /** The fields of `Measurement`, built when its accessor is called, refer
      to whatever the registry then holds under `Asset`. */
  lemma MeasurementThunk(store: Store)
    requires Str("Asset") in store
    ensures Thunk(MeasurementType(), store)
      == Ok(Invoked(map["asset" := PlainField(NonNull(Named(store[Str("Asset")]))), "id" := IdField()], MeasurementDecl()))
  {
    MeasurementParts();
    MeasurementFieldsBuild(store);
  }

  /** A type may name one declared after it: its fields are built only when
      the accessor is called, against the registry the whole pass filled. */
  lemma ForwardReferenceResolves()
    ensures var store := TwoTypesGraph().store;
      && Thunk(MeasurementType(), store).Ok?
      && Thunk(MeasurementType(), store).value.fields
         == map["asset" := PlainField(NonNull(Named(AssetType()))), "id" := IdField()]
  {
    MeasurementThunk(TwoTypesGraph().store);
  }

}
