/** src/buildfields.js: the recursive field-set builder. It resolves every
    field of a declaration, builds inline subtypes (checking them against a
    type of the same name the lookup already knows), and attaches
    descriptions, resolvers and resolver arguments. The registry that the
    `buildSubType` and `getExistingType` callbacks share is threaded through
    every call as a value. */
module BuildFields {
  import opened JsValue
  import opened OutputTypes
  import GetQLType
  import SubType

  // ---------------------------------------------------------------------
  // Subtype names

  predicate IsWordChar(c: char) {
    ('a' <= c <= 'z') || ('A' <= c <= 'Z') || ('0' <= c <= '9') || c == '_'
  }

  /** `toUpperCase` on one character (ASCII letters). */
  function UpperChar(c: char): (u: char)
    ensures u != 's'
  {
    if 'a' <= c <= 'z' then (c as int - 32) as char else c
  }

  /** The name with its first character upper-cased. */
  function Capitalize(name: string): (c: string)
    requires name != ""
    ensures |c| == |name| && c[0] == UpperChar(name[0]) && c[1..] == name[1..]
  {
    [UpperChar(name[0])] + name[1..]
  }

  /** An `s` at position `i` that `/s\b/` matches: the next character is
      not a word character, or there is none. */
  predicate BoundaryS(s: string, i: nat)
    requires i < |s|
  {
    s[i] == 's' && (i + 1 == |s| || !IsWordChar(s[i + 1]))
  }

  /** The first match of `/s\b/` at or after `from`. */
  function FirstBoundaryS(s: string, from: nat): (r: Option<nat>)
    decreases |s| - from
    ensures r.Some? ==> from <= r.value < |s| && BoundaryS(s, r.value)
    ensures r.Some? ==> forall k :: from <= k < r.value ==> !BoundaryS(s, k)
    ensures r.None? ==> forall k :: from <= k < |s| ==> !BoundaryS(s, k)
  {
    if from >= |s| then None
    else if BoundaryS(s, from) then Some(from)
    else FirstBoundaryS(s, from + 1)
  }

  /** `getSubTypeName`: upper-case the first letter, then remove the first
      `s` that ends a word. An empty name throws (`name[0]` is undefined). */
  function GetSubTypeName(name: string): (r: Result<string>)
    ensures r.Err? <==> name == ""
    ensures r.Err? ==> r.error == TypeError
    ensures r.Ok? ==> 1 <= |r.value| && |name| - 1 <= |r.value| <= |name| && r.value[0] == UpperChar(name[0])
    // the capitalised name whole when no `s` ends a word, otherwise with the
    // first such `s` removed
    ensures r.Ok? ==> var c := Capitalize(name);
      || ((forall i :: 0 <= i < |c| ==> !BoundaryS(c, i)) && r.value == c)
      || (exists j :: 0 <= j < |c| && BoundaryS(c, j) && (forall i :: 0 <= i < j ==> !BoundaryS(c, i))
            && r.value == c[..j] + c[j + 1..])
  {
    if name == "" then Err(TypeError)
    else
      var c := Capitalize(name);
      match FirstBoundaryS(c, 0)
      case None => Ok(c)
      case Some(j) => Ok(c[..j] + c[j + 1..])
  }

  /** For a name made of word characters only (an identifier), the only `s`
      that ends a word is a final one, so the derived name is the name
      capitalised with one trailing `s` dropped. */
  lemma IdentifierSubTypeName(name: string)
    requires name != "" && forall i :: 0 <= i < |name| ==> IsWordChar(name[i])
    ensures GetSubTypeName(name) ==
      Ok(if |name| >= 2 && name[|name| - 1] == 's' then Capitalize(name)[..|name| - 1] else Capitalize(name))
  {
    var c := Capitalize(name);
    assert forall i :: 0 <= i < |c| ==> IsWordChar(c[i]) by {
      forall i | 0 <= i < |c| ensures IsWordChar(c[i]) {
        if i == 0 {
          assert IsWordChar(name[0]);
        } else {
          assert c[i] == c[1..][i - 1] == name[1..][i - 1] == name[i];
        }
      }
    }
    assert forall k :: 0 <= k < |c| - 1 ==> !BoundaryS(c, k) by {
      forall k | 0 <= k < |c| - 1 ensures !BoundaryS(c, k) {
        assert IsWordChar(c[k + 1]);
      }
    }
    if |name| >= 2 && name[|name| - 1] == 's' {
      assert c[|c| - 1] == c[1..][|c| - 2] == name[1..][|c| - 2] == name[|name| - 1];
      assert BoundaryS(c, |c| - 1);
      assert FirstBoundaryS(c, 0) == Some(|c| - 1);
      assert c[|c| - 1 + 1..] == [];
      assert GetSubTypeName(name) == Ok(c[..|c| - 1] + c[|c| - 1 + 1..]);
      assert c[..|c| - 1] + c[|c| - 1 + 1..] == c[..|c| - 1];
    } else {
      if |name| >= 2 {
        assert c[|c| - 1] == c[1..][|c| - 2] == name[1..][|c| - 2] == name[|name| - 1];
      }
      assert !BoundaryS(c, |c| - 1);
      assert FirstBoundaryS(c, 0) == None;
    }
  }

  /** The derivation the array branch relies on, and its lossiness. */
  lemma SubTypeNameOfMetadatas()
    ensures GetSubTypeName("metadatas") == Ok("Metadata")
  {
    IdentifierSubTypeName("metadatas");
    assert Capitalize("metadatas") == "Metadatas";
    assert "Metadatas"[..8] == "Metadata";
  }

  lemma SubTypeNameOfAssets()
    ensures GetSubTypeName("assets") == Ok("Asset")
  {
    IdentifierSubTypeName("assets");
    assert Capitalize("assets") == "Assets";
    assert "Assets"[..5] == "Asset";
  }

  /** A plural without a final `s` is kept whole. */
  lemma SubTypeNameOfChildren()
    ensures GetSubTypeName("children") == Ok("Children")
  {
    IdentifierSubTypeName("children");
    assert Capitalize("children") == "Children";
  }

  // ---------------------------------------------------------------------
  // Options and state

  /** The `buildSubType` option: absent (the default mints an input object
      type), not a function, or a function that mints a type of `kind` and,
      when `registers`, stores it in the shared registry under its name. */
  datatype BuilderArg = BuilderUnset | BuilderNotCallable | Builder(kind: TypeKind, registers: bool)

  /** The `getExistingType` option: absent (the default `() => {}` finds
      nothing), not a function, a function that finds nothing, or a read of
      the shared registry. */
  datatype LookupArg = LookupUnset | LookupNotCallable | NoopLookup | StoreLookup

  datatype Options = Options(buildSubType: BuilderArg, getExistingType: LookupArg, resolvers: Val)

  /** The options after the destructuring defaults. */
  function WithDefaults(o: Options): (d: Options)
    ensures Nullish(d.resolvers) == Nullish(o.resolvers)
    // an absent callback is defaulted; one passed as a non-function stays unusable
    ensures Usable(d) <==> !o.buildSubType.BuilderNotCallable? && !o.getExistingType.LookupNotCallable?
  {
    Options(
      if o.buildSubType.BuilderUnset? then Builder(InputObjectType, false) else o.buildSubType,
      if o.getExistingType.LookupUnset? then NoopLookup else o.getExistingType,
      if o.resolvers.Undefined? then Null else o.resolvers)
  }

  /** Options whose callbacks both passed the entry assertions. */
  predicate Usable(o: Options) {
    o.buildSubType.Builder? && (o.getExistingType.NoopLookup? || o.getExistingType.StoreLookup?)
  }

  /** The lookup as it answers against the current registry. */
  function LookupIn(o: Options, store: Store): (l: Lookup)
    requires Usable(o)
    ensures l.Callable?
  {
    if o.getExistingType.StoreLookup? then Callable(store) else Callable(map[])
  }

  function Rank(o: Options): nat {
    if Nullish(o.resolvers) then 0 else 1
  }

  /** The registry only grew: every old entry is still there, unchanged. */
  ghost predicate Extends(after: Store, before: Store) {
    forall k :: k in before ==> k in after && after[k] == before[k]
  }

  lemma ExtendsTrans(c: Store, b: Store, a: Store)
    ensures Extends(c, b) && Extends(b, a) ==> Extends(c, a)
  {
  }

  lemma NamesSnoc(init: seq<string>, x: string)
    ensures (set k | k in init + [x]) == (set k | k in init) + {x}
  {
    assert forall k :: k in init + [x] <==> k in init || k == x;
  }

  /** Whether building may write to the registry at all. */
  predicate Registers(o: Options) {
    o.buildSubType.Builder? && o.buildSubType.registers
  }

  datatype Built = Built(fields: map<string, BuiltField>, store: Store)
  datatype Typed = Typed(t: OutType, store: Store)
  datatype FieldBuilt = FieldBuilt(field: BuiltField, store: Store)

  /** The description a declaration contributes. */
  function DescriptionOf(fieldData: Val): Option<Val> {
    if Nullish(Get(fieldData, "description")) then None else Some(Get(fieldData, "description"))
  }

  /** The assertion message for two subtypes of one name that differ. */
  function MismatchMessage(name: string): string {
    "Subtypes' fields with same name `" + name + "` have to match"
  }

  // ---------------------------------------------------------------------
  // The builder

  /** `_buildFields(fields, options)`. */
  function BuildFields(fields: Val, opts: Options, store: Store): (r: Result<Built>)
    decreases Rank(opts), Size(fields), 2, 0
    ensures Nullish(fields) ==> r == Err(AssertionError("fields must be set"))
    ensures !Nullish(fields) && opts.buildSubType.BuilderNotCallable? ==>
      r == Err(AssertionError("buildSubType must be a function"))
    ensures !Nullish(fields) && !opts.buildSubType.BuilderNotCallable? && opts.getExistingType.LookupNotCallable? ==>
      r == Err(AssertionError("getExistingType must be a function"))
    // a producer that returns null or undefined has no own names to list
    ensures !Nullish(fields) && Usable(WithDefaults(opts)) && Nullish(Produce(fields)) ==> r == Err(TypeError)
    ensures r.Ok? ==> Usable(WithDefaults(opts)) && !Nullish(Produce(fields))
    // exactly the declaration's own keys, each with its own description
    ensures r.Ok? ==> var decl := Produce(fields);
      && r.value.fields.Keys == (set k | k in OwnNames(decl))
      && forall k :: k in r.value.fields ==> r.value.fields[k].description == DescriptionOf(Get(decl, k))
    // without a registering buildSubType, every entry is that field built on its own
    ensures r.Ok? && Usable(WithDefaults(opts)) && !Registers(WithDefaults(opts)) ==> var decl := Produce(fields);
      forall k {:trigger BuildField(decl, k, WithDefaults(opts), store)} :: k in r.value.fields ==>
        BuildField(decl, k, WithDefaults(opts), store).Ok? && r.value.fields[k] == BuildField(decl, k, WithDefaults(opts), store).value.field
    // the registry only changes through a registering buildSubType, and a
    // registry-backed lookup means it only ever grows
    ensures r.Ok? && !Registers(WithDefaults(opts)) ==> r.value.store == store
    ensures r.Ok? && opts.getExistingType.StoreLookup? ==> Extends(r.value.store, store)
  {
    if Nullish(fields) then Err(AssertionError("fields must be set"))
    else
      var o := WithDefaults(opts);
      if o.buildSubType.BuilderNotCallable? then Err(AssertionError("buildSubType must be a function"))
      else if o.getExistingType.LookupNotCallable? then Err(AssertionError("getExistingType must be a function"))
      else
        var decl := Produce(fields);
        if Nullish(decl) then Err(TypeError)  // `Object.getOwnPropertyNames(null)`
        else BuildEach(decl, OwnNames(decl), o, store)
  }

  /** The `map`/`reduce` over the own names: fields are built in order, each
      seeing the registry as the previous one left it, and a later entry
      wins over an earlier one of the same name. */
  function BuildEach(decl: Val, names: seq<string>, o: Options, store: Store): (r: Result<Built>)
    requires Usable(o)
    decreases Rank(o), Size(decl), 1, |names|
    ensures r.Ok? ==> r.value.fields.Keys == (set k | k in names)
    ensures r.Ok? ==> forall k :: k in r.value.fields ==> r.value.fields[k].description == DescriptionOf(Get(decl, k))
    // without a registering buildSubType, every entry is that field built on its own
    ensures r.Ok? && !Registers(o) ==> forall k {:trigger BuildField(decl, k, o, store)} :: k in r.value.fields ==>
      BuildField(decl, k, o, store).Ok? && r.value.fields[k] == BuildField(decl, k, o, store).value.field
    ensures r.Ok? && !Registers(o) ==> r.value.store == store
    ensures r.Ok? && o.getExistingType.StoreLookup? ==> Extends(r.value.store, store)
  {
    if names == [] then Ok(Built(map[], store))
    else
      var x := names[|names| - 1];
      var prev :- BuildEach(decl, names[..|names| - 1], o, store);
      var f :- BuildField(decl, x, o, prev.store);
      EachStep(decl, names[..|names| - 1], x, o, store, prev, f);
      assert names == names[..|names| - 1] + [x];
      Ok(Built(prev.fields[x := f.field], f.store))
  }

  /** One step of `BuildEach`: adding field `x`, built against the registry
      the fields before it left, keeps what `BuildEach` promises. */
  lemma EachStep(decl: Val, init: seq<string>, x: string, o: Options, store: Store, prev: Built, f: FieldBuilt)
    requires Usable(o)
    requires prev.fields.Keys == (set k | k in init)
    requires forall k :: k in prev.fields ==> prev.fields[k].description == DescriptionOf(Get(decl, k))
    requires !Registers(o) ==> prev.store == store && forall k {:trigger BuildField(decl, k, o, store)} :: k in prev.fields ==>
      BuildField(decl, k, o, store).Ok? && prev.fields[k] == BuildField(decl, k, o, store).value.field
    requires o.getExistingType.StoreLookup? ==> Extends(prev.store, store)
    requires BuildField(decl, x, o, prev.store) == Ok(f)
    decreases Rank(o), Size(decl), 0, 2
    ensures var fields := prev.fields[x := f.field];
      && fields.Keys == (set k | k in init + [x])
      && (forall k :: k in fields ==> fields[k].description == DescriptionOf(Get(decl, k)))
      && (!Registers(o) ==> f.store == store && forall k {:trigger BuildField(decl, k, o, store)} :: k in fields ==>
            BuildField(decl, k, o, store).Ok? && fields[k] == BuildField(decl, k, o, store).value.field)
      && (o.getExistingType.StoreLookup? ==> Extends(f.store, store))
  {
    NamesSnoc(init, x);
    ExtendsTrans(f.store, prev.store, store);
  }

  /** The whole builder in order: with the callbacks after their defaults,
      own field `i` of the declaration is built against the registry the
      own fields before it left. */
  lemma BuildFieldsInOrder(fields: Val, opts: Options, store: Store, i: nat)
    requires BuildFields(fields, opts, store).Ok? && i < |OwnNames(Produce(fields))|
    ensures var decl, o, names := Produce(fields), WithDefaults(opts), OwnNames(Produce(fields));
      && Usable(o)
      && BuildEach(decl, names[..i], o, store).Ok?
      && var before := BuildEach(decl, names[..i], o, store).value.store;
         && BuildField(decl, names[i], o, before).Ok?
         && BuildFields(fields, opts, store).value.fields[names[i]] == BuildField(decl, names[i], o, before).value.field
  {
    var decl, o, names := Produce(fields), WithDefaults(opts), OwnNames(Produce(fields));
    assert decl.Obj? && names == Names(decl.props);
    BuildEachInOrder(decl, names, o, store, i);
  }

  /** A `fields` producer that returns null or undefined throws, as
      `Object.getOwnPropertyNames` does on them. */
  lemma NullProducerThrows(id: nat, o: Options, st: Store)
    requires Usable(WithDefaults(o))
    ensures BuildFields(Func(id, Null), o, st) == Err(TypeError)
    ensures BuildFields(Func(id, Undefined), o, st) == Err(TypeError)
  {
  }

  /** No name occurs twice. */
  predicate Distinct(names: seq<string>) {
    forall i, j :: 0 <= i < j < |names| ==> names[i] != names[j]
  }

  /** The fields are built in order, threading the registry: a field is
      built against the registry the fields before it left, and the
      registry it leaves is the one the next field sees. */
  lemma BuildEachInOrder(decl: Val, names: seq<string>, o: Options, store: Store, i: nat)
    requires Usable(o) && Distinct(names) && i < |names|
    requires BuildEach(decl, names, o, store).Ok?
    ensures BuildEach(decl, names[..i], o, store).Ok?
    ensures var before := BuildEach(decl, names[..i], o, store).value.store;
      && BuildField(decl, names[i], o, before).Ok?
      && BuildEach(decl, names, o, store).value.fields[names[i]] == BuildField(decl, names[i], o, before).value.field
      && BuildEach(decl, names[..i + 1], o, store).Ok?
      && BuildEach(decl, names[..i + 1], o, store).value.store == BuildField(decl, names[i], o, before).value.store
  {
    assert forall m :: i < m < |names| ==> names[m] != names[i];
    assert names[..|names|] == names;
    PrefixKeeps(decl, names, o, store, i, |names|);
    BuildEachSnoc(decl, names, o, store, i);
  }

  /** Building the first `i + 1` names is building the first `i`, then
      field `names[i]` against the registry they left. */
  lemma BuildEachSnoc(decl: Val, names: seq<string>, o: Options, store: Store, i: nat)
    requires Usable(o) && i < |names|
    ensures BuildEach(decl, names[..i + 1], o, store) ==
      match BuildEach(decl, names[..i], o, store)
      case Err(e) => Err(e)
      case Ok(prev) =>
        match BuildField(decl, names[i], o, prev.store)
        case Err(e) => Err(e)
        case Ok(f) => Ok(Built(prev.fields[names[i] := f.field], f.store))
  {
    assert names[..i + 1][..i] == names[..i] && names[..i + 1][i] == names[i];
  }

  /** The fields after `names[i]` leave its entry alone. */
  lemma {:induction false} PrefixKeeps(decl: Val, names: seq<string>, o: Options, store: Store, i: nat, j: nat)
    requires Usable(o) && i < j <= |names| && forall m :: i < m < j ==> names[m] != names[i]
    requires BuildEach(decl, names[..j], o, store).Ok?
    ensures BuildEach(decl, names[..i + 1], o, store).Ok?
    ensures BuildEach(decl, names[..j], o, store).value.fields[names[i]]
      == BuildEach(decl, names[..i + 1], o, store).value.fields[names[i]]
    decreases j - i
  {
    if j > i + 1 {
      assert names[i] in names[..j - 1];
      SnocKeeps(decl, names, o, store, j, names[i]);
      PrefixKeeps(decl, names, o, store, i, j - 1);
    }
  }

  /** The last field of a build leaves the other entries alone. */
  lemma SnocKeeps(decl: Val, names: seq<string>, o: Options, store: Store, j: nat, k: string)
    requires Usable(o) && 0 < j <= |names| && BuildEach(decl, names[..j], o, store).Ok?
    requires k != names[j - 1]
    ensures BuildEach(decl, names[..j - 1], o, store).Ok?
    ensures k in BuildEach(decl, names[..j - 1], o, store).value.fields ==>
      BuildEach(decl, names[..j], o, store).value.fields[k] == BuildEach(decl, names[..j - 1], o, store).value.fields[k]
  {
    BuildEachSnoc(decl, names, o, store, j - 1);
    var prev := BuildEach(decl, names[..j - 1], o, store);
    assert prev.Ok?;
    var f := BuildField(decl, names[j - 1], o, prev.value.store);
    assert f.Ok?;
    assert BuildEach(decl, names[..j], o, store).value.fields == prev.value.fields[names[j - 1] := f.value.field];
  }

  /** The type of field `x`: a subtype (an array of one is a list of it,
      named after the field), else the primitive resolver on the declaration
      itself when it has a `type`, else on `{type: declaration}`. */
  function FieldType(decl: Val, x: string, o: Options, store: Store): (r: Result<Typed>)
    requires Usable(o)
    decreases Rank(o), Size(decl), 0, 0
    ensures r.Ok? && !Registers(o) ==> r.value.store == store
    ensures r.Ok? && o.getExistingType.StoreLookup? ==> Extends(r.value.store, store)
    ensures Nullish(Get(decl, x)) ==> r == Err(TypeError)
    ensures r.Ok? ==> SubType.GetSubType(Get(decl, x)).Ok?
    // an object subtype is built under the field's own name
    ensures r.Ok? ==> var sub := SubType.GetSubType(Get(decl, x)).value;
      sub != Null && !sub.Arr? ==> r == BuildSubFields(sub, x, o, store)
    // an array of subtypes is a list, never itself non-null; its elements
    // are non-null unless the declaration says `required: false`
    ensures r.Ok? ==> var sub := SubType.GetSubType(Get(decl, x)).value;
      sub.Arr? ==> var t := r.value.t;
        && t.List?
        && (if Get(Get(decl, x), "required") == Bool(false) then t.ofType.Named? else t.ofType.NonNull? && t.ofType.ofType.Named?)
        && GetSubTypeName(x).Ok?
        && Ok(Typed(Nullable(t.ofType), r.value.store)) == BuildSubFields(Index(sub, 0), GetSubTypeName(x).value, o, store)
    // any other declaration is resolved as a primitive, without touching the registry
    ensures r.Ok? && SubType.GetSubType(Get(decl, x)).value == Null ==>
      r.value.store == store
      && GetQLType.GetQLType(LookupIn(o, store),
           if Nullish(Get(Get(decl, x), "type")) then Obj([Prop("type", Get(decl, x))]) else Get(decl, x))
         == Ok(r.value.t)
  {
    var fieldData := Get(decl, x);
    var sub :- SubType.GetSubType(fieldData);
    if sub != Null then
      if !sub.Arr? then BuildSubFields(sub, x, o, store)
      else
        var name :- GetSubTypeName(x);
        var elem :- BuildSubFields(Index(sub, 0), name, o, store);
        Ok(Typed(List(if Get(fieldData, "required") == Bool(false) then elem.t else NonNull(elem.t)), elem.store))
    else if !Nullish(Get(fieldData, "type")) then
      var t :- GetQLType.GetQLType(LookupIn(o, store), fieldData);
      Ok(Typed(t, store))
    else
      var t :- GetQLType.GetQLType(LookupIn(o, store), Obj([Prop("type", fieldData)]));
      Ok(Typed(t, store))
  }

  /** The resolver `resolvers[x]`, or undefined without a resolver map. */
  function ResolverOf(o: Options, x: string): Val {
    if Nullish(o.resolvers) then Undefined else Get(o.resolvers, x)
  }

  /** One field `x` of the declaration: its type, description and resolver. */
  function BuildField(decl: Val, x: string, o: Options, store: Store): (r: Result<FieldBuilt>)
    requires Usable(o)
    decreases Rank(o), Size(decl), 0, 1
    ensures r.Ok? ==> (FieldType(decl, x, o, store).Ok?
      && r.value.field.fieldType == FieldType(decl, x, o, store).value.t)
    ensures r.Ok? ==> r.value.field.description == DescriptionOf(Get(decl, x))
    ensures r.Ok? && !Registers(o) ==> r.value.store == store
    ensures r.Ok? && o.getExistingType.StoreLookup? ==> Extends(r.value.store, store)
    // a function resolver is attached as `resolve`; an object resolver must
    // carry a function `resolve`, and its `args` are built too
    ensures r.Ok? ==> var resolver := ResolverOf(o, x);
      && (Nullish(resolver) ==> r.value.field.resolve.None? && r.value.field.args.None?)
      && (!Nullish(resolver) && IsFunction(resolver) ==>
            r.value.field.resolve == Some(resolver) && r.value.field.args.None?)
      && (!Nullish(resolver) && !IsFunction(resolver) ==>
            r.value.field.resolve == Some(Get(resolver, "resolve")) && IsFunction(Get(resolver, "resolve"))
            && (r.value.field.args.Some? <==> !Nullish(Get(resolver, "args"))))
    // the registry the field leaves: its type's, unless resolver `args` are
    // built after it, with the same callbacks and no resolvers
    ensures r.Ok? && !(ResolverOf(o, x).Obj? && !Nullish(Get(ResolverOf(o, x), "args"))) ==>
      r.value.store == FieldType(decl, x, o, store).value.store
    ensures r.Ok? && !Nullish(ResolverOf(o, x)) && !IsFunction(ResolverOf(o, x)) && !Nullish(Get(ResolverOf(o, x), "args")) ==>
      var a := BuildFields(Get(ResolverOf(o, x), "args"), Options(o.buildSubType, o.getExistingType, Null),
                           FieldType(decl, x, o, store).value.store);
      a.Ok? && r.value.field.args == Some(a.value.fields) && r.value.store == a.value.store
    ensures (FieldType(decl, x, o, store).Ok? && !Nullish(ResolverOf(o, x)) && !IsFunction(ResolverOf(o, x))
             && IsFunction(Get(ResolverOf(o, x), "resolve")) && !Nullish(Get(ResolverOf(o, x), "args"))) ==>
      var a := BuildFields(Get(ResolverOf(o, x), "args"), Options(o.buildSubType, o.getExistingType, Null),
                           FieldType(decl, x, o, store).value.store);
      a.Err? ==> r == Err(a.error)
    ensures (FieldType(decl, x, o, store).Ok? && !Nullish(ResolverOf(o, x)) && !IsFunction(ResolverOf(o, x))
             && !IsFunction(Get(ResolverOf(o, x), "resolve"))) ==>
      r == Err(AssertionError("resolve must be a function when resolver is an object"))
  {
    var typed :- FieldType(decl, x, o, store);
    var description := DescriptionOf(Get(decl, x));
    var resolver := ResolverOf(o, x);
    if Nullish(resolver) then
      Ok(FieldBuilt(BuiltField(typed.t, description, None, None), typed.store))
    else if IsFunction(resolver) then
      Ok(FieldBuilt(BuiltField(typed.t, description, Some(resolver), None), typed.store))
    else
      var resolve := Get(resolver, "resolve");
      if !IsFunction(resolve) then
        Err(AssertionError("resolve must be a function when resolver is an object"))
      else
        var args := Get(resolver, "args");
        if Nullish(args) then
          Ok(FieldBuilt(BuiltField(typed.t, description, Some(resolve), None), typed.store))
        else
          // the arguments see the same callbacks but no resolvers
          var a :- BuildFields(args, Options(o.buildSubType, o.getExistingType, Null), typed.store);
          Ok(FieldBuilt(BuiltField(typed.t, description, Some(resolve), Some(a.fields)), a.store))
  }

  /** `buildSubFields(fieldData, name)`: build the subtype's fields with the
      same callbacks and resolvers, then reuse a known type of that name if
      its fields are deep-equal, fail if they differ, or mint a new one. */
  function BuildSubFields(sub: Val, name: string, o: Options, store: Store): (r: Result<Typed>)
    requires Usable(o)
    decreases Rank(o), Size(sub), 3, 0
    ensures r.Ok? && !Registers(o) ==> r.value.store == store
    ensures r.Ok? && o.getExistingType.StoreLookup? ==> Extends(r.value.store, store)
    // whichever way it goes, the subtype carries exactly the fields just built
    ensures r.Ok? ==> var b := BuildFields(sub, o, store);
      b.Ok? && r.value.t.Named? && r.value.t.obj.config == Direct(b.value.fields)
    ensures var b := BuildFields(sub, o, store); b.Ok? ==>
      match LookupIn(o, b.value.store).Call(Str(name))
      case Some(existing) =>
        && (r.Ok? <==> existing.config == Direct(b.value.fields))
        && (r.Ok? ==> r.value == Typed(Named(existing), b.value.store))
        && (r.Err? ==> r.error == AssertionError(MismatchMessage(name)))
      case None =>
        var minted := TypeObj(o.buildSubType.kind, Str(name), None, Direct(b.value.fields));
        r == Ok(Typed(Named(minted), if Registers(o) then b.value.store[Str(name) := minted] else b.value.store))
  {
    var b :- BuildFields(sub, o, store);
    match LookupIn(o, b.store).Call(Str(name))
    case Some(existing) =>
      if existing.config == Direct(b.fields) then Ok(Typed(Named(existing), b.store))
      else Err(AssertionError(MismatchMessage(name)))
    case None =>
      var minted := TypeObj(o.buildSubType.kind, Str(name), None, Direct(b.fields));
      Ok(Typed(Named(minted), if Registers(o) then b.store[Str(name) := minted] else b.store))
  }

  // ---------------------------------------------------------------------
  // Scenarios

  /** Options whose callbacks share one registry: `buildSubType` mints
      object types and registers them, `getExistingType` reads them back;
      no resolvers (as the defaults leave them). */
  function Shared(): (o: Options)
    ensures WithDefaults(o) == o && Usable(o) && Registers(o)
  {
    Options(Builder(ObjectType, true), StoreLookup, Null)
  }

  /** An inline subtype with one required Date field `inner`. */
  function DateSub(inner: string): Val { Obj([Prop(inner, Mark(DateFn))]) }

  function DateField(): BuiltField { PlainField(NonNull(Scalar(DateTimeT))) }

  /** The object type minted for `DateSub(inner)` under the field name `key`. */
  function DateSubType(key: string, inner: string): TypeObj {
    TypeObj(ObjectType, Str(key), None, Direct(map[inner := DateField()]))
  }

  /** A declaration with one field builds that field alone. */
  lemma OneField(key: string, fd: Val, o: Options, st: Store)
    requires Usable(WithDefaults(o))
    ensures BuildFields(Obj([Prop(key, fd)]), o, st) ==
      match BuildField(Obj([Prop(key, fd)]), key, WithDefaults(o), st)
      case Ok(f) => Ok(Built(map[key := f.field], f.store))
      case Err(e) => Err(e)
  {
    NamesOfOne(Prop(key, fd));
    var decl := Obj([Prop(key, fd)]);
    assert Produce(decl) == decl;
    assert OwnNames(decl) == [key];
    BuildEachOne(decl, key, WithDefaults(o), st);
  }

  lemma BuildEachOne(decl: Val, key: string, o: Options, st: Store)
    requires Usable(o)
    ensures BuildEach(decl, [key], o, st) ==
      match BuildField(decl, key, o, st)
      case Ok(f) => Ok(Built(map[key := f.field], f.store))
      case Err(e) => Err(e)
  {
    assert [key][..0] == [] && [key][0] == key;
  }

  /** A declaration that is not a subtype resolves to the primitive type
      of `{type: declaration}` without touching the registry. */
  lemma PrimitiveField(key: string, m: Marker, o: Options, st: Store)
    requires Usable(o) && m != Mixed && m != ObjectId && Nullish(o.resolvers)
    ensures BuildField(Obj([Prop(key, Mark(m))]), key, o, st)
      == Ok(FieldBuilt(PlainField(NonNull(Scalar(GetQLType.ScalarOf(m).value))), st))
  {
    assert SubType.GetSubType(Mark(m)) == Ok(Null);
    assert GetQLType.GetQLType(LookupIn(o, st), Obj([Prop("type", Mark(m))]))
      == Ok(NonNull(Scalar(GetQLType.ScalarOf(m).value)));
  }

  /** An inline subtype made of a required Date field builds the same way
      against any registry. */
  lemma DateSubFields(key: string, st: Store)
    ensures BuildFields(Obj([Prop(key, Mark(DateFn))]), Shared(), st) == Ok(Built(map[key := DateField()], st))
  {
    PrimitiveField(key, DateFn, Shared(), st);
    OneField(key, Mark(DateFn), Shared(), st);
  }

  /** A field whose declaration is itself an object subtype is built by
      `buildSubFields` under the field's name. */
  lemma ObjectSubTypeField(key: string, sub: Val, o: Options, st: Store)
    requires Usable(o) && sub.Obj? && SubType.GetSubType(sub) == Ok(sub)
    ensures FieldType(Obj([Prop(key, sub)]), key, o, st) == BuildSubFields(sub, key, o, st)
  {
    assert Get(Obj([Prop(key, sub)]), key) == sub;
  }

  /** A field with no resolver and no description is its type alone. */
  lemma PlainBuildField(decl: Val, x: string, o: Options, st: Store, t: OutType, st2: Store)
    requires Usable(o) && Nullish(ResolverOf(o, x)) && Nullish(Get(Get(decl, x), "description"))
    requires FieldType(decl, x, o, st) == Ok(Typed(t, st2))
    ensures BuildField(decl, x, o, st) == Ok(FieldBuilt(PlainField(t), st2))
  {
  }

  /** A field whose type cannot be built fails with the same error. */
  lemma FailedBuildField(decl: Val, x: string, o: Options, st: Store, e: Error)
    requires Usable(o) && FieldType(decl, x, o, st) == Err(e)
    ensures BuildField(decl, x, o, st) == Err(e)
  {
  }

  /** A one-field object is an inline subtype unless its field is `type`. */
  lemma DateSubIsSubType(inner: string)
    requires inner != "type"
    ensures SubType.GetSubType(DateSub(inner)) == Ok(DateSub(inner))
  {
    assert Get(DateSub(inner), "type") == Undefined;
  }

  lemma DateSubHasNoDescription(inner: string)
    requires inner != "description"
    ensures Get(DateSub(inner), "description") == Undefined
  {
  }

  lemma FirstSubFields(key: string, inner: string)
    ensures BuildSubFields(DateSub(inner), key, Shared(), map[])
      == Ok(Typed(Named(DateSubType(key, inner)), map[Str(key) := DateSubType(key, inner)]))
  {
    DateSubFields(inner, map[]);
  }

  lemma FirstFieldType(key: string, inner: string)
    requires inner != "type"
    ensures FieldType(Obj([Prop(key, DateSub(inner))]), key, Shared(), map[])
      == Ok(Typed(Named(DateSubType(key, inner)), map[Str(key) := DateSubType(key, inner)]))
  {
    DateSubIsSubType(inner);
    ObjectSubTypeField(key, DateSub(inner), Shared(), map[]);
    FirstSubFields(key, inner);
  }

  /** Against an empty registry the subtype is minted under the field's
      name and registered. */
  lemma FirstBuildRegisters(key: string, inner: string)
    requires inner != "type" && inner != "description"
    ensures BuildFields(Obj([Prop(key, DateSub(inner))]), Shared(), map[])
      == Ok(Built(map[key := PlainField(Named(DateSubType(key, inner)))], map[Str(key) := DateSubType(key, inner)]))
  {
    FirstFieldType(key, inner);
    DateSubHasNoDescription(inner);
    PlainBuildField(Obj([Prop(key, DateSub(inner))]), key, Shared(), map[],
      Named(DateSubType(key, inner)), map[Str(key) := DateSubType(key, inner)]);
    OneField(key, DateSub(inner), Shared(), map[]);
  }

  lemma SecondSubFields(key: string, inner: string)
    ensures var st := map[Str(key) := DateSubType(key, inner)];
      BuildSubFields(DateSub(inner), key, Shared(), st) == Ok(Typed(Named(DateSubType(key, inner)), st))
  {
    DateSubFields(inner, map[Str(key) := DateSubType(key, inner)]);
  }

  lemma SecondFieldType(key: string, inner: string)
    requires inner != "type"
    ensures var st := map[Str(key) := DateSubType(key, inner)];
      FieldType(Obj([Prop(key, DateSub(inner))]), key, Shared(), st) == Ok(Typed(Named(DateSubType(key, inner)), st))
  {
    DateSubIsSubType(inner);
    ObjectSubTypeField(key, DateSub(inner), Shared(), map[Str(key) := DateSubType(key, inner)]);
    SecondSubFields(key, inner);
  }

  /** Building the same declaration against the registry the first build
      left reuses the registered type and adds nothing. */
  lemma SecondBuildReuses(key: string, inner: string)
    requires inner != "type" && inner != "description"
    ensures var st := map[Str(key) := DateSubType(key, inner)];
      BuildFields(Obj([Prop(key, DateSub(inner))]), Shared(), st)
      == Ok(Built(map[key := PlainField(Named(DateSubType(key, inner)))], st))
  {
    var st := map[Str(key) := DateSubType(key, inner)];
    SecondFieldType(key, inner);
    DateSubHasNoDescription(inner);
    PlainBuildField(Obj([Prop(key, DateSub(inner))]), key, Shared(), st, Named(DateSubType(key, inner)), st);
    OneField(key, DateSub(inner), Shared(), st);
  }

  lemma DivergentSubFields(key: string, inner: string, other: string)
    requires inner != other
    ensures BuildSubFields(DateSub(other), key, Shared(), map[Str(key) := DateSubType(key, inner)])
      == Err(AssertionError(MismatchMessage(key)))
  {
    DateSubFields(other, map[Str(key) := DateSubType(key, inner)]);
    assert map[other := DateField()] != map[inner := DateField()] by {
      assert other in map[other := DateField()];
    }
  }

  lemma DivergentFieldType(key: string, inner: string, other: string)
    requires inner != other && other != "type"
    ensures FieldType(Obj([Prop(key, DateSub(other))]), key, Shared(), map[Str(key) := DateSubType(key, inner)])
      == Err(AssertionError(MismatchMessage(key)))
  {
    DateSubIsSubType(other);
    ObjectSubTypeField(key, DateSub(other), Shared(), map[Str(key) := DateSubType(key, inner)]);
    DivergentSubFields(key, inner, other);
  }

  /** A declaration whose subtype of an already registered name has other
      fields is refused. */
  lemma DivergentBuildFails(key: string, inner: string, other: string)
    requires inner != other && other != "type"
    ensures BuildFields(Obj([Prop(key, DateSub(other))]), Shared(), map[Str(key) := DateSubType(key, inner)])
      == Err(AssertionError(MismatchMessage(key)))
  {
    var st := map[Str(key) := DateSubType(key, inner)];
    DivergentFieldType(key, inner, other);
    FailedBuildField(Obj([Prop(key, DateSub(other))]), key, Shared(), st, AssertionError(MismatchMessage(key)));
    OneField(key, DateSub(other), Shared(), st);
  }

  /** The three together: inline subtypes are shared by name across builds
      that share a registry. */
  lemma SubTypesAreSharedByName(key: string, inner: string, other: string)
    requires inner != other && inner != "type" && inner != "description" && other != "type"
    ensures var st := map[Str(key) := DateSubType(key, inner)];
      var fields := map[key := PlainField(Named(DateSubType(key, inner)))];
      && BuildFields(Obj([Prop(key, DateSub(inner))]), Shared(), map[]) == Ok(Built(fields, st))
      && BuildFields(Obj([Prop(key, DateSub(inner))]), Shared(), st) == Ok(Built(fields, st))
      && BuildFields(Obj([Prop(key, DateSub(other))]), Shared(), st) == Err(AssertionError(MismatchMessage(key)))
  {
    FirstBuildRegisters(key, inner);
    SecondBuildReuses(key, inner);
    DivergentBuildFails(key, inner, other);
  }

  function Resolve(): Val { Func(0, Null) }

  /** `{type: String, required: true}`. */
  function StringArg(): Val {
    Obj([Prop("type", Mark(StringFn)), Prop("required", Bool(true))])
  }

  function ResolverArgs(arg: string): Val {
    Obj([Prop(arg, StringArg())])
  }

  /** `{resolve, args: {<arg>: {type: String, required: true}}}`. */
  function ObjectResolver(arg: string): Val {
    Obj([Prop("resolve", Resolve()), Prop("args", ResolverArgs(arg))])
  }

  /** `{<key>: {type: Number}}`. */
  function NumberDecl(key: string): Val {
    Obj([Prop(key, Obj([Prop("type", Mark(NumberFn))]))])
  }

  function ArgFields(arg: string): map<string, BuiltField> {
    map[arg := PlainField(NonNull(Scalar(StringT)))]
  }

  lemma ResolverArgsBuild(arg: string, o: Options)
    requires Usable(o) && Nullish(o.resolvers)
    ensures BuildFields(ResolverArgs(arg), o, map[]) == Ok(Built(ArgFields(arg), map[]))
  {
    var ad := StringArg();
    assert SubType.GetSubType(ad) == Ok(Null);
    assert GetQLType.GetQLType(LookupIn(o, map[]), ad) == Ok(NonNull(Scalar(StringT)));
    assert FieldType(ResolverArgs(arg), arg, o, map[]) == Ok(Typed(NonNull(Scalar(StringT)), map[]));
    assert BuildField(ResolverArgs(arg), arg, o, map[]) == Ok(FieldBuilt(PlainField(NonNull(Scalar(StringT))), map[]));
    OneField(arg, ad, o, map[]);
  }

  /** What `ObjectResolverField` needs of a field and its resolver. */
  predicate ObjectResolverInputs(decl: Val, x: string, o: Options, st: Store, t: OutType, typeStore: Store,
                                 resolve: Val, args: Val, argFields: map<string, BuiltField>, argStore: Store)
  {
    && Usable(o)
    && FieldType(decl, x, o, st) == Ok(Typed(t, typeStore))
    && ResolverOf(o, x).Obj? && Get(ResolverOf(o, x), "resolve") == resolve && IsFunction(resolve)
    && Get(ResolverOf(o, x), "args") == args && !Nullish(args)
    && BuildFields(args, Options(o.buildSubType, o.getExistingType, Null), typeStore) == Ok(Built(argFields, argStore))
  }

  lemma ObjectResolverInputsHold(key: string, arg: string, o: Options)
    requires Usable(o) && ResolverOf(o, key) == ObjectResolver(arg)
    ensures ObjectResolverInputs(NumberDecl(key), key, o, map[], NonNull(Scalar(FloatT)), map[],
      Resolve(), ResolverArgs(arg), ArgFields(arg), map[])
  {
    NumberTypeField(key, o, map[]);
    ResolverParts(ResolverOf(o, key), arg);
    ResolverArgsBuild(arg, Options(o.buildSubType, o.getExistingType, Null));
  }

  lemma NumberHasNoDescription(key: string)
    ensures DescriptionOf(Get(NumberDecl(key), key)) == None
  {
  }

  /** A `Number` field whose resolver is `{resolve, args}`. */
  lemma ObjectResolverNumberField(key: string, arg: string, o: Options)
    requires Usable(o) && ResolverOf(o, key) == ObjectResolver(arg)
    ensures BuildField(NumberDecl(key), key, o, map[])
      == Ok(FieldBuilt(BuiltField(NonNull(Scalar(FloatT)), None, Some(Resolve()), Some(ArgFields(arg))), map[]))
  {
    ObjectResolverInputsHold(key, arg, o);
    NumberHasNoDescription(key);
    ObjectResolverField(NumberDecl(key), key, o, map[], NonNull(Scalar(FloatT)), map[],
      Resolve(), ResolverArgs(arg), ArgFields(arg), map[]);
  }

  lemma ResolverParts(resolver: Val, arg: string)
    requires resolver == ObjectResolver(arg)
    ensures Get(resolver, "resolve") == Resolve() && Get(resolver, "args") == ResolverArgs(arg)
  {
    var rest := [Prop("args", ResolverArgs(arg))];
    assert resolver.props[1..] == rest;
    assert JsValue.Lookup(rest, "args") == ResolverArgs(arg);
  }

  /** A field whose resolver is an object with a function `resolve` and
      `args`: both are attached, the arguments are built against the
      registry the field's type left, and the field leaves the registry
      the arguments left. */
  lemma ObjectResolverField(decl: Val, x: string, o: Options, st: Store, t: OutType, typeStore: Store,
                            resolve: Val, args: Val, argFields: map<string, BuiltField>, argStore: Store)
    requires ObjectResolverInputs(decl, x, o, st, t, typeStore, resolve, args, argFields, argStore)
    ensures BuildField(decl, x, o, st)
      == Ok(FieldBuilt(BuiltField(t, DescriptionOf(Get(decl, x)), Some(resolve), Some(argFields)), argStore))
  {
  }

  lemma NumberTypeField(key: string, o: Options, st: Store)
    requires Usable(o)
    ensures FieldType(NumberDecl(key), key, o, st) == Ok(Typed(NonNull(Scalar(FloatT)), st))
  {
    var fd := Obj([Prop("type", Mark(NumberFn))]);
    assert Get(NumberDecl(key), key) == fd;
    assert SubType.GetSubType(fd) == Ok(Null);
    assert GetQLType.GetQLType(LookupIn(o, st), fd) == Ok(NonNull(Scalar(FloatT)));
  }

  /** An object resolver contributes its `resolve` and its `args`, which are
      built like fields, e.g. `measurements` with the argument `resolution`. */
  lemma ResolverWithArgs(key: string, arg: string)
    ensures BuildFields(NumberDecl(key), Options(BuilderUnset, LookupUnset, Obj([Prop(key, ObjectResolver(arg))])), map[])
      == Ok(Built(map[key := BuiltField(NonNull(Scalar(FloatT)), None, Some(Resolve()), Some(ArgFields(arg)))], map[]))
  {
    var opts := Options(BuilderUnset, LookupUnset, Obj([Prop(key, ObjectResolver(arg))]));
    assert ResolverOf(WithDefaults(opts), key) == ObjectResolver(arg);
    ObjectResolverNumberField(key, arg, WithDefaults(opts));
    OneField(key, Obj([Prop("type", Mark(NumberFn))]), opts, map[]);
  }

  function NopeResolvers(): Val { Obj([Prop("measurements", Obj([Prop("resolve", Str("nope"))]))]) }

  lemma NumberFieldType(o: Options, st: Store)
    requires Usable(o)
    ensures FieldType(Obj([Prop("measurements", Mark(NumberFn))]), "measurements", o, st)
      == Ok(Typed(NonNull(Scalar(FloatT)), st))
  {
    assert SubType.GetSubType(Mark(NumberFn)) == Ok(Null);
    assert GetQLType.GetQLType(LookupIn(o, st), Obj([Prop("type", Mark(NumberFn))])) == Ok(NonNull(Scalar(FloatT)));
  }

  lemma NopeResolverRefused(o: Options, st: Store)
    requires Usable(o) && ResolverOf(o, "measurements") == Obj([Prop("resolve", Str("nope"))])
    ensures BuildField(Obj([Prop("measurements", Mark(NumberFn))]), "measurements", o, st)
      == Err(AssertionError("resolve must be a function when resolver is an object"))
  {
    NumberFieldType(o, st);
  }

  /** A resolver object without a function `resolve` is refused. */
  lemma ResolverObjectNeedsResolve()
    ensures BuildFields(Obj([Prop("measurements", Mark(NumberFn))]),
      Options(BuilderUnset, LookupUnset, NopeResolvers()), map[])
      == Err(AssertionError("resolve must be a function when resolver is an object"))
  {
    var opts := Options(BuilderUnset, LookupUnset, NopeResolvers());
    assert ResolverOf(WithDefaults(opts), "measurements") == Obj([Prop("resolve", Str("nope"))]);
    NopeResolverRefused(WithDefaults(opts), map[]);
    OneField("measurements", Mark(NumberFn), opts, map[]);
  }
}
