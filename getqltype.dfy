/** src/getqltype.js: the primitive type resolver. */
module GetQLType {
  import opened JsValue
  import opened OutputTypes

  /** The scalar a plain scalar marker stands for; ObjectId is not one. */
  function ScalarOf(m: Marker): Option<ScalarKind> {
    match m
    case StringFn => Some(StringT)
    case NumberFn => Some(FloatT)
    case DateFn => Some(DateTimeT)
    case BooleanFn => Some(BooleanT)
    case Mixed => Some(JsonT)
    case ObjectId => None
  }

  /** `{required = true}` read as a condition: the default applies only when
      the property is undefined, otherwise its truthiness decides. */
  predicate Required(spec: Val) {
    var r := Get(spec, "required");
    r.Undefined? || Truthy(r)
  }

  /** The declaration the array branch resolves for the element `sub` of
      `spec.type`: the element itself when it has its own `type`, else
      `{type: sub, ref}`. */
  function ElementSpec(spec: Val, sub: Val): (e: Val)
    ensures Get(e, "type") == if Nullish(Get(sub, "type")) then sub else Get(sub, "type")
    // an element with its own `type` is used whole, with its own `ref` and `required`
    ensures !Nullish(Get(sub, "type")) ==> e == sub
    // a bare element inherits the array's `ref`, and `required` takes its default
    ensures Nullish(Get(sub, "type")) ==>
      Get(e, "ref") == Get(spec, "ref") && Get(e, "required") == Undefined && Required(e)
  {
    if !Nullish(Get(sub, "type")) then sub
    else
      var e := Obj([Prop("type", sub), Prop("ref", Get(spec, "ref"))]);
      var rest := [Prop("ref", Get(spec, "ref"))];
      assert e.props[1..] == rest && rest[1..] == [];
      assert JsValue.Lookup(rest, "required") == JsValue.Lookup([], "required") == Undefined;
      assert Get(e, "ref") == JsValue.Lookup(rest, "ref") == Get(spec, "ref");
      assert Get(e, "required") == JsValue.Lookup(rest, "required");
      e
  }

  /** The output type for one declaration `{type, ref, required}`. */
  function GetQLType(getExistingType: Lookup, spec: Val): (r: Result<OutType>)
    decreases Size(Get(spec, "type"))
    // destructuring null or undefined throws before the assertions
    ensures Nullish(spec) ==> r == Err(TypeError)
    ensures !Nullish(spec) && getExistingType.NotCallable? ==>
      r == Err(AssertionError("getExistingType must be a function"))
    ensures !Nullish(spec) && getExistingType.Callable? && Nullish(Get(spec, "type")) ==>
      r == Err(AssertionError("type must be set"))
    // every recognised type is non-null exactly when this level is required
    ensures r.Ok? && r.value != NoType ==> (r.value.NonNull? <==> Required(spec))
    ensures r.Ok? ==> var ty := Get(spec, "type");
      && (ty.Mark? && ScalarOf(ty.marker).Some? ==> r.value == Wrap(Required(spec), Scalar(ScalarOf(ty.marker).value)))
      && (ty == Mark(ObjectId) ==> r.value == Wrap(Required(spec),
            match getExistingType.Call(Get(spec, "ref")) case Some(t) => Named(t) case None => Scalar(IdT)))
      && (ty.Str? ==> getExistingType.Call(ty).Some? && r.value == Wrap(Required(spec), Named(getExistingType.Call(ty).value)))
      && (!ty.Mark? && !ty.Str? && !ty.Arr? ==> r.value == NoType)
    // an array is a list of what its first element resolves to
    ensures r.Ok? && Get(spec, "type").Arr? ==> var sub := Index(Get(spec, "type"), 0);
      && !Nullish(sub)
      && GetQLType(getExistingType, ElementSpec(spec, sub)).Ok?
      && Nullable(r.value) == List(GetQLType(getExistingType, ElementSpec(spec, sub)).value)
    ensures !Nullish(spec) && getExistingType.Callable? && Get(spec, "type").Arr? ==>
      var sub := Index(Get(spec, "type"), 0);
      // an empty array reads `type` of undefined
      && (Nullish(sub) ==> r == Err(TypeError))
      && (!Nullish(sub) && GetQLType(getExistingType, ElementSpec(spec, sub)).Err? ==>
            r == GetQLType(getExistingType, ElementSpec(spec, sub)))
    // a plain name must resolve: there is no fallback
    ensures !Nullish(spec) && getExistingType.Callable? && Get(spec, "type").Str? ==>
      (r.Err? <==> getExistingType.Call(Get(spec, "type")).None?)
    ensures !Nullish(spec) && getExistingType.Callable? && Get(spec, "type").Str? && r.Err? ==>
      r.error == AssertionError("Failed to find existing type " + Get(spec, "type").s)
  {
    if Nullish(spec) then Err(TypeError)
    else if getExistingType.NotCallable? then Err(AssertionError("getExistingType must be a function"))
    else
      var ty, ref, required := Get(spec, "type"), Get(spec, "ref"), Required(spec);
      if Nullish(ty) then Err(AssertionError("type must be set"))
      else if ty.Mark? && ScalarOf(ty.marker).Some? then
        Ok(Wrap(required, Scalar(ScalarOf(ty.marker).value)))
      else if ty == Mark(ObjectId) then
        var refType := match getExistingType.Call(ref) case Some(t) => Named(t) case None => Scalar(IdT);
        Ok(Wrap(required, refType))
      else if ty.Str? then
        match getExistingType.Call(ty)
        case None => Err(AssertionError("Failed to find existing type " + ty.s))
        case Some(t) => Ok(Wrap(required, Named(t)))
      else if ty.Arr? then
        var sub := Index(ty, 0);
        if Nullish(sub) then Err(TypeError)  // `subType.type` on a missing element
        else
          var elem :- GetQLType(getExistingType, ElementSpec(spec, sub));
          Ok(Wrap(required, List(elem)))
      else Ok(NoType)
  }

  /** The registry keys a call may hand to the lookup. */
  function Queried(spec: Val): set<Val>
    decreases Size(Get(spec, "type"))
  {
    var ty := Get(spec, "type");
    if Nullish(spec) then {}
    else if ty == Mark(ObjectId) then {Get(spec, "ref")}
    else if ty.Str? then {ty}
    else if ty.Arr? && !Nullish(Index(ty, 0)) then Queried(ElementSpec(spec, Index(ty, 0)))
    else {}
  }

  /** The resolver has no effect other than calling the lookup: two lookups
      that agree on every key it asks for give the same result. */
  lemma {:induction false} LookupLocality(a: Store, b: Store, spec: Val)
    requires forall k :: k in Queried(spec) ==> (k in a <==> k in b) && (k in a ==> a[k] == b[k])
    ensures GetQLType(Callable(a), spec) == GetQLType(Callable(b), spec)
    decreases Size(Get(spec, "type"))
  {
    var ty := Get(spec, "type");
    if !Nullish(spec) && !Nullish(ty) && ty.Arr? && !Nullish(Index(ty, 0)) {
      LookupLocality(a, b, ElementSpec(spec, Index(ty, 0)));
    }
  }

  /** `spec` with its own `required` set to `b`. */
  function WithRequired(spec: Val, b: bool): (s: Val)
    requires spec.Obj?
    ensures Get(s, "required") == Bool(b)
    ensures Get(s, "type") == Get(spec, "type") && Get(s, "ref") == Get(spec, "ref")
  {
    var s := Obj(SetProp(spec.props, "required", Bool(b)));
    assert Get(s, "type") == Get(spec, "type");
    assert Get(s, "ref") == Get(spec, "ref");
    s
  }

  /** Nullability is decided per level: the outer `required` flag adds or
      removes only the outermost NonNull, and leaves the rest of the type
      (for an array, the element type) as it is. */
  lemma NullabilityIsPerLevel(l: Store, spec: Val)
    requires spec.Obj?
    ensures var t, f := GetQLType(Callable(l), WithRequired(spec, true)), GetQLType(Callable(l), WithRequired(spec, false));
      && t.Ok? == f.Ok?
      && (t.Ok? && f.value != NoType ==> t.value == NonNull(f.value) && !f.value.NonNull?)
  {
    var t, f := WithRequired(spec, true), WithRequired(spec, false);
    var ty := Get(spec, "type");
    assert Required(t) && !Required(f);
    var lt, lf := GetQLType(Callable(l), t), GetQLType(Callable(l), f);
    if Nullish(ty) {
    } else if ty.Mark? && ScalarOf(ty.marker).Some? {
      assert lf == Ok(Scalar(ScalarOf(ty.marker).value));
    } else if ty == Mark(ObjectId) {
    } else if ty.Str? {
    } else if ty.Arr? {
      var sub := Index(ty, 0);
      if !Nullish(sub) {
        assert ElementSpec(t, sub) == ElementSpec(f, sub);
        var elem := GetQLType(Callable(l), ElementSpec(t, sub));
        assert lt == if elem.Err? then Err(elem.error) else Ok(NonNull(List(elem.value)));
        assert lf == if elem.Err? then Err(elem.error) else Ok(List(elem.value));
      }
    } else {
      assert lt == Ok(NoType) == lf;
    }
  }

  // The expected types of the resolver's own test cases.

  /** A one-element array whose element has its own `type`. */
  lemma ListOfTyped(l: map<Val, TypeObj>, spec: Val, e: Val, t: OutType)
    requires spec.Obj? && Get(spec, "type") == Arr([e]) && !Nullish(Get(e, "type"))
    requires GetQLType(Callable(l), e) == Ok(t)
    ensures GetQLType(Callable(l), spec) == Ok(Wrap(Required(spec), List(t)))
  {
    assert Index(Get(spec, "type"), 0) == e;
  }

  lemma ListOfRequiredString(l: map<Val, TypeObj>)
    ensures GetQLType(Callable(l),
      Obj([Prop("type", Arr([Obj([Prop("type", Mark(StringFn))])])), Prop("required", Bool(false))]))
      == Ok(List(NonNull(Scalar(StringT))))
  {
    var inner := Obj([Prop("type", Mark(StringFn))]);
    var spec := Obj([Prop("type", Arr([inner])), Prop("required", Bool(false))]);
    var rest := [Prop("required", Bool(false))];
    assert spec.props[1..] == rest && JsValue.Lookup(rest, "required") == Bool(false);
    assert Get(spec, "required") == Bool(false);
    assert GetQLType(Callable(l), inner) == Ok(NonNull(Scalar(StringT)));
    ListOfTyped(l, spec, inner, NonNull(Scalar(StringT)));
  }

  lemma RequiredListOfOptionalBoolean(l: map<Val, TypeObj>)
    ensures GetQLType(Callable(l),
      Obj([Prop("type", Arr([Obj([Prop("type", Mark(BooleanFn)), Prop("required", Bool(false))])]))]))
      == Ok(NonNull(List(Scalar(BooleanT))))
  {
    var inner := Obj([Prop("type", Mark(BooleanFn)), Prop("required", Bool(false))]);
    var spec := Obj([Prop("type", Arr([inner]))]);
    OptionalBoolean(l, inner);
    ListOfTyped(l, spec, inner, Scalar(BooleanT));
  }

  lemma OptionalBoolean(l: map<Val, TypeObj>, inner: Val)
    requires inner == Obj([Prop("type", Mark(BooleanFn)), Prop("required", Bool(false))])
    ensures GetQLType(Callable(l), inner) == Ok(Scalar(BooleanT))
  {
    assert Get(inner, "type") == Mark(BooleanFn) && Get(inner, "required") == Bool(false);
  }

  lemma ListOfReferences(l: map<Val, TypeObj>)
    requires Str("Asset") in l
    ensures GetQLType(Callable(l), Obj([Prop("type", Arr([Mark(ObjectId)])), Prop("ref", Str("Asset"))]))
      == Ok(NonNull(List(NonNull(Named(l[Str("Asset")])))))
  {
    var e := Obj([Prop("type", Mark(ObjectId)), Prop("ref", Str("Asset"))]);
    assert GetQLType(Callable(l), e) == Ok(NonNull(Named(l[Str("Asset")])));
  }

  lemma ListOfNames(l: map<Val, TypeObj>)
    requires Str("Asset") in l
    ensures GetQLType(Callable(l), Obj([Prop("type", Arr([Str("Asset")]))]))
      == Ok(NonNull(List(NonNull(Named(l[Str("Asset")])))))
  {
    var e := Obj([Prop("type", Str("Asset")), Prop("ref", Undefined)]);
    assert GetQLType(Callable(l), e) == Ok(NonNull(Named(l[Str("Asset")])));
  }

  lemma UnknownName(asset: TypeObj)
    ensures GetQLType(Callable(map[Str("Asset") := asset]), Obj([Prop("type", Str("DoesNotExist"))]))
      == Err(AssertionError("Failed to find existing type DoesNotExist"))
  {
  }

  /** `{type: []}` has no element to read `type` of. */
  lemma EmptyArrayTypeThrows(l: map<Val, TypeObj>)
    ensures GetQLType(Callable(l), Obj([Prop("type", Arr([]))])) == Err(TypeError)
  {
  }

  lemma EmptyObjectTypeIsUnrecognised()
    ensures GetQLType(Callable(map[]), Obj([Prop("type", Obj([]))])) == Ok(NoType)
  {
  }
}
