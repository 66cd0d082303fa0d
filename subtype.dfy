/** src/subtype.js: deciding whether a field declaration is an inline
    subtype, and extracting it. */
module SubType {
  import opened JsValue

  /** `_isTypeDefinition`: an object that is not a function, not an array,
      not one of the scalar-marker constants, and has no `type`. Of all the
      values only plain objects pass the first tests, so the whole test comes
      down to "a plain object whose `type` is null or undefined". */
  predicate IsTypeDefinition(def: Val)
    ensures IsTypeDefinition(def) <==> def.Obj? && Nullish(Get(def, "type"))
  {
    && IsObject(def)
    && !IsFunction(def)
    && !def.Arr?
    && def != Mark(NumberFn)
    && def != Mark(StringFn)
    && def != Mark(Mixed)
    && def != Mark(ObjectId)
    && Nullish(Get(def, "type"))
  }

  /** The scalar markers are never type definitions: the four constructors
      are functions and the two sentinels are excluded by identity. */
  lemma MarkersAreNotTypeDefinitions(m: Marker)
    ensures !IsTypeDefinition(Mark(m))
  {
  }

  /** `isSubType`: the declaration, or its `type`, is a type definition.
      Reading `.type` of null or undefined throws. */
  function IsSubType(fieldData: Val): (r: Result<bool>)
    ensures r.Err? <==> Nullish(fieldData)
    ensures r.Err? ==> r.error == TypeError
    ensures r.Ok? ==> (r.value <==>
      (fieldData.Obj? && Nullish(Get(fieldData, "type"))) || IsTypeDefinition(Get(fieldData, "type")))
  {
    if IsTypeDefinition(fieldData) then Ok(true)
    else if Nullish(fieldData) then Err(TypeError)
    else Ok(IsTypeDefinition(Get(fieldData, "type")))
  }

  /** `getSubType`: the declaration itself when it or its `type` is a type
      definition, or when it is an array whose first element is a subtype;
      `fieldData.type` when that is an array whose first element is a
      subtype; null otherwise. */
  function GetSubType(fieldData: Val): (r: Result<Val>)
    ensures r.Ok? ==> r.value == fieldData || r.value == Get(fieldData, "type") || r.value == Null
    ensures r.Err? ==> r.error == TypeError
    // it throws exactly when one of the three `.type` reads lands on null or
    // undefined: the declaration itself, the first element of an array
    // declaration, or the first element of an array `type`
    ensures r.Err? <==>
      || Nullish(fieldData)
      || (fieldData.Arr? && Nullish(Index(fieldData, 0)))
      || (Get(fieldData, "type").Arr? && Nullish(Index(Get(fieldData, "type"), 0)))
    // a record `{type: {...}}` yields the record, not its `type`
    ensures IsSubType(fieldData) == Ok(true) ==> r == Ok(fieldData)
    // what is returned is an inline subtype, or an array whose first element is one
    ensures r.Ok? && r.value != Null ==>
      if r.value.Arr? then IsSubType(Index(r.value, 0)) == Ok(true) else IsSubType(r.value) == Ok(true)
    ensures r.Ok? && r.value == Null ==>
      IsSubType(fieldData) == Ok(false)
      && !(fieldData.Arr? && IsSubType(Index(fieldData, 0)) == Ok(true))
      && !(Get(fieldData, "type").Arr? && IsSubType(Index(Get(fieldData, "type"), 0)) == Ok(true))
  {
    var direct :- IsSubType(fieldData);
    if direct then Ok(fieldData)
    else
      var inArray :- if fieldData.Arr? then IsSubType(Index(fieldData, 0)) else Ok(false);
      if inArray then Ok(fieldData)
      else
        var ty := Get(fieldData, "type");
        var inTypeArray :- if ty.Arr? then IsSubType(Index(ty, 0)) else Ok(false);
        if inTypeArray then Ok(ty) else Ok(Null)
  }

  // The classifications the source's comments and tests rely on.

  lemma ReferenceArrayIsNotSubType()
    ensures GetSubType(Obj([Prop("type", Arr([Mark(ObjectId)]))])) == Ok(Null)
  {
  }

  lemma NameAndMarkerAreNotSubTypes()
    ensures GetSubType(Str("Asset")) == Ok(Null)
    ensures GetSubType(Mark(NumberFn)) == Ok(Null)
  {
  }

  lemma EmptyArrayThrows()
    ensures GetSubType(Arr([])) == Err(TypeError)
  {
  }
}
