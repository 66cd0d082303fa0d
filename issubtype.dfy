/** src/issubtype.js: the stand-alone inline-subtype predicate. */
module IsSubType {
  import opened JsValue
  import SubType

  /** `isSubType`: an object that is not a function, not an array, not a
      scalar-marker constant, and whose `type` is null or undefined. */
  predicate IsSubType(fieldData: Val)
    ensures IsSubType(fieldData) <==> fieldData.Obj? && Nullish(Get(fieldData, "type"))
  {
    && IsObject(fieldData)
    && !IsFunction(fieldData)
    && !fieldData.Arr?
    && fieldData != Mark(NumberFn)
    && fieldData != Mark(StringFn)
    && fieldData != Mark(Mixed)
    && fieldData != Mark(ObjectId)
    && Nullish(Get(fieldData, "type"))
  }

  /** The stand-alone predicate and subtype.js's `_isTypeDefinition` agree
      on every value. */
  lemma AgreesWithTypeDefinition(v: Val)
    ensures IsSubType(v) == SubType.IsTypeDefinition(v)
  {
  }

  /** Primitives (not `instanceof Object`), functions and the two sentinels
      are never subtypes. */
  lemma NonObjectsAreNotSubTypes(v: Val)
    requires !v.Obj?
    ensures !IsSubType(v)
  {
  }
}
