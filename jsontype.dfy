/** src/jsontype.js: the JSON scalar. Its `parseLiteral` turns a GraphQL
    value literal (an AST node) into a plain value; `serialize` and
    `parseValue` pass values through. `parseFloat` is a parameter. */
module JsonType {
  import opened JsValue

  // The `Kind` names of graphql/language that the switch dispatches on.
  const BOOLEAN: string := "BooleanValue"
  const STRING: string := "StringValue"
  const FLOAT: string := "FloatValue"
  const INT: string := "IntValue"
  const LIST: string := "ListValue"
  const OBJECT: string := "ObjectValue"

  /** The key an object field contributes, `field.name.value`. */
  function FieldKey(field: Val): (r: Result<string>)
    ensures r.Err? <==> Nullish(field) || Nullish(Get(field, "name"))
    ensures r.Err? ==> r.error == TypeError
    ensures r.Ok? ==> field.Obj?
  {
    if Nullish(field) || Nullish(Get(field, "name")) then Err(TypeError)
    else Ok(ToPropertyKey(Get(Get(field, "name"), "value")))
  }

  /** The value of a literal. */
  function Literal(parseFloat: Val -> Val, ast: Val): (r: Result<Val>)
    decreases Size(ast), 0, 0
    ensures Nullish(ast) ==> r == Err(TypeError)
    ensures r.Err? ==> r.error == TypeError
    ensures r.Ok? && Get(ast, "kind") == Str(LIST) ==> r.value.Arr?
    ensures r.Ok? && Get(ast, "kind") == Str(OBJECT) ==> r.value.Obj?
  {
    if Nullish(ast) then Err(TypeError)
    else
      var kind := Get(ast, "kind");
      if kind == Str(BOOLEAN) || kind == Str(STRING) then Ok(Get(ast, "value"))
      else if kind == Str(FLOAT) || kind == Str(INT) then Ok(parseFloat(Get(ast, "value")))
      else if kind == Str(LIST) then
        var values := Get(ast, "values");
        if !values.Arr? then Err(TypeError)
        else
          var elems :- ListFrom(parseFloat, values, 0, []);
          Ok(Arr(elems))
      else if kind == Str(OBJECT) then
        var fields := Get(ast, "fields");
        if !fields.Arr? then Err(TypeError)
        else
          var props :- FieldsFrom(parseFloat, fields, 0, []);
          Ok(Obj(props))
      else Ok(Null)
  }

  /** `values.map(parseLiteral)` from index `i` on, after `acc`. */
  function ListFrom(parseFloat: Val -> Val, values: Val, i: nat, acc: seq<Val>): (r: Result<seq<Val>>)
    requires values.Arr? && i <= |values.elems|
    decreases Size(values), 1, |values.elems| - i
    ensures r.Err? ==> r.error == TypeError
  {
    if i == |values.elems| then Ok(acc)
    else
      var v :- Literal(parseFloat, Index(values, i));
      ListFrom(parseFloat, values, i + 1, acc + [v])
  }

  /** The object branch's loop over `fields` from index `i` on, with the
      properties `acc` set so far; each field is set with `value[k] = v`. */
  function FieldsFrom(parseFloat: Val -> Val, fields: Val, i: nat, acc: seq<Prop>): (r: Result<seq<Prop>>)
    requires fields.Arr? && i <= |fields.elems|
    decreases Size(fields), 1, |fields.elems| - i
    ensures r.Err? ==> r.error == TypeError
  {
    if i == |fields.elems| then Ok(acc)
    else
      var field := Index(fields, i);
      var k :- FieldKey(field);
      var v :- Literal(parseFloat, Get(field, "value"));
      FieldsFrom(parseFloat, fields, i + 1, SetProp(acc, k, v))
  }

  /** The kinds `parseLiteral` switches on, and what each gives. */
  lemma LiteralKinds(parseFloat: Val -> Val, ast: Val)
    requires !Nullish(ast)
    ensures var kind := Get(ast, "kind"); var r := Literal(parseFloat, ast);
      // booleans and strings come back as the node's value, whatever it is
      && (kind == Str(BOOLEAN) || kind == Str(STRING) ==> r == Ok(Get(ast, "value")))
      && (kind == Str(FLOAT) || kind == Str(INT) ==> r == Ok(parseFloat(Get(ast, "value"))))
      // a list or an object needs its `values` or `fields` array
      && (kind == Str(LIST) && !Get(ast, "values").Arr? ==> r == Err(TypeError))
      && (kind == Str(OBJECT) && !Get(ast, "fields").Arr? ==> r == Err(TypeError))
      // any other kind is null
      && (kind !in [Str(BOOLEAN), Str(STRING), Str(FLOAT), Str(INT), Str(LIST), Str(OBJECT)] ==> r == Ok(Null))
  {
  }

  /** `parseLiteral(ast)`. */
  method ParseLiteral(parseFloat: Val -> Val, ast: Val) returns (r: Result<Val>)
    decreases Size(ast), 0
    ensures r == Literal(parseFloat, ast)
  {
    if Nullish(ast) {
      return Err(TypeError);
    }
    var kind := Get(ast, "kind");
    if kind == Str(BOOLEAN) || kind == Str(STRING) {
      r := Ok(Get(ast, "value"));
    } else if kind == Str(FLOAT) || kind == Str(INT) {
      r := Ok(parseFloat(Get(ast, "value")));
    } else if kind == Str(LIST) {
      var values := Get(ast, "values");
      if !values.Arr? {
        return Err(TypeError);
      }
      var elems := ParseList(parseFloat, values);
      if elems.Err? {
        return Err(elems.error);
      }
      r := Ok(Arr(elems.value));
    } else if kind == Str(OBJECT) {
      var fields := Get(ast, "fields");
      if !fields.Arr? {
        return Err(TypeError);
      }
      var props := ParseObject(parseFloat, fields);
      if props.Err? {
        return Err(props.error);
      }
      r := Ok(Obj(props.value));
    } else {
      r := Ok(Null);
    }
  }

  /** The LIST branch: `ast.values.map(parseLiteral)`. */
  method ParseList(parseFloat: Val -> Val, values: Val) returns (r: Result<seq<Val>>)
    requires values.Arr?
    decreases Size(values), 1
    ensures r == ListFrom(parseFloat, values, 0, [])
  {
    var out: seq<Val> := [];
    var i := 0;
    while i < |values.elems|
      invariant 0 <= i <= |values.elems|
      invariant ListFrom(parseFloat, values, 0, []) == ListFrom(parseFloat, values, i, out)
    {
      var v := ParseLiteral(parseFloat, Index(values, i));
      if v.Err? {
        return Err(v.error);
      }
      out := out + [v.value];
      i := i + 1;
    }
    r := Ok(out);
  }

  /** The OBJECT branch: the loop that sets `value[field.name.value]` for
      each field in turn. */
  method ParseObject(parseFloat: Val -> Val, fields: Val) returns (r: Result<seq<Prop>>)
    requires fields.Arr?
    decreases Size(fields), 1
    ensures r == FieldsFrom(parseFloat, fields, 0, [])
  {
    var value: seq<Prop> := [];
    var i := 0;
    while i < |fields.elems|
      invariant 0 <= i <= |fields.elems|
      invariant FieldsFrom(parseFloat, fields, 0, []) == FieldsFrom(parseFloat, fields, i, value)
    {
      var field := fields.elems[i];
      var k := FieldKey(field);
      if k.Err? {
        FieldsStep(parseFloat, fields, i, value);
        return Err(k.error);
      }
      ElemValueSmaller(fields, i);
      var v := ParseLiteral(parseFloat, Get(field, "value"));
      FieldsStep(parseFloat, fields, i, value);
      if v.Err? {
        return Err(v.error);
      }
      value := SetProp(value, k.value, v.value);
      i := i + 1;
    }
    r := Ok(value);
  }

  /** A field's value is smaller than the array holding the field. */
  lemma ElemValueSmaller(fields: Val, i: nat)
    requires fields.Arr? && i < |fields.elems| && fields.elems[i].Obj?
    ensures Size(Get(fields.elems[i], "value")) < Size(fields)
  {
    assert Index(fields, i) == fields.elems[i];
  }

  /** One turn of the OBJECT loop. */
  lemma FieldsStep(parseFloat: Val -> Val, fields: Val, i: nat, acc: seq<Prop>)
    requires fields.Arr? && i < |fields.elems|
    ensures var field := fields.elems[i]; var k := FieldKey(field);
      var v := Literal(parseFloat, Get(field, "value"));
      FieldsFrom(parseFloat, fields, i, acc) ==
        if k.Err? then Err(k.error) else if v.Err? then Err(v.error)
        else FieldsFrom(parseFloat, fields, i + 1, SetProp(acc, k.value, v.value))
  {
  }

  /** A list literal fails exactly when one of its elements does. */
  lemma {:induction false} ListOk(parseFloat: Val -> Val, values: Val, i: nat, acc: seq<Val>)
    requires values.Arr? && i <= |values.elems|
    decreases |values.elems| - i
    ensures ListFrom(parseFloat, values, i, acc).Ok? <==>
      forall j :: i <= j < |values.elems| ==> Literal(parseFloat, values.elems[j]).Ok?
  {
    if i < |values.elems| {
      var v := Literal(parseFloat, values.elems[i]);
      if v.Ok? {
        ListOk(parseFloat, values, i + 1, acc + [v.value]);
      }
    }
  }

  /** A list literal keeps its length and order, element by element. */
  lemma {:induction false} ListValues(parseFloat: Val -> Val, values: Val, i: nat, acc: seq<Val>)
    requires values.Arr? && i <= |values.elems|
    requires ListFrom(parseFloat, values, i, acc).Ok?
    decreases |values.elems| - i
    ensures var r := ListFrom(parseFloat, values, i, acc).value;
      && |r| == |acc| + |values.elems| - i
      && (forall j :: 0 <= j < |acc| ==> r[j] == acc[j])
      && forall j :: i <= j < |values.elems| ==> Literal(parseFloat, values.elems[j]) == Ok(r[|acc| + j - i])
  {
    if i < |values.elems| {
      var v := Literal(parseFloat, values.elems[i]);
      ListValues(parseFloat, values, i + 1, acc + [v.value]);
    }
  }

  /** The LIST branch maps element-wise. */
  lemma ListLiteral(parseFloat: Val -> Val, ast: Val)
    requires !Nullish(ast) && Get(ast, "kind") == Str(LIST) && Get(ast, "values").Arr?
    ensures var values := Get(ast, "values").elems; var r := Literal(parseFloat, ast);
      && (r.Ok? <==> forall j :: 0 <= j < |values| ==> Literal(parseFloat, values[j]).Ok?)
      && (r.Ok? ==> (|r.value.elems| == |values|
            && forall j :: 0 <= j < |values| ==> Literal(parseFloat, values[j]) == Ok(r.value.elems[j])))
  {
    var values := Get(ast, "values");
    var l := ListFrom(parseFloat, values, 0, []);
    assert Literal(parseFloat, ast) == if l.Ok? then Ok(Arr(l.value)) else Err(l.error);
    ListOk(parseFloat, values, 0, []);
    if l.Ok? {
      ListValues(parseFloat, values, 0, []);
    }
  }

  /** The key of each field, as `FieldKey` reads it. */
  function FieldKeys(fields: seq<Val>): (r: seq<Result<string>>)
    ensures |r| == |fields| && forall j :: 0 <= j < |fields| ==> r[j] == FieldKey(fields[j])
  {
    seq(|fields|, j requires 0 <= j < |fields| => FieldKey(fields[j]))
  }

  /** The index of the last of `keys[lo..hi]` that is `k`. */
  function LastField(keys: seq<Result<string>>, k: string, lo: nat, hi: nat): (r: Option<nat>)
    requires lo <= hi <= |keys|
    decreases hi - lo
    ensures r.Some? ==> lo <= r.value < hi
  {
    if lo == hi then None
    else if keys[hi - 1] == Ok(k) then Some(hi - 1)
    else LastField(keys, k, lo, hi - 1)
  }

  /** `LastField` finds the last match, or says there is none. */
  lemma {:induction false} LastFieldIsLast(keys: seq<Result<string>>, k: string, lo: nat, hi: nat)
    requires lo <= hi <= |keys|
    decreases hi - lo
    ensures var r := LastField(keys, k, lo, hi);
      && (r.Some? ==> (keys[r.value] == Ok(k) && forall j :: r.value < j < hi ==> keys[j] != Ok(k)))
      && (r.None? ==> forall j :: lo <= j < hi ==> keys[j] != Ok(k))
  {
    if lo < hi && keys[hi - 1] != Ok(k) {
      LastFieldIsLast(keys, k, lo, hi - 1);
    }
  }

  /** Dropping the first key of the range changes the last match only if
      the first key was the only one. */
  lemma {:induction false} LastFieldStep(keys: seq<Result<string>>, k: string, lo: nat, hi: nat)
    requires lo < hi <= |keys|
    decreases hi - lo
    ensures LastField(keys, k, lo, hi) ==
      match LastField(keys, k, lo + 1, hi)
      case Some(j) => Some(j)
      case None => if keys[lo] == Ok(k) then Some(lo) else None
  {
    if lo + 1 < hi && keys[hi - 1] != Ok(k) {
      LastFieldStep(keys, k, lo, hi - 1);
    }
  }

  /** The keys of the well-named fields of `fields[i..]`. */
  function KeysFrom(fields: seq<Val>, i: nat): set<string>
    requires i <= |fields|
    decreases |fields| - i
  {
    if i == |fields| then {}
    else (if FieldKey(fields[i]).Ok? then {FieldKey(fields[i]).value} else {}) + KeysFrom(fields, i + 1)
  }

  /** The object gets every field's key, and no other. */
  lemma {:induction false} FieldsKeys(parseFloat: Val -> Val, fields: Val, i: nat, acc: seq<Prop>)
    requires fields.Arr? && i <= |fields.elems|
    decreases |fields.elems| - i
    ensures var r := FieldsFrom(parseFloat, fields, i, acc);
      r.Ok? ==> KeySet(r.value) == KeySet(acc) + KeysFrom(fields.elems, i)
  {
    if i < |fields.elems| {
      var field := fields.elems[i];
      var k := FieldKey(field);
      if k.Ok? {
        var v := Literal(parseFloat, Get(field, "value"));
        if v.Ok? {
          FieldsKeys(parseFloat, fields, i + 1, SetProp(acc, k.value, v.value));
        }
      }
    }
  }

  /** Each key takes the value of the last field with that key; a key no
      field names keeps whatever `acc` had. */
  lemma {:induction false} FieldsValues(parseFloat: Val -> Val, fields: Val, i: nat, acc: seq<Prop>)
    requires fields.Arr? && i <= |fields.elems|
    decreases |fields.elems| - i
    ensures var r := FieldsFrom(parseFloat, fields, i, acc); r.Ok? ==>
      forall key :: match LastField(FieldKeys(fields.elems), key, i, |fields.elems|)
        case Some(j) => Literal(parseFloat, Get(fields.elems[j], "value")) == Ok(JsValue.Lookup(r.value, key))
        case None => JsValue.Lookup(r.value, key) == JsValue.Lookup(acc, key)
  {
    var n := |fields.elems|;
    if i < n {
      var field := fields.elems[i];
      var k := FieldKey(field);
      if k.Ok? {
        var v := Literal(parseFloat, Get(field, "value"));
        if v.Ok? {
          var acc' := SetProp(acc, k.value, v.value);
          FieldsValues(parseFloat, fields, i + 1, acc');
          forall key: string
            ensures var r := FieldsFrom(parseFloat, fields, i, acc); r.Ok? ==>
              match LastField(FieldKeys(fields.elems), key, i, n)
              case Some(j) => Literal(parseFloat, Get(fields.elems[j], "value")) == Ok(JsValue.Lookup(r.value, key))
              case None => JsValue.Lookup(r.value, key) == JsValue.Lookup(acc, key)
          {
            LastFieldStep(FieldKeys(fields.elems), key, i, n);
          }
        }
      }
    }
  }

  /** The OBJECT branch: the keys are the field names, and a later field
      with the same name overrides an earlier one. */
  lemma ObjectLiteral(parseFloat: Val -> Val, ast: Val)
    requires !Nullish(ast) && Get(ast, "kind") == Str(OBJECT) && Get(ast, "fields").Arr?
    ensures var fields := Get(ast, "fields").elems; var r := Literal(parseFloat, ast); r.Ok? ==>
      && KeySet(r.value.props) == KeysFrom(fields, 0)
      && forall key :: match LastField(FieldKeys(fields), key, 0, |fields|)
           case Some(j) => Literal(parseFloat, Get(fields[j], "value")) == Ok(Get(r.value, key))
           case None => Get(r.value, key) == Undefined
  {
    FieldsKeys(parseFloat, Get(ast, "fields"), 0, []);
    FieldsValues(parseFloat, Get(ast, "fields"), 0, []);
    assert KeySet([]) == {};
  }

  function Field(name: string, value: Val): Val {
    Obj([Prop("name", Obj([Prop("value", Str(name))])), Prop("value", value)])
  }

  function StringNode(s: string): Val {
    Obj([Prop("kind", Str(STRING)), Prop("value", Str(s))])
  }

  lemma FieldOf(name: string, value: Val)
    ensures FieldKey(Field(name, value)) == Ok(name)
    ensures Get(Field(name, value), "value") == value
  {
    var ps := Field(name, value).props;
    assert ps[0].key != "value";
    assert ps[1..] == [Prop("value", value)];
    assert JsValue.Lookup(ps[1..], "value") == value;
    assert JsValue.Lookup(ps, "value") == value;
  }

  lemma StringOf(parseFloat: Val -> Val, s: string)
    ensures Literal(parseFloat, StringNode(s)) == Ok(Str(s))
  {
    var ps := StringNode(s).props;
    assert ps[0].key != "value";
    assert ps[1..] == [Prop("value", Str(s))];
    assert JsValue.Lookup(ps[1..], "value") == Str(s);
    assert Get(StringNode(s), "value") == Str(s);
    assert Get(StringNode(s), "kind") == Str(STRING);
  }

  /** One string field of an object literal is set on the result. */
  lemma StringFieldStep(parseFloat: Val -> Val, fields: Val, i: nat, acc: seq<Prop>, name: string, s: string)
    requires fields.Arr? && i < |fields.elems| && fields.elems[i] == Field(name, StringNode(s))
    ensures FieldsFrom(parseFloat, fields, i, acc) == FieldsFrom(parseFloat, fields, i + 1, SetProp(acc, name, Str(s)))
  {
    FieldOf(name, StringNode(s));
    StringOf(parseFloat, s);
  }

  /** An object node is the object its fields build. */
  lemma ObjectNode(parseFloat: Val -> Val, ast: Val, fs: Val)
    requires fs.Arr? && ast == Obj([Prop("kind", Str(OBJECT)), Prop("fields", fs)])
    ensures FieldsFrom(parseFloat, fs, 0, []).Ok? ==>
      Literal(parseFloat, ast) == Ok(Obj(FieldsFrom(parseFloat, fs, 0, []).value))
  {
    assert ast.props[0].key != "fields";
    assert ast.props[1..] == [Prop("fields", fs)];
    assert JsValue.Lookup(ast.props[1..], "fields") == fs;
    assert Get(ast, "fields") == fs;
  }

  lemma DuplicateFields(parseFloat: Val -> Val, fs: Val)
    requires fs.Arr? && |fs.elems| == 3
    requires fs.elems[0] == Field("a", StringNode("x"))
    requires fs.elems[1] == Field("b", StringNode("y"))
    requires fs.elems[2] == Field("a", StringNode("z"))
    ensures FieldsFrom(parseFloat, fs, 0, []) == Ok([Prop("a", Str("z")), Prop("b", Str("y"))])
  {
    StringFieldStep(parseFloat, fs, 0, [], "a", "x");
    SetEmpty("a", Str("x"));
    DuplicateFieldsFrom1(parseFloat, fs);
  }

  lemma DuplicateFieldsFrom1(parseFloat: Val -> Val, fs: Val)
    requires fs.Arr? && |fs.elems| == 3
    requires fs.elems[1] == Field("b", StringNode("y"))
    requires fs.elems[2] == Field("a", StringNode("z"))
    ensures FieldsFrom(parseFloat, fs, 1, [Prop("a", Str("x"))]) == Ok([Prop("a", Str("z")), Prop("b", Str("y"))])
  {
    StringFieldStep(parseFloat, fs, 1, [Prop("a", Str("x"))], "b", "y");
    assert "a" != "b";
    SetSecond(Prop("a", Str("x")), "b", Str("y"));
    DuplicateFieldsFrom2(parseFloat, fs);
  }

  lemma DuplicateFieldsFrom2(parseFloat: Val -> Val, fs: Val)
    requires fs.Arr? && |fs.elems| == 3
    requires fs.elems[2] == Field("a", StringNode("z"))
    ensures FieldsFrom(parseFloat, fs, 2, [Prop("a", Str("x")), Prop("b", Str("y"))])
      == Ok([Prop("a", Str("z")), Prop("b", Str("y"))])
  {
    var a3 := [Prop("a", Str("z")), Prop("b", Str("y"))];
    StringFieldStep(parseFloat, fs, 2, [Prop("a", Str("x")), Prop("b", Str("y"))], "a", "z");
    SetFirst(Prop("a", Str("x")), Prop("b", Str("y")), Str("z"));
    assert FieldsFrom(parseFloat, fs, 3, a3) == Ok(a3);
  }

  lemma SetEmpty(k: string, v: Val)
    ensures SetProp([], k, v) == [Prop(k, v)]
  {
  }

  lemma SetSecond(p: Prop, k: string, v: Val)
    requires p.key != k
    ensures SetProp([p], k, v) == [p, Prop(k, v)]
  {
    assert [p][1..] == [];
  }

  lemma SetFirst(p: Prop, q: Prop, v: Val)
    ensures SetProp([p, q], p.key, v) == [Prop(p.key, v), q]
  {
    assert [p, q][1..] == [q];
  }

  /** `{a: "x", b: "y", a: "z"}`: the second `a` wins and keeps the first
      one's position. */
  lemma DuplicateFieldOverrides(parseFloat: Val -> Val)
    ensures Literal(parseFloat, Obj([Prop("kind", Str(OBJECT)), Prop("fields",
        Arr([Field("a", StringNode("x")), Field("b", StringNode("y")), Field("a", StringNode("z"))]))]))
      == Ok(Obj([Prop("a", Str("z")), Prop("b", Str("y"))]))
  {
    var fs := Arr([Field("a", StringNode("x")), Field("b", StringNode("y")), Field("a", StringNode("z"))]);
    DuplicateFields(parseFloat, fs);
    ObjectNode(parseFloat, Obj([Prop("kind", Str(OBJECT)), Prop("fields", fs)]), fs);
  }

  /** `serialize`: values go out as they are. */
  function Serialize(a: Val): (r: Val)
    ensures r == a
  {
    a
  }

  /** `parseValue`: variables come in as they are. */
  function ParseValue(a: Val): (r: Val)
    ensures r == a
  {
    a
  }
}
