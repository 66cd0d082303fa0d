/** src/projection.js: the field projection of a resolver's info object,
    `{name: 1}` for every selection under the first field node. */
module Projection {
  import opened JsValue

  /** The selections `getProjection` folds over: none when any of the guards
      fails. Reading `selectionSet` of a null first node throws. */
  function Selections(info: Val): (r: Result<seq<Val>>)
    ensures r.Err? ==> r.error == TypeError
    ensures Nullish(info) ==> r == Ok([])
    ensures !Get(info, "fieldNodes").Arr? || Get(info, "fieldNodes").elems == [] ==> r == Ok([])
    ensures var nodes := Get(info, "fieldNodes"); nodes.Arr? && nodes.elems != [] ==>
      var node := nodes.elems[0];
      && (Nullish(node) <==> r.Err?)
      && (!Nullish(node) && Nullish(Get(node, "selectionSet")) ==> r == Ok([]))
      && (!Nullish(node) && !Nullish(Get(node, "selectionSet")) ==>
            var selections := Get(Get(node, "selectionSet"), "selections");
            r == Ok(if selections.Arr? then selections.elems else []))
  {
    if Nullish(info) then Ok([])
    else
      var nodes := Get(info, "fieldNodes");
      if !nodes.Arr? || |nodes.elems| == 0 then Ok([])
      else
        var node := nodes.elems[0];
        if Nullish(node) then Err(TypeError)
        else
          var selectionSet := Get(node, "selectionSet");
          if Nullish(selectionSet) then Ok([])
          else
            var selections := Get(selectionSet, "selections");
            if !selections.Arr? then Ok([]) else Ok(selections.elems)
  }

  /** The key a selection contributes, `selection.name.value`. */
  function SelectionKey(selection: Val): (r: Result<string>)
    ensures r.Err? <==> Nullish(selection) || Nullish(Get(selection, "name"))
    ensures r.Err? ==> r.error == TypeError
  {
    if Nullish(selection) || Nullish(Get(selection, "name")) then Err(TypeError)
    else Ok(ToPropertyKey(Get(Get(selection, "name"), "value")))
  }

  /** The first `n` selections all have a name. */
  predicate NamedUpTo(selections: seq<Val>, n: nat)
    requires n <= |selections|
  {
    forall i :: 0 <= i < n ==> SelectionKey(selections[i]).Ok?
  }

  predicate AllNamed(selections: seq<Val>) {
    NamedUpTo(selections, |selections|)
  }

  /** The keys of the selections `selections[..n]`. */
  function KeysUpTo(selections: seq<Val>, n: nat): set<string>
    requires n <= |selections| && NamedUpTo(selections, n)
  {
    if n == 0 then {} else KeysUpTo(selections, n - 1) + {SelectionKey(selections[n - 1]).value}
  }

  /** The projection of a list of selections, as a set: one entry, with
      value 1, per distinct selection name. */
  function Project(selections: seq<Val>): (r: Result<map<string, int>>)
    ensures r.Ok? <==> AllNamed(selections)
    ensures r.Ok? ==> (r.value.Keys == KeysUpTo(selections, |selections|)
      && forall k :: k in r.value ==> r.value[k] == 1)
    ensures r.Err? ==> r.error == TypeError
  {
    if !AllNamed(selections) then Err(TypeError)
    else Ok(Ones(KeysUpTo(selections, |selections|)))
  }

  /** The map with value 1 at each of `keys`. */
  function Ones(keys: set<string>): (m: map<string, int>)
    ensures m.Keys == keys && forall k :: k in m ==> m[k] == 1
  {
    map k | k in keys :: 1
  }

  lemma NamedStep(selections: seq<Val>, i: nat)
    requires i < |selections| && NamedUpTo(selections, i) && SelectionKey(selections[i]).Ok?
    ensures NamedUpTo(selections, i + 1)
  {
  }

  lemma NotAllNamed(selections: seq<Val>, i: nat)
    requires i < |selections| && SelectionKey(selections[i]).Err?
    ensures !AllNamed(selections)
  {
  }

  /** Setting one more key to 1. */
  lemma OnesAdd(keys: set<string>, k: string)
    ensures Ones(keys + {k}) == Ones(keys)[k := 1]
  {
    var a, b := Ones(keys + {k}), Ones(keys)[k := 1];
    assert a.Keys == b.Keys;
    assert forall x :: x in a ==> a[x] == b[x];
  }

  /** The projection `getProjection` computes. */
  function ProjectionOf(info: Val): (r: Result<map<string, int>>)
    ensures r.Ok? ==> forall k :: k in r.value ==> r.value[k] == 1
    ensures r.Err? ==> r.error == TypeError
    ensures Selections(info).Ok? ==> r == Project(Selections(info).value)
  {
    var selections :- Selections(info);
    Project(selections)
  }

  /** `getProjection(fieldASTs)`: the `reduce` that sets
      `projections[selection.name.value] = 1` one selection at a time. */
  method GetProjection(info: Val) returns (r: Result<map<string, int>>)
    ensures r == ProjectionOf(info)
  {
    var found := Selections(info);
    if found.Err? {
      return Err(found.error);
    }
    r := Collect(found.value);
  }

  /** The `reduce` itself. */
  method Collect(selections: seq<Val>) returns (r: Result<map<string, int>>)
    ensures r == Project(selections)
  {
    var projections: map<string, int> := map[];
    assert projections == Ones({});
    var i := 0;
    while i < |selections|
      invariant 0 <= i <= |selections|
      invariant NamedUpTo(selections, i)
      invariant projections == Ones(KeysUpTo(selections, i))
    {
      var key := SelectionKey(selections[i]);
      if key.Err? {
        NotAllNamed(selections, i);
        return Err(key.error);
      }
      NamedStep(selections, i);
      OnesAdd(KeysUpTo(selections, i), key.value);
      projections := projections[key.value := 1];
      i := i + 1;
    }
    return Ok(projections);
  }

  /** Each guard yields the empty projection. */
  lemma GuardsGiveEmpty(info: Val)
    requires Selections(info) == Ok([])
    ensures ProjectionOf(info) == Ok(map[])
  {
    assert KeysUpTo([], 0) == {};
  }

  /** A null first field node is read through and throws. */
  lemma NullFirstNodeThrows()
    ensures ProjectionOf(Obj([Prop("fieldNodes", Arr([Null]))])) == Err(TypeError)
  {
  }

  /** Only the first field node is consulted. */
  lemma {:induction false} OnlyFirstNode(first: Val, rest1: seq<Val>, rest2: seq<Val>)
    ensures ProjectionOf(Obj([Prop("fieldNodes", Arr([first] + rest1))]))
         == ProjectionOf(Obj([Prop("fieldNodes", Arr([first] + rest2))]))
  {
    assert Selections(Obj([Prop("fieldNodes", Arr([first] + rest1))]))
        == Selections(Obj([Prop("fieldNodes", Arr([first] + rest2))]));
  }

  function Selection(name: string): Val {
    Obj([Prop("name", Obj([Prop("value", Str(name))]))])
  }

  function Info(selections: seq<Val>): Val {
    Obj([Prop("fieldNodes", Arr([Obj([Prop("selectionSet", Obj([Prop("selections", Arr(selections))]))])]))])
  }

  lemma SelectionName(name: string)
    ensures SelectionKey(Selection(name)) == Ok(name)
  {
    assert Get(Selection(name), "name") == Obj([Prop("value", Str(name))]);
  }

  lemma InfoSelections(s: seq<Val>)
    ensures Selections(Info(s)) == Ok(s)
  {
  }

  lemma CollapseKeys(s: seq<Val>)
    requires s == [Selection("id"), Selection("title"), Selection("id")]
    ensures AllNamed(s) && KeysUpTo(s, 3) == {"id", "title"}
  {
    SelectionName("id");
    SelectionName("title");
    assert KeysUpTo(s, 1) == {"id"};
    assert KeysUpTo(s, 2) == {"id", "title"};
  }

  /** Repeated names collapse to one key. */
  lemma DuplicatesCollapse()
    ensures ProjectionOf(Info([Selection("id"), Selection("title"), Selection("id")]))
      == Ok(map["id" := 1, "title" := 1])
  {
    var s := [Selection("id"), Selection("title"), Selection("id")];
    InfoSelections(s);
    CollapsedProjection(s);
  }

  lemma CollapsedProjection(s: seq<Val>)
    requires s == [Selection("id"), Selection("title"), Selection("id")]
    ensures Project(s) == Ok(map["id" := 1, "title" := 1])
  {
    CollapseKeys(s);
    var m := Project(s).value;
    assert m.Keys == {"id", "title"};
    assert m["id"] == 1 && m["title"] == 1;
    assert m == map["id" := 1, "title" := 1];
  }
}
