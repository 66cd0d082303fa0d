/** JavaScript values as the schema builder sees them: declarations, resolver
    maps, AST nodes and query info objects are all values of `Val`. */
module JsValue {

  datatype Option<+T> = None | Some(value: T)

  /** The two ways a call of the core can throw: a property read on null or
      undefined (TypeError), or a failed `assert` with its message. */
  datatype Error = TypeError | AssertionError(message: string)

  datatype Result<+T> = Ok(value: T) | Err(error: Error) {
    predicate IsFailure() { Err? }
    function PropagateFailure<U>(): Result<U> requires Err? { Err(error) }
    function Extract(): T requires Ok? { value }
  }

  /** The scalar markers a declaration may use. The first four are the global
      constructor functions String, Number, Date and Boolean. Mixed and
      ObjectId stand, in each builder, for the sentinel pair that builder
      hands its own producers and compares against: the frozen objects of
      src/types.js for the field-set builder, the local `types` of
      src/buildtypes.js for the older one. The two pairs are not told apart. */
  datatype Marker = StringFn | NumberFn | DateFn | BooleanFn | Mixed | ObjectId

  /** One own property of a plain object. */
  datatype Prop = Prop(key: string, value: Val)

  /** A JavaScript value. Numbers are integral (or NaN). `Func(id, ret)` is
      a user function with identity `id` that returns `ret` when called with
      the marker constants, which is the only way the core calls one. A plain
      object lists its own properties in insertion order (JavaScript would
      list integer-like keys first, in ascending order); if a key occurs
      twice, the first occurrence is the property. */
  datatype Val =
    | Undefined
    | Null
    | Bool(b: bool)
    | Num(n: int)
    | NaN
    | Str(s: string)
    | Mark(marker: Marker)
    | Func(id: nat, ret: Val)
    | Arr(elems: seq<Val>)
    | Obj(props: seq<Prop>)

  /** `v == null` (loose equality: null or undefined). */
  predicate Nullish(v: Val) { v.Undefined? || v.Null? }

  /** JavaScript truthiness. */
  predicate Truthy(v: Val) {
    match v
    case Undefined => false
    case Null => false
    case NaN => false
    case Bool(b) => b
    case Num(n) => n != 0
    case Str(s) => s != ""
    case _ => true
  }

  /** `v instanceof Function`. */
  predicate IsFunction(v: Val) {
    v.Func? || (v.Mark? && v.marker != Mixed && v.marker != ObjectId)
  }

  /** `v instanceof Object`: everything but the primitives. */
  predicate IsObject(v: Val) {
    v.Mark? || v.Func? || v.Arr? || v.Obj?
  }

  /** A structural size; every component of a value is strictly smaller. */
  function Size(v: Val): nat
    decreases v
  {
    match v
    case Func(_, r) => 1 + Size(r)
    case Arr(es) => 1 + ElemsSize(es)
    case Obj(ps) => 1 + PropsSize(ps)
    case _ => 0
  }

  function ElemsSize(es: seq<Val>): nat
    decreases es
  {
    if es == [] then 0 else Size(es[0]) + ElemsSize(es[1..])
  }

  function PropsSize(ps: seq<Prop>): nat
    decreases ps
  {
    if ps == [] then 0 else Size(ps[0].value) + PropsSize(ps[1..])
  }

  /** The value of the first property named `k`, or undefined. */
  function Lookup(ps: seq<Prop>, k: string): (r: Val)
    ensures Size(r) <= PropsSize(ps)
    ensures (forall i :: 0 <= i < |ps| ==> ps[i].key != k) ==> r == Undefined
  {
    if ps == [] then Undefined
    else if ps[0].key == k then ps[0].value
    else Lookup(ps[1..], k)
  }

  /** `v[k]` for a value that is not null or undefined (callers check that
      first, since the read throws there). Only plain objects have own
      properties in this model. */
  function Get(v: Val, k: string): (r: Val)
    ensures v.Obj? ==> Size(r) < Size(v)
    ensures !v.Obj? ==> r == Undefined
  {
    if v.Obj? then Lookup(v.props, k) else Undefined
  }

  lemma {:induction false} ElemBounded(es: seq<Val>, i: nat)
    requires i < |es|
    ensures Size(es[i]) <= ElemsSize(es)
  {
    if i > 0 {
      ElemBounded(es[1..], i - 1);
      assert es[1..][i - 1] == es[i];
    }
  }

  /** `v[i]` for an array index. */
  function Index(v: Val, i: nat): (r: Val)
    ensures v.Arr? ==> Size(r) < Size(v)
    ensures v.Arr? && i < |v.elems| ==> r == v.elems[i]
    ensures !(v.Arr? && i < |v.elems|) ==> r == Undefined
  {
    if v.Arr? && i < |v.elems| then
      ElemBounded(v.elems, i);
      v.elems[i]
    else Undefined
  }

  /** The set of own property names of a plain object. */
  function KeySet(ps: seq<Prop>): set<string> {
    set i | 0 <= i < |ps| :: ps[i].key
  }

  /** `Object.getOwnPropertyNames` of a property list: every key once, in
      order of first occurrence (integer-like keys are not moved ahead). */
  function Names(ps: seq<Prop>): (r: seq<string>)
    ensures forall i, j :: 0 <= i < j < |r| ==> r[i] != r[j]
    ensures forall k :: k in r <==> k in KeySet(ps)
  {
    if ps == [] then []
    else
      var init := Names(ps[..|ps| - 1]);
      var k := ps[|ps| - 1].key;
      assert forall k' :: k' in KeySet(ps) <==> k' in KeySet(ps[..|ps| - 1]) || k' == k by {
        forall k' | k' in KeySet(ps) ensures k' in KeySet(ps[..|ps| - 1]) || k' == k {
          var i :| 0 <= i < |ps| && ps[i].key == k';
          if i < |ps| - 1 { assert ps[..|ps| - 1][i] == ps[i]; }
        }
        forall k' | k' in KeySet(ps[..|ps| - 1]) ensures k' in KeySet(ps) {
          var i :| 0 <= i < |ps| - 1 && ps[..|ps| - 1][i].key == k';
          assert ps[i].key == k';
        }
        assert ps[|ps| - 1].key == k;
      }
      if k in init then init else init + [k]
  }

  lemma NamesOfOne(p: Prop)
    ensures Names([p]) == [p.key]
  {
    assert [p][..0] == [];
  }

  /** The own property names the core iterates over. In JavaScript strings,
      arrays and functions also have own names (indices, `length`, ...);
      the model gives them none. Null and undefined have none either: the
      builders refuse them before asking. */
  function OwnNames(v: Val): seq<string> {
    if v.Obj? then Names(v.props) else []
  }

  /** The value `f(types)` returns for a function `f`: producers return their
      declaration; the four constructor markers coerce their argument. */
  function CallWithMarkers(f: Val): (r: Val)
    requires IsFunction(f)
    ensures Size(r) <= Size(f)
    ensures f.Func? ==> r == f.ret
  {
    match f
    case Func(_, ret) => ret
    case Mark(m) =>
      (match m
       case StringFn => Str("[object Object]")
       case NumberFn => NaN
       case BooleanFn => Bool(true)
       case _ => Str(""))
  }

  /** `f instanceof Function ? f(types) : f`, the producer convention. */
  function Produce(f: Val): (r: Val)
    ensures Size(r) <= Size(f)
  {
    if IsFunction(f) then CallWithMarkers(f) else f
  }

  function Digits(n: nat): string
    decreases n
  {
    var d := ['0', '1', '2', '3', '4', '5', '6', '7', '8', '9'][n % 10];
    if n < 10 then [d] else Digits(n / 10) + [d]
  }

  /** The key a value becomes when used as a property name (`ToString`). */
  function ToPropertyKey(v: Val): string
    decreases v
  {
    match v
    case Undefined => "undefined"
    case Null => "null"
    case NaN => "NaN"
    case Bool(b) => if b then "true" else "false"
    case Num(n) => if n < 0 then "-" + Digits(-n) else Digits(n)
    case Str(s) => s
    case Mark(m) =>
      (match m
       case StringFn => "function String() { [native code] }"
       case NumberFn => "function Number() { [native code] }"
       case DateFn => "function Date() { [native code] }"
       case BooleanFn => "function Boolean() { [native code] }"
       case _ => "[object Object]")
    case Func(_, _) => "function"
    case Arr(es) => JoinKeys(es)
    case Obj(_) => "[object Object]"
  }

  /** `Array.prototype.join(",")`, where null and undefined print as "". */
  function JoinKeys(es: seq<Val>): string
    decreases es
  {
    if es == [] then ""
    else
      var head := if Nullish(es[0]) then "" else ToPropertyKey(es[0]);
      if |es| == 1 then head else head + "," + JoinKeys(es[1..])
  }

  /** `o[k] = v` on a property list: an existing key keeps its position and
      takes the new value; a new key is appended. */
  function SetProp(ps: seq<Prop>, k: string, v: Val): (r: seq<Prop>)
    ensures Lookup(r, k) == v
    ensures forall k' :: k' != k ==> Lookup(r, k') == Lookup(ps, k')
    ensures KeySet(r) == KeySet(ps) + {k}
  {
    if ps == [] then [Prop(k, v)]
    else if ps[0].key == k then
      assert KeySet(ps) == {k} + KeySet(ps[1..]) by { KeySetCons(ps); }
      assert KeySet([Prop(k, v)] + ps[1..]) == {k} + KeySet(ps[1..]) by { KeySetCons([Prop(k, v)] + ps[1..]); }
      [Prop(k, v)] + ps[1..]
    else
      var rest := SetProp(ps[1..], k, v);
      KeySetCons(ps);
      KeySetCons([ps[0]] + rest);
      [ps[0]] + rest
  }

  lemma KeySetCons(ps: seq<Prop>)
    requires ps != []
    ensures KeySet(ps) == {ps[0].key} + KeySet(ps[1..])
  {
    forall k | k in KeySet(ps) ensures k in {ps[0].key} + KeySet(ps[1..]) {
      var i :| 0 <= i < |ps| && ps[i].key == k;
      if i > 0 { assert ps[1..][i - 1] == ps[i]; }
    }
    forall k | k in KeySet(ps[1..]) ensures k in KeySet(ps) {
      var i :| 0 <= i < |ps[1..]| && ps[1..][i].key == k;
      assert ps[i + 1] == ps[1..][i];
    }
  }

  /** Copies the properties `names` of `src`, in order, onto `target`. */
  function AssignNames(target: seq<Prop>, src: seq<Prop>, names: seq<string>): (r: seq<Prop>)
    ensures forall k :: k in names ==> Lookup(r, k) == Lookup(src, k)
    ensures forall k :: k !in names ==> Lookup(r, k) == Lookup(target, k)
    ensures KeySet(r) == KeySet(target) + set k | k in names
    decreases |names|
  {
    if names == [] then target
    else
      var r := AssignNames(SetProp(target, names[0], Lookup(src, names[0])), src, names[1..]);
      assert forall k :: k in names <==> k == names[0] || k in names[1..];
      r
  }

  /** `Object.assign(target, src)`: throws when the target is null or
      undefined; copies the own properties of a plain-object source; a
      null, undefined or primitive source adds nothing. */
  function Assign(target: Val, src: Val): (r: Result<Val>)
    ensures r.Err? <==> Nullish(target)
    ensures r.Ok? && target.Obj? && src.Obj? ==>
      && r.value.Obj?
      && KeySet(r.value.props) == KeySet(target.props) + KeySet(src.props)
      && forall k :: Get(r.value, k) == if k in KeySet(src.props) then Get(src, k) else Get(target, k)
    ensures r.Ok? && !(target.Obj? && src.Obj?) ==> r.value == target
  {
    if Nullish(target) then Err(TypeError)
    else if target.Obj? && src.Obj? then Ok(Obj(AssignNames(target.props, src.props, Names(src.props))))
    else Ok(target)
  }
}
