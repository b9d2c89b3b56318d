/**
 * JavaScript values and plain objects, as far as the gallery's server and
 * client code distinguish them: the falsy test behind `!x` and `||`, the
 * nullish test behind `??`, strict equality `===`, property lookup, property
 * assignment and object spread `{...a, ...b}`.
 */
module JsValues {

  datatype Option<T> = None | Some(value: T)

  datatype Result<T, E> = Ok(value: T) | Err(error: E)

  /** A JavaScript value. Arrays and nested objects are never looked into by
      the modelled code and are lumped together as `Compound`; a `Date` holds
      an abstract instant. */
  datatype JsValue =
    | Undefined
    | Null
    | Bool(b: bool)
    | Num(x: real)
    | NaN
    | Str(s: string)
    | Date(t: int)
    | Compound

  predicate Distinct(ks: seq<string>) {
    forall i, j :: 0 <= i < j < |ks| ==> ks[i] != ks[j]
  }

  /** A plain object: its own enumerable property names in insertion order
      (the order `for … in`, spread and JSON serialisation visit them), and
      their values. */
  datatype Object = Object(keys: seq<string>, props: map<string, JsValue>)

  type Obj = Object

  /** Every listed key is a property, every property is listed, once. */
  ghost predicate WellFormed(o: Obj) {
    Distinct(o.keys) && forall k :: k in o.props <==> k in o.keys
  }

  const EmptyObject: Obj := Object([], map[])

  predicate Has(o: Obj, k: string) {
    k in o.props
  }

  /** `o[k]`: the value of the property, or `undefined` when there is none. */
  function Get(o: Obj, k: string): JsValue {
    if k in o.props then o.props[k] else Undefined
  }

  /** `o[k] = v`: an existing property keeps its place, a new one is appended. */
  function Put(o: Obj, k: string, v: JsValue): (r: Obj)
    ensures r.keys == if Has(o, k) then o.keys else o.keys + [k]
    ensures forall k' :: Get(r, k') == if k' == k then v else Get(o, k')
    ensures forall k' :: Has(r, k') <==> k' == k || Has(o, k')
    ensures WellFormed(o) ==> WellFormed(r)
  {
    Object(if k in o.props then o.keys else o.keys + [k], o.props[k := v])
  }

  /** An object literal `{k1: v1, k2: v2, …}`. */
  function ObjectOf(entries: seq<(string, JsValue)>): Obj {
    if entries == [] then EmptyObject
    else
      var last := entries[|entries| - 1];
      Put(ObjectOf(entries[..|entries| - 1]), last.0, last.1)
  }

  /** Copies the properties named in `ks` from `b` onto `a`, in that order. */
  function PutAll(a: Obj, b: Obj, ks: seq<string>): Obj
    decreases |ks|
  {
    if ks == [] then a else PutAll(Put(a, ks[0], Get(b, ks[0])), b, ks[1..])
  }

  /** `{...a, ...b}` */
  function Spread(a: Obj, b: Obj): Obj {
    PutAll(a, b, b.keys)
  }

  /** `v` for truthy values, the test behind `!v`, `&&` and `||` */
  predicate Truthy(v: JsValue) {
    match v
    case Undefined => false
    case Null => false
    case Bool(b) => b
    case Num(x) => x != 0.0
    case NaN => false
    case Str(s) => s != ""
    case Date(_) => true
    case Compound => true
  }

  /** `v === null || v === undefined`, the test behind `??` */
  predicate Nullish(v: JsValue) {
    v.Undefined? || v.Null?
  }

  /** `v ?? d` */
  function Coalesce(v: JsValue, d: JsValue): (r: JsValue)
    ensures Nullish(v) ==> r == d
    ensures !Nullish(v) ==> r == v
  {
    if Nullish(v) then d else v
  }

  /** `x === y`. NaN equals nothing; two objects (dates, arrays, objects) are
      compared by reference, which the model does not track, so they are
      treated as distinct. */
  predicate StrictEquals(x: JsValue, y: JsValue) {
    match (x, y)
    case (Undefined, Undefined) => true
    case (Null, Null) => true
    case (Bool(a), Bool(b)) => a == b
    case (Num(a), Num(b)) => a == b
    case (Str(a), Str(b)) => a == b
    case _ => false
  }

  lemma {:induction false} PutAllGet(a: Obj, b: Obj, ks: seq<string>, k: string)
    ensures Get(PutAll(a, b, ks), k) == if k in ks then Get(b, k) else Get(a, k)
    decreases |ks|
  {
    if ks != [] {
      PutAllGet(Put(a, ks[0], Get(b, ks[0])), b, ks[1..], k);
      assert k in ks <==> k == ks[0] || k in ks[1..];
    }
  }

  lemma {:induction false} PutAllKeys(a: Obj, b: Obj, ks: seq<string>)
    ensures forall k :: Has(PutAll(a, b, ks), k) <==> Has(a, k) || k in ks
    ensures (forall k :: k in ks ==> Has(a, k)) ==> PutAll(a, b, ks).keys == a.keys
    decreases |ks|
  {
    if ks != [] {
      var a' := Put(a, ks[0], Get(b, ks[0]));
      PutAllKeys(a', b, ks[1..]);
      assert forall k :: k in ks <==> k == ks[0] || k in ks[1..];
    }
  }

  /** Spreading `b` over `a` gives every own property of `b` its value in `b`
      and keeps every other property of `a`. */
  lemma SpreadGet(a: Obj, b: Obj, k: string)
    ensures Get(Spread(a, b), k) == if k in b.keys then Get(b, k) else Get(a, k)
  {
    PutAllGet(a, b, b.keys, k);
  }

  /** The spread object has the properties of both; when `b` adds no new
      property the key order of `a` is kept. */
  lemma SpreadKeys(a: Obj, b: Obj)
    ensures forall k :: Has(Spread(a, b), k) <==> Has(a, k) || k in b.keys
    ensures (forall k :: k in b.keys ==> Has(a, k)) ==> Spread(a, b).keys == a.keys
  {
    PutAllKeys(a, b, b.keys);
  }
}
