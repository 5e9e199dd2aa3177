/**
 * A small model of the JavaScript heap that the reactive externals layer works on.
 *
 * A JavaScript value is a primitive or a reference to an object. Every object has a
 * kind (what the `isArr`, `isPlainObj`, `isMap`, ... checkers report for it), a
 * prototype chain, array elements and own enumerable string-keyed properties in
 * enumeration order, none of which the layer ever writes, and the three symbol-keyed
 * tags it reads or writes (RAW_TYPE, OBSERVABLE_TYPE and MakeObservableSymbol).
 */
module JsHeap {

  /** What the value-kind checkers say about an object. `OtherObj` covers every
      object none of them recognises (a Date, a RegExp, a Promise, ...). */
  datatype Kind = ArrayObj | PlainObj | MapObj | WeakMapObj | SetObj | WeakSetObj | FunctionObj | OtherObj

  /** A JavaScript value. Numbers are integers here (no NaN, no -0). */
  datatype Value = Undef | Null | Bool(b: bool) | Num(n: int) | Str(s: string) | Ref(obj: Obj)

  /** A JavaScript object. */
  class Obj {
    /** The kind reported by the value-kind checkers. */
    const kind: Kind
    /** The [[Prototype]] chain, nearest prototype first. */
    const protos: seq<Obj>
    /** The `prototype` property of a function object; null when it has none (an arrow function). */
    const prototype: Obj?
    /** Array elements (arrays only). */
    const elems: seq<Value>
    /** Own enumerable string keys, in for-in enumeration order. */
    const keys: seq<string>
    /** Own string-keyed properties. */
    const props: map<string, Value>
    /** Own RAW_TYPE property set to true. */
    var rawTag: bool
    /** Own OBSERVABLE_TYPE property set to true. */
    var observableTag: bool
    /** Own MakeObservableSymbol property holding a truthy value. */
    var annotationTag: bool

    /** The own keys are distinct and are exactly the own properties. */
    ghost predicate Valid()
    {
      && Distinct(keys)
      && (forall k :: k in props <==> k in keys)
    }

    constructor (kind: Kind, protos: seq<Obj>, prototype: Obj?,
                 elems: seq<Value>, keys: seq<string>, props: map<string, Value>)
      ensures this.kind == kind && this.protos == protos && this.prototype == prototype
      ensures this.elems == elems && this.keys == keys && this.props == props
      ensures !rawTag && !observableTag && !annotationTag
    {
      this.kind := kind;
      this.protos := protos;
      this.prototype := prototype;
      this.elems, this.keys, this.props := elems, keys, props;
      rawTag, observableTag, annotationTag := false, false, false;
    }
  }

  /** No key occurs twice. */
  predicate Distinct(keys: seq<string>)
  {
    keys == [] || (keys[0] !in keys[1..] && Distinct(keys[1..]))
  }

  /** ToBoolean. */
  predicate Truthy(v: Value)
  {
    match v
    case Undef => false
    case Null => false
    case Bool(b) => b
    case Num(n) => n != 0
    case Str(s) => s != ""
    case Ref(_) => true
  }

  /** The object itself followed by its prototypes: where a property read looks. */
  function Chain(o: Obj): (c: seq<Obj>)
    ensures |c| >= 1 && c[0] == o
  {
    [o] + o.protos
  }

  /** The objects a property read on `o` may visit. */
  function ChainSet(o: Obj): (s: set<Obj>)
    ensures o in s && forall p :: p in o.protos ==> p in s
  {
    set p | p in Chain(o)
  }

  /** The objects a read of `v`'s properties may visit. */
  function Footprint(v: Value): set<Obj>
  {
    if v.Ref? then ChainSet(v.obj) else {}
  }

  /** [[Get]] of a string key along a chain: the value at the first object that owns it. */
  function Lookup(chain: seq<Obj>, key: string): (r: Value)
    ensures (forall i :: 0 <= i < |chain| ==> key !in chain[i].props) ==> r == Undef
  {
    if chain == [] then Undef
    else if key in chain[0].props then chain[0].props[key]
    else Lookup(chain[1..], key)
  }

  /** [[HasProperty]] of a string key along a chain. */
  predicate HasKey(chain: seq<Obj>, key: string)
  {
    exists i :: 0 <= i < |chain| && key in chain[i].props
  }

  /** `o[key]` for a string key. */
  function Get(o: Obj, key: string): Value
  {
    Lookup(Chain(o), key)
  }

  /** `key in o` for a string key. */
  predicate Has(o: Obj, key: string)
  {
    HasKey(Chain(o), key)
  }

  /** `o[RAW_TYPE]` is truthy: the tag is written only as `true`, so any owner on the chain decides. */
  predicate RawTagged(o: Obj)
    reads ChainSet(o)
  {
    exists i :: 0 <= i < |Chain(o)| && Chain(o)[i].rawTag
  }

  /** `o[OBSERVABLE_TYPE]` is truthy. */
  predicate ObservableTagged(o: Obj)
    reads ChainSet(o)
  {
    exists i :: 0 <= i < |Chain(o)| && Chain(o)[i].observableTag
  }

  /** `o[MakeObservableSymbol]` is truthy. */
  predicate AnnotationTagged(o: Obj)
    reads ChainSet(o)
  {
    exists i :: 0 <= i < |Chain(o)| && Chain(o)[i].annotationTag
  }

  /** `isFn(v)`. */
  predicate IsFn(v: Value)
  {
    v.Ref? && v.obj.kind == FunctionObj
  }
}
