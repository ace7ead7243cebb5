/** JavaScript values as the DI runtime sees them, and the outcome of a call that may throw. */
module JsValues {

  datatype Option<+T> = None | Some(value: T)

  /**
   * An own, enumerable property of an object. An object lists them in JavaScript's enumeration
   * order: integer-like keys first, ascending, then the others in insertion order.
   */
  datatype Prop = Prop(key: string, value: Value)

  /**
   * A closed set of value kinds. Functions (classes included), plain objects and
   * arrays carry an identity `id`, so that reference comparison can be stated;
   * `Obj.ctor` is the id of the function whose `prototype` the object inherits from.
   * Numbers are integers only; NaN is its own kind.
   */
  datatype Value =
    | Undefined
    | Null
    | Bool(b: bool)
    | Num(n: int)
    | NaN
    | Str(s: string)
    | Fn(id: nat, props: seq<Prop>)
    | Obj(id: nat, ctor: nat, props: seq<Prop>)
    | List(id: nat, elems: seq<Value>)

  /** What a `throw` in this core carries. */
  datatype Thrown =
    | Error(message: string)  // `new Error(message)`
    | TypeError               // a property read or write on `undefined`/`null`, or a call of a missing method
    | RecursionGuard          // raised by the inject-switch assertion helper

  /** Either the value a call returned or what it threw. */
  datatype Outcome<+T> = Return(value: T) | Throw(error: Thrown)

  /** JavaScript truthiness: `undefined` and `null` are falsy, every object, function and array is truthy. */
  predicate Truthy(v: Value)
    ensures Nullish(v) ==> !Truthy(v)
    ensures v.Fn? || v.Obj? || v.List? ==> Truthy(v)
  {
    match v
    case Undefined => false
    case Null => false
    case Bool(b) => b
    case Num(n) => n != 0
    case NaN => false
    case Str(s) => s != ""
    case _ => true
  }

  /** True for `undefined` and `null`, whose properties cannot be read. */
  predicate Nullish(v: Value) {
    v.Undefined? || v.Null?
  }

  /** The value of the first own property named `key`, or `undefined`. */
  function LookupProp(props: seq<Prop>, key: string): (r: Value)
    ensures r != Undefined ==> exists k :: 0 <= k < |props| && props[k].key == key && props[k].value == r
    ensures (forall k :: 0 <= k < |props| ==> props[k].key != key) ==> r == Undefined
  {
    if |props| == 0 then Undefined
    else if props[0].key == key then props[0].value
    else LookupProp(props[1..], key)
  }

  /** `v[key]` for the fixed property names this core reads; throws on `undefined`/`null`. */
  function GetProperty(v: Value, key: string): (r: Outcome<Value>)
    ensures r.Throw? <==> Nullish(v)
    ensures r.Throw? ==> r.error == TypeError
  {
    match v
    case Undefined => Throw(TypeError)
    case Null => Throw(TypeError)
    case Fn(_, props) => Return(LookupProp(props, key))
    case Obj(_, _, props) => Return(LookupProp(props, key))
    case _ => Return(Undefined)
  }
}
