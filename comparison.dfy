/**
 * `devModeEqual`, the comparator the development-mode change check uses. Arrays are compared
 * element by element, any two non-array objects or functions count as equal whatever their
 * contents, and everything else is compared with `Object.is`.
 */
module Comparison {
  import opened JsValues

  /** `isListLikeIterable`: only arrays are modelled as list-like. */
  predicate IsListLike(v: Value) {
    v.List?
  }

  /** `a && (typeof a === 'object' || typeof a === 'function')`. */
  predicate IsObjectLike(v: Value) {
    Truthy(v) && (v.Obj? || v.List? || v.Fn?)
  }

  /** `Object.is` without floating point: references by identity, NaN equal to itself. */
  predicate ObjectIs(a: Value, b: Value) {
    match (a, b)
    case (Fn(i, _), Fn(j, _)) => i == j
    case (Obj(i, _, _), Obj(j, _, _)) => i == j
    case (List(i, _), List(j, _)) => i == j
    case _ => a == b
  }

  /**
   * `devModeEqual(a, b)`; the list case is `areIterablesEqual(a, b, devModeEqual)`. Every value
   * equals itself, NaN and nested arrays included.
   */
  predicate DevModeEqual(a: Value, b: Value)
    ensures a == b ==> DevModeEqual(a, b)
    decreases a
  {
    if IsListLike(a) && IsListLike(b) then
      |a.elems| == |b.elems| &&
      forall k :: 0 <= k < |a.elems| ==> DevModeEqual(a.elems[k], b.elems[k])
    else if !IsListLike(a) && IsObjectLike(a) && !IsListLike(b) && IsObjectLike(b) then
      true
    else
      ObjectIs(a, b)
  }

  // ---------------------------------------------------------------------------
  // Properties

  /** Two arrays are equal exactly when they have the same length and are equal pointwise. */
  lemma ListsPointwise(a: Value, b: Value)
    requires a.List? && b.List?
    ensures DevModeEqual(a, b) <==>
              |a.elems| == |b.elems| && forall k :: 0 <= k < |a.elems| ==> DevModeEqual(a.elems[k], b.elems[k])
  {
  }

  /** Two non-array objects or functions are always equal (the intended looseness). */
  lemma ObjectsAlwaysEqual(a: Value, b: Value)
    requires (a.Obj? || a.Fn?) && (b.Obj? || b.Fn?)
    ensures DevModeEqual(a, b)
  {
  }

  /** The `Object.is` cases of the comparator. */
  lemma ScalarCases(objId: nat, listId: nat, ctor: nat, elems: seq<Value>)
    ensures DevModeEqual(NaN, NaN)
    ensures !DevModeEqual(Num(1), Str("1"))
    ensures !DevModeEqual(Null, Obj(objId, ctor, []))
    ensures !DevModeEqual(Obj(objId, ctor, []), Null)
    ensures !DevModeEqual(List(listId, elems), Obj(objId, ctor, []))
    ensures !DevModeEqual(Num(0), Str(""))
  {
  }

  /** Distinct arrays with equal elements are equal; distinct arrays with different elements are not. */
  lemma ExampleLists(i: nat, j: nat)
    ensures DevModeEqual(List(i, [Num(1), Num(2), Num(3)]), List(j, [Num(1), Num(2), Num(3)]))
    ensures !DevModeEqual(List(i, [Num(1), Num(2)]), List(j, [Num(1), Str("2")]))
    ensures !DevModeEqual(List(i, [Num(1)]), List(j, [Num(1), Num(1)]))
  {
    var a, b := List(i, [Num(1), Num(2)]), List(j, [Num(1), Str("2")]);
    assert !DevModeEqual(a.elems[1], b.elems[1]);
  }

  /** An array never equals a non-array. */
  lemma ListVersusOther(a: Value, b: Value)
    requires a.List? && !b.List?
    ensures !DevModeEqual(a, b) && !DevModeEqual(b, a)
  {
  }

  /** The comparator is symmetric: each of its tests treats its two arguments alike. */
  lemma {:induction false} Symmetric(a: Value, b: Value)
    ensures DevModeEqual(a, b) == DevModeEqual(b, a)
    decreases a
  {
    if IsListLike(a) && IsListLike(b) && |a.elems| == |b.elems| {
      forall k | 0 <= k < |a.elems|
        ensures DevModeEqual(a.elems[k], b.elems[k]) == DevModeEqual(b.elems[k], a.elems[k])
      {
        Symmetric(a.elems[k], b.elems[k]);
      }
    }
  }
}
