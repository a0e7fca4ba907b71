/** The JavaScript values the core compares and adds, and the two
    coercions it relies on: `null` converts to 0, `undefined` to NaN, and
    every relational comparison involving NaN is false. */
module JsValues {

  datatype Option<+T> = None | Some(value: T)

  /** ToNumber of a nullable number: `null` counts as 0 in arithmetic and in
      `<`, `<=`, `>`, `>=`. */
  function Num(x: Option<real>): real
  {
    match x
    case Some(v) => v
    case None => 0.0
  }

  /** A property read that may find a number, `null`, or nothing at all. */
  datatype Value = Undefined | Null | Number(n: real)

  /** ToNumber; `None` stands for NaN. */
  function ToNumber(v: Value): Option<real>
  {
    match v
    case Undefined => None
    case Null => Some(0.0)
    case Number(n) => Some(n)
  }

  function OfNullable(x: Option<real>): Value
  {
    match x
    case Some(v) => Number(v)
    case None => Null
  }

  /** `a < b` as JavaScript evaluates it on numbers, null and undefined. */
  predicate Less(a: Value, b: Value)
  {
    match (ToNumber(a), ToNumber(b))
    case (Some(x), Some(y)) => x < y
    case _ => false
  }

  /** `a <= b` as JavaScript evaluates it on numbers, null and undefined. */
  predicate LessEq(a: Value, b: Value)
  {
    match (ToNumber(a), ToNumber(b))
    case (Some(x), Some(y)) => x <= y
    case _ => false
  }

  /** A comparison with `undefined` is false in both directions, and so is
      its negation's counterpart: neither `u < v` nor `v <= u` holds. */
  lemma UndefinedIncomparable(v: Value)
    ensures !Less(Undefined, v) && !Less(v, Undefined)
    ensures !LessEq(Undefined, v) && !LessEq(v, Undefined)
  {
  }

  /** On `null` and numbers the comparisons agree with those on `Num`. */
  lemma NullableComparisons(x: Option<real>, y: Option<real>)
    ensures Less(OfNullable(x), OfNullable(y)) <==> Num(x) < Num(y)
    ensures LessEq(OfNullable(x), OfNullable(y)) <==> Num(x) <= Num(y)
  {
  }
}
