/**
  Runtime values of the dynamic record handed to the validators, and the three
  primitive kinds the type passes check against.
 */
module Values {

  /**
    A JavaScript value, split at least as finely as `typeof` splits values, with
    `null` kept apart from other objects. `Obj` stands for every other object
    (an `ObjectId`, a `Date`, an array, ...).
   */
  datatype Value =
    | Num(n: real)
    | Str(s: string)
    | Bool(b: bool)
    | Null
    | Undefined
    | Obj

  /** The record about to be saved: its own keys and their values. */
  type Record = map<string, Value>

  /** JavaScript's `typeof` operator on the values modelled here. */
  function TypeOf(v: Value): string
  {
    match v
    case Num(_) => "number"
    case Str(_) => "string"
    case Bool(_) => "boolean"
    case Null => "object"
    case Undefined => "undefined"
    case Obj => "object"
  }

  /** The primitive kinds a document can declare a field to hold. */
  datatype Kind = Number | String | Boolean

  /** The `typeof` result each type pass compares a field's value against. */
  function Tag(k: Kind): string
  {
    match k
    case Number => "number"
    case String => "string"
    case Boolean => "boolean"
  }

  /** The type name each pass writes into its error. */
  function Label(k: Kind): string
  {
    match k
    case Number => "Number"
    case String => "String"
    case Boolean => "Boolean"
  }

  /** Reference definition: `v` is a primitive of kind `k`. */
  predicate IsKind(v: Value, k: Kind)
  {
    match k
    case Number => v.Num?
    case String => v.Str?
    case Boolean => v.Bool?
  }

  /** Comparing `typeof` against the pass's tag accepts exactly the values of that kind. */
  lemma TagMatchesKind(v: Value, k: Kind)
    ensures TypeOf(v) == Tag(k) <==> IsKind(v, k)
  {
  }

  /** Distinct passes report distinct labels, so the label identifies the pass. */
  lemma LabelInjective(k1: Kind, k2: Kind)
    ensures Label(k1) == Label(k2) <==> k1 == k2
  {
  }
}
