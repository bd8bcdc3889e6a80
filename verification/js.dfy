/** JavaScript values as the in-memory store and the client components see them. */
module Js {

  datatype Option<+T> = None | Some(value: T)

  /** The primitive values a stored row can hold. `Undefined` is what reading a
      missing property yields; `Date(t)` is a `Date` object at abstract time `t`. */
  datatype Value =
    | Undefined
    | Null
    | Bool(b: bool)
    | Num(n: int)
    | Str(s: string)
    | Date(t: int)

  /** JavaScript truthiness: `undefined`, `null`, `false`, `0` and `""` are falsy. */
  predicate Truthy(v: Value) {
    match v
    case Undefined => false
    case Null => false
    case Bool(b) => b
    case Num(n) => n != 0
    case Str(s) => s != ""
    case Date(_) => true
  }

  /** `a || b`: the first operand when it is truthy, otherwise the second. */
  function Or(a: Value, b: Value): (r: Value)
    ensures Truthy(a) ==> r == a
    ensures !Truthy(a) ==> r == b
  {
    if Truthy(a) then a else b
  }

  /** The `number | string` identifiers of kanban items and displayed comments. */
  datatype Id = NumId(n: int) | StrId(s: string)
}
