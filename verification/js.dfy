/** JavaScript values as the screens see them: a field or a stored item is either
    absent (`null` / `undefined`) or a string, and the screens branch on its
    truthiness. */
module Js {

  /** An optional value; `None` stands for JavaScript's `null` and `undefined`. */
  datatype Option<+T> = None | Some(value: T)

  /** JavaScript truthiness of a possibly-absent string: present and non-empty. */
  predicate Truthy(v: Option<string>) {
    v.Some? && v.value != ""
  }

  /** The string operand of `v || fallback`. */
  function OrElse(v: Option<string>, fallback: string): string {
    if Truthy(v) then v.value else fallback
  }

  /** `a || b` where both operands may be absent. */
  function Either(a: Option<string>, b: Option<string>): Option<string> {
    if Truthy(a) then a else b
  }

  /** A JSON object's field where `null` and a missing field show differently. */
  datatype Field = Missing | Null | Text(text: string)

  /** How a template literal shows a field (`${x}`). */
  function Show(v: Field): string {
    match v
    case Text(s) => s
    case Missing => "undefined"
    case Null => "null"
  }
}
