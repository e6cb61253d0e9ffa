/** JavaScript values as the records of the open-data API carry them.
    A record field is either missing (`undefined`) or a string; JSON numbers
    are represented by their decimal text. */
module JsValues {

  datatype Option<+T> = None | Some(value: T)

  /** A record field: `None` is a missing property. */
  type Field = Option<string>

  /** JavaScript truthiness of a field: present and not the empty string. */
  predicate Truthy(f: Field) {
    f.Some? && f.value != ""
  }

  /** `String(x)` and template-literal interpolation: a missing value prints as "undefined". */
  function Text(f: Field): (s: string)
    ensures f.Some? ==> s == f.value
  {
    match f
    case Some(v) => v
    case None => "undefined"
  }

  /** `x || fallback` on a field. */
  function OrDefault(f: Field, fallback: string): string {
    if Truthy(f) then f.value else fallback
  }
}
