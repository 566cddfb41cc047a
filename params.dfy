/**
 * The parameter dictionaries pages pass to their entries (`entry_params`)
 * and extensions update: string keys, values of a few plain kinds.
 */
module Params {
  datatype Value = Int(i: int) | Str(s: string) | Bool(b: bool)

  type Params = map<string, Value>

  /** Python truthiness of a value. */
  predicate Truthy(v: Value) {
    match v
    case Int(i) => i != 0
    case Str(s) => s != []
    case Bool(b) => b
  }

  /** `params.get(key, False)` used as a condition. */
  predicate Flag(p: Params, key: string) {
    key in p && Truthy(p[key])
  }
}
