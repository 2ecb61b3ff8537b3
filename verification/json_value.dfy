/**
 * The JSON values that the services exchange with the language model and the
 * database.  Numbers are kept integral: no decision in the model depends on a
 * fractional part.  Parsing itself (json.loads, JSON.parse) is not modelled:
 * every operation that parses takes a `Parser`, an arbitrary partial function
 * from text to a value, where `None` stands for the parser raising.
 */
module JsonValue {
  import opened Wrappers

  datatype Json =
    | JNull
    | JBool(b: bool)
    | JNum(n: int)
    | JStr(s: string)
    | JArr(items: seq<Json>)
    | JObj(fields: map<string, Json>)

  type Parser = string -> Option<Json>

  /** The empty object `{}`. */
  const EmptyObject: Json := JObj(map[])

  /** JavaScript truthiness of a value (`!value` is the negation). */
  predicate Truthy(j: Json) {
    match j
    case JNull => false
    case JBool(b) => b
    case JNum(n) => n != 0
    case JStr(s) => s != ""
    case JArr(_) => true
    case JObj(_) => true
  }

  /** Python truthiness of a value: empty containers are false as well. */
  predicate PyTruthy(j: Json) {
    match j
    case JNull => false
    case JBool(b) => b
    case JNum(n) => n != 0
    case JStr(s) => s != ""
    case JArr(items) => items != []
    case JObj(fields) => fields != map[]
  }

  /** A one-field object `{key: value}`. */
  function Single(key: string, value: Json): (j: Json)
    ensures j.JObj? && key in j.fields && j.fields[key] == value && |j.fields| == 1
  {
    JObj(map[key := value])
  }
}
