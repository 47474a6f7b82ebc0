/**
 * The value `json.loads` produces. Parsing itself is not modelled: the
 * prompt crawler receives the parser as a function from text to an
 * optional value (`None` when `json.loads` raises).
 */
module Json {

  datatype Json =
    | JNull
    | JBool(b: bool)
    | JNumber(literal: string)
    | JString(s: string)
    | JArray(items: seq<Json>)
    | JObject(members: seq<(string, Json)>)

  /** `key in data` for a dict `data`. */
  predicate HasKey(members: seq<(string, Json)>, key: string)
  {
    exists i :: 0 <= i < |members| && members[i].0 == key
  }
}
