/** JSON values as Foundation's `JSONSerialization` and `JSONEncoder` see
    them. Objects are maps: neither serializer promises a key order. */
module Json {
  import opened Wrappers

  datatype Json =
    | JNull
    | JBool(b: bool)
    | JNumber(n: int)
    | JString(s: string)
    | JArray(items: seq<Json>)
    | JObject(members: map<string, Json>)

  /** Rendering of a JSON value as text (`JSONEncoder.encode`,
      `JSONSerialization.data`); its byte form is the text's UTF-8. The
      rendering itself belongs to Foundation and is a parameter here. */
  type Writer = Json -> string

  /** `json[key]` on a value cast to a JSON object: none when the value is
      not an object or has no such member. */
  function Member(j: Json, key: string): (r: Option<Json>)
    ensures r.Some? <==> j.JObject? && key in j.members
    ensures r.Some? ==> r.value == j.members[key]
  {
    if j.JObject? && key in j.members then Some(j.members[key]) else None
  }

  /** `json[key] as? String`. */
  function StringMember(j: Json, key: string): (r: Option<string>)
    ensures r.Some? <==> Member(j, key).Some? && Member(j, key).value.JString?
    ensures r.Some? ==> Member(j, key) == Some(JString(r.value))
  {
    match Member(j, key)
    case Some(JString(s)) => Some(s)
    case _ => None
  }
}
