/** A parsed JSON document, standing for a rapidjson `Document` on the way in and for the
    output of the SDK's `JsonGenerator` on the way out. Object members are keyed by name;
    member order and the exact text are not modelled. */
module Json {
  import opened Optional

  datatype Json =
    | JNull
    | JBool(b: bool)
    | JNum(n: int)
    | JStr(s: string)
    | JArr(items: seq<Json>)
    | JObj(members: map<string, Json>)

  /** `jsonUtils::findNode`: the member named `key` of an object. A value that is not an
      object has no members. */
  function FindNode(j: Json, key: string): (r: Option<Json>)
    ensures r.Some? <==> j.JObj? && key in j.members
    ensures r.Some? ==> r.value == j.members[key]
  {
    if j.JObj? && key in j.members then Some(j.members[key]) else None
  }

  /** `findNode` followed by `retrieveValue` into a `std::string`. The jsonUtils source is
      not part of this model; the model takes the retrieval to succeed only on a member that
      exists and is a JSON string. */
  function RetrieveString(j: Json, key: string): (r: Option<string>)
    ensures r.Some? <==> FindNode(j, key).Some? && FindNode(j, key).value.JStr?
    ensures r.Some? ==> FindNode(j, key).value == JStr(r.value)
  {
    match FindNode(j, key)
    case Some(JStr(s)) => Some(s)
    case _ => None
  }
}
