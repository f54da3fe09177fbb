/**
 * An already-decoded JSON document, as Gson's tree model (`JsonElement`) holds it.
 * Numbers are integers here; the descriptor format only uses integer sizes.
 */
module JsonValue {

  datatype Json =
    | JNull
    | JBool(b: bool)
    | JNumber(n: int)
    | JString(s: string)
    | JArray(items: seq<Json>)
    | JObject(members: map<string, Json>)
}
