/** JSON documents as the framework sees them after decoding: tool arguments,
    tool outputs and JSON Schemas. Object members have no order. */
module JsonValue {
  datatype Json =
    | Null
    | Bool(flag: bool)
    | Number(num: real)
    | String(text: string)
    | Array(items: seq<Json>)
    | Object(fields: map<string, Json>)
}
