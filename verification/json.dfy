/** The JSON values exchanged between the CLI and the service (serde_json's `Value`). The JSON
    text grammar is not modelled: a body is represented by the value it parses to. */
module Json {
  import opened Wrappers

  datatype Value =
    | JNull
    | JBool(b: bool)
    | JNum(n: int)
    | JString(s: string)
    | JArray(items: seq<Value>)
    | JObject(fields: map<string, Value>)

  /** `value[key]`: the member under `key`, or `null` when `v` is not an object or lacks the key. */
  function Index(v: Value, key: string): Value {
    if v.JObject? && key in v.fields then v.fields[key] else JNull
  }

  /** `value.as_str()`. */
  function AsStr(v: Value): Option<string> {
    if v.JString? then Some(v.s) else None
  }

  /** `value.as_array()`. */
  function AsArray(v: Value): Option<seq<Value>> {
    if v.JArray? then Some(v.items) else None
  }

  /** `json!({"error": msg})`, the body of every failure response of the service. */
  function ErrorObject(msg: string): Value {
    JObject(map["error" := JString(msg)])
  }

  /** `json!({"message": msg, "server_id": id})`, the body of every success response that names a record. */
  function MessageObject(msg: string, id: string): Value {
    JObject(map["message" := JString(msg), "server_id" := JString(id)])
  }

  /** serde's decoding of a required `String` field. */
  function RequiredString(f: map<string, Value>, key: string): Option<string> {
    if key in f && f[key].JString? then Some(f[key].s) else None
  }

  /** serde's decoding of an `Option<String>` field: a missing field or `null` is `None`, a
      string is `Some`, anything else fails (the outer `None`). */
  function OptionalString(f: map<string, Value>, key: string): Option<Option<string>> {
    if key !in f || f[key].JNull? then Some(None)
    else if f[key].JString? then Some(Some(f[key].s))
    else None
  }
}
