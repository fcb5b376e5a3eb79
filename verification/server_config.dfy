/** The records of the service: the stored server configuration, the two request bodies, the
    encoding of a record as a DynamoDB map, and the serde decoding of the request bodies. */
module Models {
  import opened Wrappers
  import opened Json
  import opened Store

  /** A UTC instant, identified with its RFC 3339 rendering (`to_rfc3339`). */
  datatype Timestamp = Timestamp(rfc3339: string)

  /** A stored server configuration record. */
  datatype ServerConfig = ServerConfig(
    serverId: string,
    serverName: string,
    configFilePath: string,
    description: Option<string>,
    createdAt: Timestamp,
    updatedAt: Timestamp)

  /** The body of a create request. */
  datatype CreateServerRequest = CreateServerRequest(
    serverName: string,
    configFilePath: string,
    description: Option<string>)

  /** The body of an update request: both fields optional. */
  datatype UpdateServerRequest = UpdateServerRequest(
    configFilePath: Option<string>,
    description: Option<string>)

  /** The attributes every stored record carries. */
  const RecordKeys: set<string> := {"server_id", "server_name", "config_file_path", "created_at", "updated_at"}

  /** The attribute names of a record: the five mandatory ones, and `description` when present. */
  function KeysOf(description: Option<string>): set<string> {
    if description.Some? then RecordKeys + {"description"} else RecordKeys
  }

  /** `From<ServerConfig> for AttributeValue`: always an `M` map holding the five mandatory
      attributes as strings, plus `description` exactly when the record has one. */
  function ToAttributeValue(c: ServerConfig): (v: AttrValue)
    ensures v.M?
    ensures v.fields.Keys == KeysOf(c.description)
    ensures |v.fields| == if c.description.Some? then 6 else 5
    ensures v.fields["server_id"] == S(c.serverId)
    ensures v.fields["server_name"] == S(c.serverName)
    ensures v.fields["config_file_path"] == S(c.configFilePath)
    ensures v.fields["created_at"] == S(c.createdAt.rfc3339)
    ensures v.fields["updated_at"] == S(c.updatedAt.rfc3339)
    ensures c.description.Some? ==> v.fields["description"] == S(c.description.value)
  {
    var item := map[
      "server_id" := S(c.serverId),
      "server_name" := S(c.serverName),
      "config_file_path" := S(c.configFilePath),
      "created_at" := S(c.createdAt.rfc3339),
      "updated_at" := S(c.updatedAt.rfc3339)];
    assert |item.Keys| == 5;
    match c.description
    case Some(desc) =>
      assert "description" !in item;
      M(item["description" := S(desc)])
    case None => M(item)
  }

  /** The string stored under `key`, if any. */
  function StringAttr(item: Item, key: string): Option<string> {
    if key in item && item[key].S? then Some(item[key].s) else None
  }

  /** Reads a record back from its map encoding: the reference inverse of `ToAttributeValue`. */
  function FromAttributeValue(v: AttrValue): Option<ServerConfig> {
    if !v.M? then None
    else
      var f := v.fields;
      match (StringAttr(f, "server_id"), StringAttr(f, "server_name"), StringAttr(f, "config_file_path"),
             StringAttr(f, "created_at"), StringAttr(f, "updated_at"))
      case (Some(id), Some(name), Some(path), Some(created), Some(updated)) =>
        Some(ServerConfig(id, name, path, StringAttr(f, "description"), Timestamp(created), Timestamp(updated)))
      case _ => None
  }

  /** Encoding a record loses nothing: reading it back gives the same record. */
  lemma EncodingRoundTrip(c: ServerConfig)
    ensures FromAttributeValue(ToAttributeValue(c)) == Some(c)
  {
    var f := ToAttributeValue(c).fields;
    assert StringAttr(f, "description") == c.description;
  }

  /** `serde_json::from_value::<CreateServerRequest>` on the object form. Decoding succeeds
      exactly when both names are strings and the description is absent, null or a string;
      unknown members are ignored. */
  function DecodeCreate(v: Value): (r: Option<CreateServerRequest>)
    ensures r.Some? <==>
      && v.JObject?
      && RequiredString(v.fields, "server_name").Some?
      && RequiredString(v.fields, "config_file_path").Some?
      && OptionalString(v.fields, "description").Some?
    ensures r.Some? ==>
      && JString(r.value.serverName) == v.fields["server_name"]
      && JString(r.value.configFilePath) == v.fields["config_file_path"]
      && (r.value.description.Some? <==> "description" in v.fields && v.fields["description"].JString?)
      && (r.value.description.Some? ==> JString(r.value.description.value) == v.fields["description"])
  {
    if !v.JObject? then None
    else
      match (RequiredString(v.fields, "server_name"), RequiredString(v.fields, "config_file_path"),
             OptionalString(v.fields, "description"))
      case (Some(name), Some(path), Some(desc)) => Some(CreateServerRequest(name, path, desc))
      case _ => None
  }

  /** `serde_json::from_value::<UpdateServerRequest>` on the object form. Both fields are
      optional, so any object whose two members are absent, null or strings decodes. */
  function DecodeUpdate(v: Value): (r: Option<UpdateServerRequest>)
    ensures r.Some? <==>
      && v.JObject?
      && OptionalString(v.fields, "config_file_path").Some?
      && OptionalString(v.fields, "description").Some?
    ensures r.Some? ==>
      && (r.value.configFilePath.Some? <==> "config_file_path" in v.fields && v.fields["config_file_path"].JString?)
      && (r.value.configFilePath.Some? ==> JString(r.value.configFilePath.value) == v.fields["config_file_path"])
      && (r.value.description.Some? <==> "description" in v.fields && v.fields["description"].JString?)
      && (r.value.description.Some? ==> JString(r.value.description.value) == v.fields["description"])
  {
    if !v.JObject? then None
    else
      match (OptionalString(v.fields, "config_file_path"), OptionalString(v.fields, "description"))
      case (Some(path), Some(desc)) => Some(UpdateServerRequest(path, desc))
      case _ => None
  }

  /** An object with neither field is a valid update request that asks for no field change. */
  lemma EmptyObjectIsUpdateRequest()
    ensures DecodeUpdate(JObject(map[])) == Some(UpdateServerRequest(None, None))
  {
  }
}
