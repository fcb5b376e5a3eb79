/** handle_add_server: create a record under a freshly generated id. */
module AddServer {
  import opened Wrappers
  import opened Json
  import opened Store
  import opened Models
  import opened Http

  const Added := "Server added successfully"
  const AddFailed := "Failed to add server"

  /** The item the handler puts: the generated id, the requested name and path, both
      timestamps from the same instant, and a description exactly when one was supplied. */
  function NewItem(req: CreateServerRequest, id: string, now: Timestamp): (item: Item)
    ensures item.Keys == KeysOf(req.description)
    ensures item["server_id"] == S(id)
    ensures item["server_name"] == S(req.serverName)
    ensures item["config_file_path"] == S(req.configFilePath)
    ensures item["created_at"] == item["updated_at"] == S(now.rfc3339)
    ensures req.description.Some? ==> item["description"] == S(req.description.value)
  {
    var item := map[
      "server_id" := S(id),
      "server_name" := S(req.serverName),
      "config_file_path" := S(req.configFilePath),
      "created_at" := S(now.rfc3339),
      "updated_at" := S(now.rfc3339)];
    if req.description.Some? then item["description" := S(req.description.value)] else item
  }

  /** The item put by the handler is the map encoding of the record it creates. */
  lemma NewItemIsEncodedRecord(req: CreateServerRequest, id: string, now: Timestamp)
    ensures M(NewItem(req, id, now))
         == ToAttributeValue(ServerConfig(id, req.serverName, req.configFilePath, req.description, now, now))
  {
  }

  /** handle_add_server on `table`, with the generated id, the current instant and the
      outcome of the put passed in. A bad body is answered with 400 and a failed put with
      500, both leaving the table as it was; otherwise the new item is stored under the new
      id, no other key changes, and the 201 response names that id. */
  function Handle(table: Table, body: Body, newId: string, now: Timestamp, putFails: bool): (out: (Response, Table))
    ensures ReadJsonBody(body, DecodeCreate).Failure? ==>
      out == (ReadJsonBody(body, DecodeCreate).error, table) && out.0.status == 400
    ensures ReadJsonBody(body, DecodeCreate).Success? && putFails ==>
      out == (ErrorResponse(500, AddFailed), table)
    ensures ReadJsonBody(body, DecodeCreate).Success? && !putFails ==>
      var req := ReadJsonBody(body, DecodeCreate).value;
      && out.0 == JsonResponse(201, MessageObject(Added, newId))
      && Index(out.0.body, "server_id") == JString(newId)
      && out.1.Keys == table.Keys + {newId}
      && out.1[newId] == NewItem(req, newId, now)
      && (forall id | id in table && id != newId :: out.1[id] == table[id])
  {
    match ReadJsonBody(body, DecodeCreate)
    case Failure(resp) => (resp, table)
    case Success(req) =>
      var item := NewItem(req, newId, now);
      if putFails then (ErrorResponse(500, AddFailed), table)
      else (JsonResponse(201, MessageObject(Added, newId)), table[newId := item])
  }

  /** Adding keeps the record invariant. */
  lemma HandlePreservesValid(table: Table, body: Body, newId: string, now: Timestamp, putFails: bool)
    requires Valid(table)
    ensures Valid(Handle(table, body, newId, now, putFails).1)
  {
  }

  /** With a fresh id, a successful add grows the table by exactly one record. */
  lemma FreshAddGrowsTable(table: Table, body: Body, newId: string, now: Timestamp)
    requires newId !in table
    requires ReadJsonBody(body, DecodeCreate).Success?
    ensures |Handle(table, body, newId, now, false).1| == |table| + 1
  {
    var t1 := Handle(table, body, newId, now, false).1;
    assert t1.Keys == table.Keys + {newId};
    assert |t1.Keys| == |table.Keys| + 1;
  }
}
