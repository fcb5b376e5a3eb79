/** handle_delete_config: unconditional delete by key. */
module DeleteConfig {
  import opened Json
  import opened Store
  import opened Http

  const Deleted := "Server deleted successfully"
  const DeleteFailed := "Failed to delete server"

  /** handle_delete_config with the store outcome passed in. There is no existence check:
      when the store call succeeds the answer is 200 echoing the id whether or not it was
      present, the id is gone and every other key is untouched; a failed call gives 500 and
      leaves the table as it was. */
  function Handle(table: Table, serverId: string, deleteFails: bool): (out: (Response, Table))
    ensures deleteFails ==> out == (ErrorResponse(500, DeleteFailed), table)
    ensures !deleteFails ==>
      && out.0.status == 200
      && Index(out.0.body, "server_id") == JString(serverId)
      && out.1.Keys == table.Keys - {serverId}
      && (forall id | id in out.1 :: out.1[id] == table[id])
  {
    if deleteFails then (ErrorResponse(500, DeleteFailed), table)
    else (JsonResponse(200, MessageObject(Deleted, serverId)), table - {serverId})
  }

  /** Deleting twice gives the same answer and the same table as deleting once. */
  lemma DeleteIsIdempotent(table: Table, serverId: string)
    ensures var once := Handle(table, serverId, false);
            Handle(once.1, serverId, false) == once
  {
    var once := Handle(table, serverId, false);
    assert once.1 - {serverId} == once.1;
  }

  /** Deleting keeps the record invariant. */
  lemma HandlePreservesValid(table: Table, serverId: string, deleteFails: bool)
    requires Valid(table)
    ensures Valid(Handle(table, serverId, deleteFails).1)
  {
  }
}
