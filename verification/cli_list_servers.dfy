/** The `list` subcommand. */
module CliListServers {
  import opened Wrappers
  import opened Json
  import opened Http
  import opened Client

  const Context := "Failed to list servers"
  const Missing := "N/A"

  /** One table row. */
  datatype ServerRow = ServerRow(id: string, name: string, configPath: string, description: string, createdAt: string)

  /** What `list` shows: the "No servers configured." message, or a table with its total. */
  datatype Listing = NoServers | Table(rows: seq<ServerRow>, total: nat)

  /** The string under `key` in `server`, or `default` when it is missing or not a string. */
  function StrOr(server: Value, key: string, default: string): string {
    AsStr(Index(server, key)).GetOr(default)
  }

  /** The row for one listed server: each column is the string the server holds under its
      key; a missing or non-string `description` shows as "" and any other missing or
      non-string column as "N/A". */
  function RowOf(server: Value): (row: ServerRow)
    ensures Index(server, "server_id").JString? ==> row.id == Index(server, "server_id").s
    ensures !Index(server, "server_id").JString? ==> row.id == Missing
    ensures Index(server, "server_name").JString? ==> row.name == Index(server, "server_name").s
    ensures !Index(server, "server_name").JString? ==> row.name == Missing
    ensures Index(server, "config_file_path").JString? ==> row.configPath == Index(server, "config_file_path").s
    ensures !Index(server, "config_file_path").JString? ==> row.configPath == Missing
    ensures Index(server, "description").JString? ==> row.description == Index(server, "description").s
    ensures !Index(server, "description").JString? ==> row.description == ""
    ensures Index(server, "created_at").JString? ==> row.createdAt == Index(server, "created_at").s
    ensures !Index(server, "created_at").JString? ==> row.createdAt == Missing
  {
    ServerRow(
      StrOr(server, "server_id", Missing),
      StrOr(server, "server_name", Missing),
      StrOr(server, "config_file_path", Missing),
      StrOr(server, "description", ""),
      StrOr(server, "created_at", Missing))
  }

  /** The rows, pushed one per server: exactly one row per server, in response order. */
  function Rows(servers: seq<Value>): (rows: seq<ServerRow>)
    ensures |rows| == |servers|
    ensures forall i | 0 <= i < |servers| :: rows[i] == RowOf(servers[i])
  {
    if |servers| == 0 then [] else [RowOf(servers[0])] + Rows(servers[1..])
  }

  /** What `list` shows for a successful reply: no table when `servers` is missing, not an
      array, or empty; otherwise one row per server and a total equal to their number. */
  function Render(result: Value): (l: Listing)
    ensures l.NoServers? <==> AsArray(Index(result, "servers")).None? || |Index(result, "servers").items| == 0
    ensures l.Table? ==>
      && l.rows == Rows(Index(result, "servers").items)
      && l.total == |l.rows| == |Index(result, "servers").items|
      && l.total > 0
  {
    match AsArray(Index(result, "servers"))
    case None => NoServers
    case Some(servers) =>
      if |servers| == 0 then NoServers
      else Table(Rows(servers), |servers|)
  }

  /** `list`: one body-less GET of `<api_url>/servers`; success yields the listing, a failure
      status the server's `error`. */
  function Execute(apiUrl: string, send: HttpCall -> Reply): (r: Run<Listing>)
    ensures r.sent == [HttpCall(Get, apiUrl + "/servers", None)]
    ensures var reply := send(r.sent[0]);
      && (r.result.Success? <==> reply.Reply? && IsSuccess(reply.status) && reply.body.Some?)
      && (r.result.Success? ==> r.result.value == Render(reply.body.value))
      && (reply.Reply? && !IsSuccess(reply.status) && reply.body.Some? ==>
            r.result == Failure(Rejected(Context, Index(reply.body.value, "error"))))
  {
    var call := HttpCall(Get, apiUrl + "/servers", None);
    MapRun(Exchange(call, send, Context), Render)
  }
}
