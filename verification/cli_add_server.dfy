/** The `add` subcommand. */
module CliAddServer {
  import opened Wrappers
  import opened Json
  import opened Http
  import opened Client

  const Context := "Failed to add server"

  /** The request body: always exactly `server_name`, `config_file_path` and `description`,
      the last `null` when no description was given. */
  function Body(server: string, configPath: string, description: Option<string>): (v: Value)
    ensures v.JObject?
    ensures v.fields.Keys == {"server_name", "config_file_path", "description"}
    ensures v.fields["server_name"] == JString(server)
    ensures v.fields["config_file_path"] == JString(configPath)
    ensures description.Some? <==> v.fields["description"].JString?
    ensures description.Some? ==> v.fields["description"] == JString(description.value)
    ensures description.None? ==> v.fields["description"] == JNull
  {
    JObject(map[
      "server_name" := JString(server),
      "config_file_path" := JString(configPath),
      "description" := match description case Some(d) => JString(d) case None => JNull])
  }

  /** `add`: one POST of the body to `<api_url>/servers`; success yields the reply's
      `server_id`, a failure status the server's `error`. */
  function Execute(apiUrl: string, server: string, configPath: string, description: Option<string>,
                   send: HttpCall -> Reply): (r: Run<Value>)
    ensures r.sent == [HttpCall(Post, apiUrl + "/servers", Some(Body(server, configPath, description)))]
    ensures var reply := send(r.sent[0]);
      && (r.result.Success? <==> reply.Reply? && IsSuccess(reply.status) && reply.body.Some?)
      && (r.result.Success? ==> r.result.value == Index(reply.body.value, "server_id"))
      && (reply.Reply? && !IsSuccess(reply.status) && reply.body.Some? ==>
            r.result == Failure(Rejected(Context, Index(reply.body.value, "error"))))
  {
    var call := HttpCall(Post, apiUrl + "/servers", Some(Body(server, configPath, description)));
    MapRun(Exchange(call, send, Context), (result: Value) => Index(result, "server_id"))
  }
}
