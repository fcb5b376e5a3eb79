/** The `update` subcommand. */
module CliUpdateConfig {
  import opened Wrappers
  import opened Json
  import opened Http
  import opened Client

  const Context := "Failed to update server"

  /** The request body holds only the fields given: `config_file_path` exactly when a path
      was given and `description` exactly when a description was, and nothing else. With
      neither the update is rejected before anything is sent. */
  function Body(configPath: Option<string>, description: Option<string>): (r: Result<Value, CliError>)
    ensures r.Failure? <==> configPath.None? && description.None?
    ensures r.Failure? ==> r.error == NoUpdates
    ensures r.Success? ==>
      && r.value.JObject?
      && r.value.fields.Keys <= {"config_file_path", "description"}
      && ("config_file_path" in r.value.fields <==> configPath.Some?)
      && ("description" in r.value.fields <==> description.Some?)
      && (configPath.Some? ==> r.value.fields["config_file_path"] == JString(configPath.value))
      && (description.Some? ==> r.value.fields["description"] == JString(description.value))
  {
    var f0: map<string, Value> := map[];
    var f1 := if configPath.Some? then f0["config_file_path" := JString(configPath.value)] else f0;
    var f2 := if description.Some? then f1["description" := JString(description.value)] else f1;
    if |f2| == 0 then Failure(NoUpdates) else Success(JObject(f2))
  }

  /** `update`: rejected without a request when no field is given; otherwise one PUT of the
      body to `<api_url>/servers/<id>`, success yielding the reply's `message` and a failure
      status the server's `error`. */
  function Execute(apiUrl: string, id: string, configPath: Option<string>, description: Option<string>,
                   send: HttpCall -> Reply): (r: Run<Value>)
    ensures configPath.None? && description.None? ==> r == Run(Failure(NoUpdates), [])
    ensures configPath.Some? || description.Some? ==>
      && r.sent == [HttpCall(Put, apiUrl + "/servers/" + id, Some(Body(configPath, description).value))]
      && var reply := send(r.sent[0]);
      && (r.result.Success? <==> reply.Reply? && IsSuccess(reply.status) && reply.body.Some?)
      && (r.result.Success? ==> r.result.value == Index(reply.body.value, "message"))
      && (reply.Reply? && !IsSuccess(reply.status) && reply.body.Some? ==>
            r.result == Failure(Rejected(Context, Index(reply.body.value, "error"))))
  {
    match Body(configPath, description)
    case Failure(e) => Run(Failure(e), [])
    case Success(body) =>
      var call := HttpCall(Put, apiUrl + "/servers/" + id, Some(body));
      MapRun(Exchange(call, send, Context), (result: Value) => Index(result, "message"))
  }
}
