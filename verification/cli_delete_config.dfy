/** The `delete` subcommand. */
module CliDeleteConfig {
  import opened Wrappers
  import opened Json
  import opened Http
  import opened Client

  const Context := "Failed to delete server"

  /** `delete`: one body-less DELETE to `<api_url>/servers/<id>`; success yields the reply's
      `message`, a failure status the server's `error`. */
  function Execute(apiUrl: string, id: string, send: HttpCall -> Reply): (r: Run<Value>)
    ensures r.sent == [HttpCall(Delete, apiUrl + "/servers/" + id, None)]
    ensures var reply := send(r.sent[0]);
      && (r.result.Success? <==> reply.Reply? && IsSuccess(reply.status) && reply.body.Some?)
      && (r.result.Success? ==> r.result.value == Index(reply.body.value, "message"))
      && (reply.Reply? && !IsSuccess(reply.status) && reply.body.Some? ==>
            r.result == Failure(Rejected(Context, Index(reply.body.value, "error"))))
  {
    var call := HttpCall(Delete, apiUrl + "/servers/" + id, None);
    MapRun(Exchange(call, send, Context), (result: Value) => Index(result, "message"))
  }
}
