/** What every CLI subcommand shares: the HTTP call it makes, the reply it gets, its errors,
    and the reading of a reply. */
module Client {
  import opened Wrappers
  import opened Json
  import Http

  /** One HTTP request the CLI sends. */
  datatype HttpCall = HttpCall(verb: Http.Method, url: string, body: Option<Value>)

  /** What sending gave back: no response at all, or a status with a body that did or did
      not parse as JSON. */
  datatype Reply = NoReply | Reply(status: int, body: Option<Value>)

  /** Why a CLI invocation fails. */
  datatype CliError =
    | RequestFailed
    | ReplyNotJson
    | NoUpdates
    | Rejected(context: string, serverError: Value)
    | ConfigUnreadable
    | ConfigInvalid

  /** The result of an invocation together with the requests it sent, in order. */
  datatype Run<T> = Run(result: Result<T, CliError>, sent: seq<HttpCall>)

  /** `StatusCode::is_success`: a 2xx status. */
  predicate IsSuccess(status: int) {
    200 <= status <= 299
  }

  /** Sends `call` once and reads the reply the way every subcommand does: a success status
      with a JSON body gives that body; a failure status with a JSON body gives an error
      carrying the body's `error` member after `context`; a missing reply or a body that is
      not JSON is an error of its own. */
  function Exchange(call: HttpCall, send: HttpCall -> Reply, context: string): (r: Run<Value>)
    ensures r.sent == [call]
    ensures r.result.Success? <==> send(call).Reply? && IsSuccess(send(call).status) && send(call).body.Some?
    ensures r.result.Success? ==> r.result.value == send(call).body.value
    ensures send(call).NoReply? ==> r.result == Failure(RequestFailed)
    ensures send(call).Reply? && send(call).body.None? ==> r.result == Failure(ReplyNotJson)
    ensures send(call).Reply? && !IsSuccess(send(call).status) && send(call).body.Some? ==>
      r.result == Failure(Rejected(context, Index(send(call).body.value, "error")))
  {
    var result :=
      match send(call)
      case NoReply => Failure(RequestFailed)
      case Reply(status, body) =>
        if body.None? then Failure(ReplyNotJson)
        else if IsSuccess(status) then Success(body.value)
        else Failure(Rejected(context, Index(body.value, "error")));
    Run(result, [call])
  }

  /** Transforms the value of a successful run, keeping its error and its requests. */
  function MapRun<T, U>(r: Run<T>, f: T -> U): Run<U> {
    match r.result
    case Success(v) => Run(Success(f(v)), r.sent)
    case Failure(e) => Run(Failure(e), r.sent)
  }
}
