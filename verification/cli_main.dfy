/** The CLI entry point: resolution of the service URL and dispatch of the subcommand. */
module CliMain {
  import opened Wrappers
  import opened Json
  import opened Client
  import Http
  import CliConfig
  import CliAddServer
  import CliUpdateConfig
  import CliDeleteConfig
  import CliListServers

  /** The subcommands with their arguments. */
  datatype Command =
    | Add(server: string, configPath: string, description: Option<string>)
    | Update(id: string, newConfigPath: Option<string>, newDescription: Option<string>)
    | Delete(id: string)
    | List

  /** A parsed command line: the subcommand, `--api-url` and `--config`. */
  datatype Cli = Cli(command: Command, apiUrl: Option<string>, config: Option<string>)

  /** What a successful invocation shows. */
  datatype Output =
    | ServerAdded(serverId: Value)
    | ServerUpdated(message: Value)
    | ServerDeleted(message: Value)
    | Listed(listing: CliListServers.Listing)

  const DefaultApiUrl := "https://api.example.com"

  /** The service URL: the flag wins, then the configuration's URL, then the placeholder. */
  function ApiUrl(flag: Option<string>, config: CliConfig.AppConfig): (url: string)
    ensures flag.Some? ==> url == flag.value
    ensures flag.None? && config.apiUrl.Some? ==> url == config.apiUrl.value
    ensures flag.None? && config.apiUrl.None? ==> url == DefaultApiUrl
  {
    flag.Or(config.apiUrl).GetOr(DefaultApiUrl)
  }

  /** The dispatch of a subcommand to its executor, with its arguments unchanged and the
      resolved URL: at most one request is sent, built from the subcommand's own arguments;
      the invocation succeeds exactly when that request got a 2xx reply with a JSON body,
      and then shows what the subcommand reads from that body; a failure status with a JSON
      body is reported with the body's `error` member. */
  function RunCommand(command: Command, url: string, send: HttpCall -> Reply): (r: Run<Output>)
    ensures |r.sent| <= 1
    ensures r.result.Success? <==>
      |r.sent| == 1 && send(r.sent[0]).Reply? && IsSuccess(send(r.sent[0]).status) && send(r.sent[0]).body.Some?
    ensures command.Add? ==>
      r.sent == [HttpCall(Http.Post, url + "/servers", Some(CliAddServer.Body(command.server, command.configPath, command.description)))]
    ensures command.Update? && command.newConfigPath.None? && command.newDescription.None? ==>
      r == Run(Failure(NoUpdates), [])
    ensures command.Update? && (command.newConfigPath.Some? || command.newDescription.Some?) ==>
      r.sent == [HttpCall(Http.Put, url + "/servers/" + command.id,
                          Some(CliUpdateConfig.Body(command.newConfigPath, command.newDescription).value))]
    ensures command.Delete? ==> r.sent == [HttpCall(Http.Delete, url + "/servers/" + command.id, None)]
    ensures command.List? ==> r.sent == [HttpCall(Http.Get, url + "/servers", None)]
    ensures r.result.Success? ==>
      var body := send(r.sent[0]).body.value;
      && (command.Add? ==> r.result.value == ServerAdded(Index(body, "server_id")))
      && (command.Update? ==> r.result.value == ServerUpdated(Index(body, "message")))
      && (command.Delete? ==> r.result.value == ServerDeleted(Index(body, "message")))
      && (command.List? ==> r.result.value == Listed(CliListServers.Render(body)))
    ensures |r.sent| == 1 && send(r.sent[0]).Reply? && !IsSuccess(send(r.sent[0]).status) && send(r.sent[0]).body.Some? ==>
      r.result.Failure? && r.result.error.Rejected? &&
      r.result.error.serverError == Index(send(r.sent[0]).body.value, "error")
  {
    match command
    case Add(server, path, description) =>
      MapRun(CliAddServer.Execute(url, server, path, description, send), (v: Value) => ServerAdded(v))
    case Update(id, path, description) =>
      MapRun(CliUpdateConfig.Execute(url, id, path, description, send), (v: Value) => ServerUpdated(v))
    case Delete(id) =>
      MapRun(CliDeleteConfig.Execute(url, id, send), (v: Value) => ServerDeleted(v))
    case List =>
      MapRun(CliListServers.Execute(url, send), (l: CliListServers.Listing) => Listed(l))
  }

  /** `main`: a configuration that does not load ends the invocation with its error before
      any request; otherwise every request goes to the URL given by `--api-url`, else to the
      loaded configuration's `api_url`, else to the placeholder, and only an update with
      nothing to change sends none. */
  function Main(cli: Cli, fs: CliConfig.FileSystem, send: HttpCall -> Reply): (r: Run<Output>)
    ensures |r.sent| <= 1
    ensures CliConfig.LoadConfig(cli.config, fs).Failure? ==>
      r.sent == [] && r.result == Failure(CliConfig.LoadConfig(cli.config, fs).error)
    ensures CliConfig.LoadConfig(cli.config, fs).Success? && |r.sent| == 1 ==>
      var loaded := CliConfig.LoadConfig(cli.config, fs).value;
      var target := r.sent[0].url;
      && (cli.apiUrl.Some? ==> cli.apiUrl.value <= target)
      && (cli.apiUrl.None? && loaded.apiUrl.Some? ==> loaded.apiUrl.value <= target)
      && (cli.apiUrl.None? && loaded.apiUrl.None? ==> DefaultApiUrl <= target)
    ensures CliConfig.LoadConfig(cli.config, fs).Success? ==>
      (r.sent == [] <==> cli.command.Update? && cli.command.newConfigPath.None? && cli.command.newDescription.None?)
    ensures r.result.Success? <==>
      |r.sent| == 1 && send(r.sent[0]).Reply? && IsSuccess(send(r.sent[0]).status) && send(r.sent[0]).body.Some?
  {
    match CliConfig.LoadConfig(cli.config, fs)
    case Failure(e) => Run(Failure(e), [])
    case Success(config) => RunCommand(cli.command, ApiUrl(cli.apiUrl, config), send)
  }

  /** With `--api-url` given, what the configuration file says does not matter once it
      loads: two file systems whose configurations both load lead to the same invocation. */
  lemma FlagOverridesConfiguration(cli: Cli, fs1: CliConfig.FileSystem, fs2: CliConfig.FileSystem, send: HttpCall -> Reply)
    requires cli.apiUrl.Some?
    requires CliConfig.LoadConfig(cli.config, fs1).Success? && CliConfig.LoadConfig(cli.config, fs2).Success?
    ensures Main(cli, fs1, send) == Main(cli, fs2, send)
  {
  }

  /** A configuration file that sets only `api_url` stops every subcommand before it sends
      anything, because the file's struct requires `servers`. */
  lemma FileWithoutServersStopsCli(command: Command, path: string, fs: CliConfig.FileSystem, send: HttpCall -> Reply)
    requires fs.read(path) == CliConfig.Yaml(JObject(map["api_url" := JString(CliConfig.SampleUrl)]))
    ensures Main(Cli(command, None, Some(path)), fs, send) == Run(Failure(ConfigInvalid), [])
  {
  }
}
