/** The CLI's configuration: the default, discovery of a configuration file among fixed
    candidate paths, and the reading of that file. A YAML document is represented by the
    same tree of values as a JSON one; the YAML grammar itself is not modelled. */
module CliConfig {
  import opened Wrappers
  import opened Json
  import opened Client

  /** Rust's `u64`. */
  newtype U64 = x: int | 0 <= x < 0x1_0000_0000_0000_0000

  datatype AppConfig = AppConfig(apiUrl: Option<string>, defaultTimeoutSeconds: Option<U64>, defaultRegion: Option<string>)

  /** One pre-declared server of a configuration file; no command reads these. */
  datatype ServerEntry = ServerEntry(name: string, configFilePath: string, description: Option<string>)

  /** The contents of a configuration file. */
  datatype ConfigFile = ConfigFile(servers: seq<ServerEntry>, apiUrl: Option<string>, timeoutSeconds: Option<U64>, region: Option<string>)

  /** What reading a path gives: an I/O error, text that is not YAML, or a YAML document. */
  datatype FileContent = Unreadable | NotYaml | Yaml(doc: Value)

  /** The part of the machine the CLI looks at: the home directory if one is known, which
      paths exist, and what reading a path gives. */
  datatype FileSystem = FileSystem(home: Option<string>, pathExists: string -> bool, read: string -> FileContent)

  /** `AppConfig::default()`. */
  const DefaultConfig := AppConfig(None, Some(30), Some("us-east-1"))

  lemma DefaultValues()
    ensures DefaultConfig.apiUrl.None?
    ensures DefaultConfig.defaultTimeoutSeconds == Some(30)
    ensures DefaultConfig.defaultRegion == Some("us-east-1")
  {
  }

  /** serde's decoding of an `Option<u64>` field: missing or `null` is `None`, an integer in
      range is `Some`, anything else fails (the outer `None`). */
  function OptionalU64(f: map<string, Value>, key: string): (r: Option<Option<U64>>)
    ensures r == Some(None) <==> key !in f || f[key].JNull?
    ensures (exists n: U64 :: r == Some(Some(n))) <==> key in f && f[key].JNum? && 0 <= f[key].n < 0x1_0000_0000_0000_0000
    ensures r.Some? && r.value.Some? ==> f[key] == JNum(r.value.value as int)
  {
    if key !in f || f[key].JNull? then Some(None)
    else if f[key].JNum? && 0 <= f[key].n < 0x1_0000_0000_0000_0000 then Some(Some(f[key].n as U64))
    else None
  }

  /** One entry of `servers`: a mapping with string `name` and `config_file_path` and an
      optional string `description`. */
  function DecodeEntry(v: Value): (r: Option<ServerEntry>)
    ensures r.Some? <==>
      && v.JObject?
      && "name" in v.fields && v.fields["name"].JString?
      && "config_file_path" in v.fields && v.fields["config_file_path"].JString?
      && ("description" in v.fields ==> v.fields["description"].JNull? || v.fields["description"].JString?)
    ensures r.Some? ==>
      && r.value.name == v.fields["name"].s
      && r.value.configFilePath == v.fields["config_file_path"].s
      && (r.value.description.Some? <==> "description" in v.fields && v.fields["description"].JString?)
      && (r.value.description.Some? ==> r.value.description.value == v.fields["description"].s)
  {
    if !v.JObject? then None
    else match (RequiredString(v.fields, "name"), RequiredString(v.fields, "config_file_path"), OptionalString(v.fields, "description"))
      case (Some(name), Some(path), Some(description)) => Some(ServerEntry(name, path, description))
      case _ => None
  }

  /** A `Vec<ServerConfig>`: every element must decode, and the entries keep their order. */
  function DecodeEntries(vs: seq<Value>): (r: Option<seq<ServerEntry>>)
    ensures r.Some? <==> forall i | 0 <= i < |vs| :: DecodeEntry(vs[i]).Some?
    ensures r.Some? ==> |r.value| == |vs| && forall i | 0 <= i < |vs| :: r.value[i] == DecodeEntry(vs[i]).value
  {
    if |vs| == 0 then Some([])
    else match (DecodeEntry(vs[0]), DecodeEntries(vs[1..]))
      case (Some(e), Some(rest)) => Some([e] + rest)
      case _ => None
  }

  /** The scalar fields of a configuration document all have the types the file declares. */
  predicate ScalarsWellTyped(f: map<string, Value>) {
    OptionalString(f, "api_url").Some? && OptionalU64(f, "timeout_seconds").Some? && OptionalString(f, "region").Some?
  }

  /** The `servers` value, when present, is a list of well-formed entries. */
  predicate ServersWellTyped(f: map<string, Value>) {
    "servers" in f ==> f["servers"].JArray? && DecodeEntries(f["servers"].items).Some?
  }

  /** The file's scalar fields, once they are known to be well typed. */
  function WithScalars(f: map<string, Value>, servers: seq<ServerEntry>): ConfigFile
    requires ScalarsWellTyped(f)
  {
    ConfigFile(servers, OptionalString(f, "api_url").value, OptionalU64(f, "timeout_seconds").value, OptionalString(f, "region").value)
  }

  /** Decoding of a configuration document as the file's struct declares it: `servers` has
      no default, so a document without it fails. */
  function DecodeConfigFileAsWritten(v: Value): (r: Option<ConfigFile>)
    ensures r.Some? <==> v.JObject? && "servers" in v.fields && ServersWellTyped(v.fields) && ScalarsWellTyped(v.fields)
    ensures r.Some? ==>
      && r.value.apiUrl == OptionalString(v.fields, "api_url").value
      && r.value.timeoutSeconds == OptionalU64(v.fields, "timeout_seconds").value
      && r.value.region == OptionalString(v.fields, "region").value
      && r.value.servers == DecodeEntries(v.fields["servers"].items).value
  {
    if !v.JObject? || "servers" !in v.fields || !v.fields["servers"].JArray? || !ScalarsWellTyped(v.fields) then None
    else match DecodeEntries(v.fields["servers"].items)
      case None => None
      case Some(servers) => Some(WithScalars(v.fields, servers))
  }

  /** Decoding of a configuration document with the server list optional: a missing
      `servers` is the empty list. */
  function DecodeConfigFile(v: Value): (r: Option<ConfigFile>)
    ensures r.Some? <==> v.JObject? && ServersWellTyped(v.fields) && ScalarsWellTyped(v.fields)
    ensures r.Some? ==>
      && r.value.apiUrl == OptionalString(v.fields, "api_url").value
      && r.value.timeoutSeconds == OptionalU64(v.fields, "timeout_seconds").value
      && r.value.region == OptionalString(v.fields, "region").value
      && ("servers" !in v.fields ==> r.value.servers == [])
      && ("servers" in v.fields ==> r.value.servers == DecodeEntries(v.fields["servers"].items).value)
  {
    if !v.JObject? || !ScalarsWellTyped(v.fields) then None
    else if "servers" !in v.fields then Some(WithScalars(v.fields, []))
    else if !v.fields["servers"].JArray? then None
    else match DecodeEntries(v.fields["servers"].items)
      case None => None
      case Some(servers) => Some(WithScalars(v.fields, servers))
  }

  /** The corrected decoder accepts every document the declared one accepts, with the same
      result, and exactly the further documents that lack `servers`. */
  lemma CorrectedDecoderExtendsDeclared(v: Value)
    ensures DecodeConfigFileAsWritten(v).Some? ==> DecodeConfigFile(v) == DecodeConfigFileAsWritten(v)
    ensures DecodeConfigFile(v).Some? && DecodeConfigFileAsWritten(v).None? <==>
      v.JObject? && "servers" !in v.fields && ScalarsWellTyped(v.fields)
  {
  }

  const SampleUrl := "https://homelab.internal"

  /** A file holding only an `api_url`: the declared decoder rejects it, the corrected one
      reads it with no servers. */
  lemma FileWithoutServersIsRejected()
    ensures var doc := JObject(map["api_url" := JString(SampleUrl)]);
      && DecodeConfigFileAsWritten(doc).None?
      && DecodeConfigFile(doc) == Some(ConfigFile([], Some(SampleUrl), None, None))
  {
    var doc := JObject(map["api_url" := JString(SampleUrl)]);
    assert "servers" !in doc.fields;
    assert OptionalString(doc.fields, "api_url") == Some(Some(SampleUrl));
  }

  /** Reads `path` and decodes it with `decode`, keeping the URL, timeout and region. */
  function ReadConfig(path: string, fs: FileSystem, decode: Value -> Option<ConfigFile>): Result<AppConfig, CliError> {
    match fs.read(path)
    case Unreadable => Failure(ConfigUnreadable)
    case NotYaml => Failure(ConfigInvalid)
    case Yaml(doc) =>
      match decode(doc)
      case None => Failure(ConfigInvalid)
      case Some(file) => Success(AppConfig(file.apiUrl, file.timeoutSeconds, file.region))
  }

  /** `load_config_from_file` as written: an unreadable path is an error, and so is a
      document the declared struct rejects, one without `servers` included; otherwise
      `api_url`, `timeout_seconds` and `region` become the configuration's URL, default
      timeout and default region. */
  function LoadFromFile(path: string, fs: FileSystem): (r: Result<AppConfig, CliError>)
    ensures fs.read(path).Unreadable? ==> r == Failure(ConfigUnreadable)
    ensures r.Success? <==> fs.read(path).Yaml? && DecodeConfigFileAsWritten(fs.read(path).doc).Some?
    ensures fs.read(path).Yaml? && fs.read(path).doc.JObject? && "servers" !in fs.read(path).doc.fields ==>
      r == Failure(ConfigInvalid)
    ensures r.Success? ==>
      var f := fs.read(path).doc.fields;
      && r.value.apiUrl == OptionalString(f, "api_url").value
      && r.value.defaultTimeoutSeconds == OptionalU64(f, "timeout_seconds").value
      && r.value.defaultRegion == OptionalString(f, "region").value
  {
    ReadConfig(path, fs, DecodeConfigFileAsWritten)
  }

  /** `load_config_from_file` with the server list optional: as above, except that a
      document without `servers` loads. */
  function LoadFromFileCorrected(path: string, fs: FileSystem): (r: Result<AppConfig, CliError>)
    ensures fs.read(path).Unreadable? ==> r == Failure(ConfigUnreadable)
    ensures r.Success? <==> fs.read(path).Yaml? && DecodeConfigFile(fs.read(path).doc).Some?
    ensures r.Success? ==>
      var f := fs.read(path).doc.fields;
      && r.value.apiUrl == OptionalString(f, "api_url").value
      && r.value.defaultTimeoutSeconds == OptionalU64(f, "timeout_seconds").value
      && r.value.defaultRegion == OptionalString(f, "region").value
  {
    ReadConfig(path, fs, DecodeConfigFile)
  }

  /** The corrected loader gives the same configuration wherever the one as written
      succeeds, and succeeds in addition exactly on readable mappings without `servers`
      whose other fields are well typed. */
  lemma CorrectedLoaderExtendsDeclared(path: string, fs: FileSystem)
    ensures LoadFromFile(path, fs).Success? ==> LoadFromFileCorrected(path, fs) == LoadFromFile(path, fs)
    ensures LoadFromFileCorrected(path, fs).Success? && LoadFromFile(path, fs).Failure? <==>
      && fs.read(path).Yaml?
      && fs.read(path).doc.JObject?
      && "servers" !in fs.read(path).doc.fields
      && ScalarsWellTyped(fs.read(path).doc.fields)
  {
    if fs.read(path).Yaml? {
      CorrectedDecoderExtendsDeclared(fs.read(path).doc);
    }
  }

  /** `PathBuf::join` of a relative path onto a directory. */
  function JoinPath(dir: string, rel: string): (p: string)
    ensures |p| - |dir| - |rel| == (if |dir| == 0 || dir[|dir| - 1] == '/' then 0 else 1)
    ensures dir <= p && p[|p| - |rel|..] == rel
    ensures |p| > |dir| + |rel| ==> p[|dir|] == '/'
  {
    if |dir| == 0 then rel
    else if dir[|dir| - 1] == '/' then dir + rel
    else dir + "/" + rel
  }

  /** The discovery candidates, in the order they are tried. */
  function Candidates(home: string): (c: seq<string>)
    ensures |c| == 3
    ensures home <= c[0] && home <= c[1]
    ensures c[0] == JoinPath(home, ".config/homelab/config.yaml")
    ensures c[1] == JoinPath(home, ".homelab.yaml")
    ensures c[2] == "./homelab.yaml"
  {
    [JoinPath(home, ".config/homelab/config.yaml"), JoinPath(home, ".homelab.yaml"), "./homelab.yaml"]
  }

  /** The index of the first path that exists, if any. */
  function FirstExisting(paths: seq<string>, pathExists: string -> bool): (r: Option<nat>)
    ensures r.Some? ==> r.value < |paths| && pathExists(paths[r.value])
    ensures r.Some? ==> forall j | 0 <= j < r.value :: !pathExists(paths[j])
    ensures r.None? <==> forall j | 0 <= j < |paths| :: !pathExists(paths[j])
  {
    if |paths| == 0 then None
    else if pathExists(paths[0]) then Some(0)
    else match FirstExisting(paths[1..], pathExists)
      case None => None
      case Some(i) => Some(i + 1)
  }

  /** `load_config`: an explicit path is read directly; otherwise, when the home directory is
      known, the first existing candidate is read; with no home directory or no existing
      candidate the result is the default configuration. */
  function LoadConfig(explicit: Option<string>, fs: FileSystem): (r: Result<AppConfig, CliError>)
    ensures explicit.Some? ==> r == LoadFromFile(explicit.value, fs)
    ensures explicit.None? && fs.home.None? ==> r == Success(DefaultConfig)
    ensures explicit.None? && fs.home.Some? && (forall p | p in Candidates(fs.home.value) :: !fs.pathExists(p)) ==>
      r == Success(DefaultConfig)
    ensures explicit.None? && fs.home.Some? ==>
      forall i | 0 <= i < |Candidates(fs.home.value)| && fs.pathExists(Candidates(fs.home.value)[i])
                 && (forall j | 0 <= j < i :: !fs.pathExists(Candidates(fs.home.value)[j])) ::
        r == LoadFromFile(Candidates(fs.home.value)[i], fs)
  {
    match explicit
    case Some(path) => LoadFromFile(path, fs)
    case None =>
      match fs.home
      case None => Success(DefaultConfig)
      case Some(home) =>
        var candidates := Candidates(home);
        match FirstExisting(candidates, fs.pathExists)
        case None => Success(DefaultConfig)
        case Some(i) => LoadFromFile(candidates[i], fs)
  }
}
