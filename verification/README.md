# HomeLab server-configuration service and CLI, modelled in Dafny

This project models a small CRUD service and its command-line client. The service is an
HTTP Lambda that keeps NixOS server records in a DynamoDB table. The client is the `homelab` CLI.

**Service side** (`lambda/`):

- `function_handler` reads the table name from `TABLE_NAME`, splits the request path and
  routes on method and segments (POST/GET `servers`, PUT/DELETE `servers/<id>`). It answers
  anything else with 404 and adds three CORS headers to every response.
- The four handlers:
  - add creates a record under a generated id;
  - list scans and projects every item onto its six known string attributes;
  - update validates the body, checks that the id exists, builds a DynamoDB `SET` update
    expression with its name and value maps, and applies it;
  - delete removes by key, unconditionally.
- The record type `ServerConfig`, its attribute-map encoding, and the two request shapes
  that serde decodes from JSON.

**Client side** (`cli/`):

- The four subcommands, each making one HTTP call and reading its reply. `add` always
  sends three keys. `update` sends only the fields given, and refuses when none is given.
  `list` renders one row per server with `"N/A"`/`""` defaults.
- Configuration discovery among fixed candidate paths, `AppConfig::default()`, and the
  reading of a YAML configuration file.
- `main`, which resolves the service URL by precedence (flag, then file, then placeholder)
  and dispatches the subcommand.

How the model is built:

- **Store.** A table is a `map<string, Item>` keyed by `server_id`; an item is a map from
  attribute names to attribute values. Each handler is a pure function from the table, the
  request and the outcome of its store calls to a response and the new table.
- **Outside inputs.** The generated id, the current instant, whether a store call fails and
  the order a scan visits keys are all parameters. On the client, sending a request is a
  function parameter from request to reply. The file system is a home directory, an
  existence predicate and a read function.
- **Documents.** JSON and YAML documents are one tree of values. Parsing is abstracted to
  "well formed" or "malformed", but the serde decoding of the request and configuration
  structs from that tree is modelled field by field.
- **`EndToEnd`.** This module connects the two sides:
  - the bodies the CLI sends decode, on the service side, to exactly what was typed;
  - a server added through the service is then listed by the CLI exactly once, showing what
    it was added with, provided the listing's scan returns the whole table (see "## Left out").

## Model

| member | source | states |
|---|---|---|
| Text.Split | lambda/src/main.rs:39 | `split('/')` yields at least one part, no part contains the separator, and joining the parts with it gives back the input |
| Text.SplitOfJoin | lambda/src/main.rs:39 | splitting is the inverse of joining: separator-free parts joined with the separator split back to exactly those parts |
| Text.TrimStart | lambda/src/main.rs:39 | `trim_start_matches('/')` removes a prefix made only of '/', keeps the rest as a suffix, and the result does not start with '/' |
| Store.ScanItems | lambda/src/handlers/list_servers.rs:9-13 | a scan returns no more items than keys visited, and every returned item is an item of the table |
| Store.ScanItemsOfEnumeration | lambda/src/handlers/list_servers.rs:11-13 | a scan visiting every key of the table once returns exactly one item per key, in visiting order |
| Models.ToAttributeValue | lambda/src/models/server_config.rs:28-44 | the encoding is always a map holding `server_id`, `server_name`, `config_file_path`, `created_at` and `updated_at` as strings equal to the record's fields (timestamps as RFC 3339 text), plus `description` exactly when it is present, so 5 or 6 keys |
| Models.EncodingRoundTrip | lambda/src/models/server_config.rs:28-44 | the encoding loses nothing: reading the map back gives the original record |
| Models.DecodeCreate | lambda/src/models/server_config.rs:15-20 | a create request decodes exactly when both names are strings and the description is absent, null or a string; the decoded fields equal the members |
| Models.DecodeUpdate | lambda/src/models/server_config.rs:22-26 | an update request decodes exactly when each of its two members is absent, null or a string, and carries a field exactly when that member is a string |
| Models.EmptyObjectIsUpdateRequest | lambda/src/models/server_config.rs:22-26 | `{}` is a valid update request that changes no field |
| Http.ReadJsonBody | lambda/src/handlers/add_server.rs:15-43 | an empty body gives 400 "Request body is required", a non-text body 400 "Invalid request body", text that does not decode 400 "Invalid JSON format"; otherwise the decoded request |
| AddServer.NewItem | lambda/src/handlers/add_server.rs:45-57 | the stored item has the generated id, the requested name and path, `created_at == updated_at` (the same instant), and `description` exactly when one was supplied |
| AddServer.NewItemIsEncodedRecord | lambda/src/handlers/add_server.rs:48-57 | the item the handler writes is the attribute-map encoding of the new `ServerConfig` |
| AddServer.Handle | lambda/src/handlers/add_server.rs:15-85 | a bad body gives 400 and a failed put 500, both leaving the table unchanged; otherwise 201 naming the new id, the table gains exactly that key holding the new item, and every other key is unchanged |
| AddServer.HandlePreservesValid | lambda/src/handlers/add_server.rs:48-64 | adding keeps every item's `server_id` equal to its key |
| AddServer.FreshAddGrowsTable | lambda/src/handlers/add_server.rs:45-64 | with a fresh id a successful add grows the table by exactly one record |
| DeleteConfig.Handle | lambda/src/handlers/delete_config.rs:11-41 | a store failure gives 500 and leaves the table unchanged; otherwise 200 echoing the id, whether or not it was present, with exactly that key gone and every other key unchanged |
| DeleteConfig.DeleteIsIdempotent | lambda/src/handlers/delete_config.rs:16-32 | deleting twice leaves the same table and the same response as deleting once |
| DeleteConfig.HandlePreservesValid | lambda/src/handlers/delete_config.rs:16-22 | deleting keeps every item's `server_id` equal to its key |
| UpdateConfig.BuildUpdate | lambda/src/handlers/update_config.rs:72-92 | a name and a value placeholder for `config_file_path` exactly when a path was supplied, and for `description` exactly when a description was; `updated_at` always, bound to the current instant; one to three clauses, the `updated_at` clause last |
| UpdateConfig.PlanPlaceholders | lambda/src/handlers/update_config.rs:72-90 | the placeholders used by the built clauses are exactly the keys of the names map and of the values map |
| UpdateConfig.PlanIsWellFormed | lambda/src/handlers/update_config.rs:72-90 | the built update has 1 to 3 clauses, and the names and values maps have exactly as many entries, one per emitted clause |
| UpdateConfig.PlanClauseOrder | lambda/src/handlers/update_config.rs:76-92 | there is a path clause exactly when a path was supplied and a description clause exactly when a description was; the `updated_at` clause is always last, and the clauses keep the fixed order |
| UpdateConfig.PlanNamesAndValues | lambda/src/handlers/update_config.rs:76-90 | every name placeholder maps to its attribute, and each value placeholder maps to the supplied string or to the current instant |
| UpdateConfig.ExpressionText | lambda/src/handlers/update_config.rs:72-92 | for each of the four request shapes, the expression text is the supplied clauses then `#updated_at = :updated_at`, joined by ", " |
| UpdateConfig.Updated | lambda/src/handlers/update_config.rs:76-90 | the intended update changes `updated_at` to now and only the supplied fields to their values, and leaves every other attribute (`server_name`, `created_at`, ...) as it was |
| UpdateConfig.PlanMakesIntendedUpdate | lambda/src/handlers/update_config.rs:99-107 | applying the built SET expression with its name and value maps to an item gives exactly the intended update |
| UpdateConfig.Handle | lambda/src/handlers/update_config.rs:15-127 | body errors give 400 before the existence check; a failed read gives 500; an absent id gives 404 and nothing is created; a failed write gives 500, all leaving the table unchanged; otherwise 200 echoing the id, the item updated as intended, and the key set unchanged |
| UpdateConfig.HandlePreservesValid | lambda/src/handlers/update_config.rs:99-107 | updating keeps every item's `server_id` equal to its key |
| ListServers.ProjectKeys | lambda/src/handlers/list_servers.rs:15-36 | inserting the listed keys one after another keeps exactly those keys that the item holds as strings, with their strings |
| ListServers.Project | lambda/src/handlers/list_servers.rs:15-36 | each listed object holds exactly the item's string attributes among the six known names, with the stored strings; non-string and unknown attributes are dropped |
| ListServers.ProjectAll | lambda/src/handlers/list_servers.rs:13-38 | one object per scanned item, in scan order |
| ListServers.Handle | lambda/src/handlers/list_servers.rs:9-60 | a failed scan gives 500; otherwise 200 with exactly `servers` (the projected items in scan order) and `count`, equal to their number |
| ListServers.EmptyScanListsNothing | lambda/src/handlers/list_servers.rs:11-49 | an empty scan, with or without an item list, is a 200 listing of nothing with count 0 |
| Router.TableName | lambda/src/main.rs:33 | `TABLE_NAME` when set, otherwise "homelab-servers" |
| Router.PathSegments | lambda/src/main.rs:39 | at least one segment, none containing '/', and together they rebuild the path without its leading '/'s |
| Router.Resolve | lambda/src/main.rs:41-60 | POST and GET route exactly on the single segment `servers`; PUT and DELETE route exactly on two segments starting with `servers`, with the second as the id; nothing else routes |
| Router.EmptyPathSegments | lambda/src/main.rs:39 | the empty path is one empty segment |
| Router.ServersPathSegments | lambda/src/main.rs:39 | `/servers` and `//servers` are both the single segment `servers` |
| Router.TrailingSlashSegments | lambda/src/main.rs:39 | `/servers/` is `servers` followed by an empty segment |
| Router.IdPathSegments | lambda/src/main.rs:39 | `/servers/abc` is the segments `servers` and `abc` |
| Router.TrailingSlashUpdates | lambda/src/main.rs:48-50 | PUT `/servers/` routes to an update of the empty id |
| Router.TrailingSlashListsNothing | lambda/src/main.rs:45-47 | GET `/servers/` has no route |
| Router.ServersRoutes | lambda/src/main.rs:41-60 | DELETE `/servers` has no route; POST `//servers` adds |
| Router.IdRoutes | lambda/src/main.rs:51-53 | DELETE `/servers/abc` deletes `abc` |
| Router.WithCors | lambda/src/main.rs:63-73 | a response keeps its status, body and other headers and gains the three CORS headers with their fixed values; an error passes through |
| Router.Dispatch | lambda/src/main.rs:41-60 | listing, the 404 and any handler whose write fails leave the table unchanged; the 404 carries `{"error": "Endpoint not found"}`; listing answers 500 exactly when the scan fails and 200 otherwise; only adding can bring in a key, update keeps the key set and delete only removes |
| Router.FunctionHandler | lambda/src/main.rs:29-74 | no request ends in an error: the response has the routed handler's status and body plus the three CORS headers with their fixed values; no table appears or disappears, no table other than the selected one changes, the selected one becomes what its handler leaves, and a missing selected table leaves the database unchanged |
| Router.UnroutedIsNotFound | lambda/src/main.rs:54-60 | an unrouted request gets 404 `{"error": "Endpoint not found"}` and changes nothing |
| Router.MissingTableFails | lambda/src/main.rs:41-53 | against a missing table every routed request ends in 400 or 500 |
| Router.DispatchPreservesValid | lambda/src/main.rs:41-53 | every routed handler keeps its table's items keyed by their own `server_id` |
| Router.HandlerPreservesValid | lambda/src/main.rs:41-53 | every request keeps every table's items keyed by their own `server_id` |
| Client.Exchange | cli/src/commands/add_server.rs:23-37 | one request sent; a 2xx reply with a JSON body succeeds with that body; a failure status with a JSON body fails with the body's `error` after the command's context; a missing reply or a non-JSON body is an error |
| CliAddServer.Body | cli/src/commands/add_server.rs:13-17 | exactly the keys `server_name`, `config_file_path`, `description`, valued by the arguments, with `description` null when not given |
| CliAddServer.Execute | cli/src/commands/add_server.rs:19-37 | one POST of the body to `<api_url>/servers`; success exactly on a 2xx JSON reply, yielding its `server_id`; a failure status gives the server's `error` |
| CliUpdateConfig.Body | cli/src/commands/update_config.rs:14-27 | fails with "no updates" exactly when neither field is given; otherwise `config_file_path` is present exactly when a path was given and `description` exactly when a description was, with their values and no other key |
| CliUpdateConfig.Execute | cli/src/commands/update_config.rs:25-47 | with no field given nothing is sent; otherwise one PUT to `<api_url>/servers/<id>`, success exactly on a 2xx JSON reply yielding its `message`, a failure status giving the server's `error` |
| CliDeleteConfig.Execute | cli/src/commands/delete_config.rs:7-23 | one body-less DELETE to `<api_url>/servers/<id>`; success exactly on a 2xx JSON reply yielding its `message`, a failure status giving the server's `error` |
| CliListServers.RowOf | cli/src/commands/list_servers.rs:39-45 | each column is the server's string under its key; a missing or non-string id, name, path or creation time shows "N/A", a missing or non-string description "" |
| CliListServers.Rows | cli/src/commands/list_servers.rs:38-46 | exactly one row per server, in response order |
| CliListServers.Render | cli/src/commands/list_servers.rs:30-53 | no table exactly when `servers` is missing, not an array, or empty; otherwise the rows and a total equal to the number of servers |
| CliListServers.Execute | cli/src/commands/list_servers.rs:18-57 | one body-less GET of `<api_url>/servers`; success exactly on a 2xx JSON reply, yielding the rendering; a failure status gives the server's `error` |
| CliConfig.DefaultValues | cli/src/config/mod.rs:27-35 | the default has no URL, timeout 30 and region "us-east-1" |
| CliConfig.OptionalU64 | cli/src/config/mod.rs:23 | an `Option<u64>` field is `None` when missing or null, and `Some(n)` exactly for an integer 0 <= n < 2^64 |
| CliConfig.DecodeEntry | cli/src/config/mod.rs:12-17 | a server entry decodes exactly when it is a mapping with string `name` and `config_file_path` and a `description` that is missing, null or a string; the fields are carried over, the description present exactly when it is a string |
| CliConfig.DecodeEntries | cli/src/config/mod.rs:12-21 | the server list decodes exactly when every entry does, entry by entry in order |
| CliConfig.DecodeConfigFileAsWritten | cli/src/config/mod.rs:19-25 | as declared, a document decodes exactly when it is a mapping that contains `servers`, all entries well formed, and well-typed optional fields; the list and the fields are carried over |
| CliConfig.DecodeConfigFile | cli/src/config/mod.rs:19-25 | with the list optional, a document decodes exactly when it is a mapping with a well-formed `servers` if present and well-typed optional fields; a missing list is empty and the fields are carried over |
| CliConfig.CorrectedDecoderExtendsDeclared | cli/src/config/mod.rs:19-25 | the optional-list decoder agrees with the declared one wherever that succeeds, and additionally accepts exactly the well-typed mappings without `servers` |
| CliConfig.FileWithoutServersIsRejected | cli/src/config/mod.rs:21 | a file holding only `api_url` fails under the declared struct but reads as that URL with no servers when the list is optional |
| CliConfig.LoadFromFile | cli/src/config/mod.rs:60-68 | an unreadable file is an I/O error; a file loads exactly when it is YAML the declared struct accepts, so a mapping without `servers` is an error; otherwise `api_url`, `timeout_seconds` and `region` become the URL, default timeout and default region |
| CliConfig.LoadFromFileCorrected | cli/src/config/mod.rs:60-68 | the same reading with the server list optional: a file loads exactly when it is YAML the optional-list decoder accepts, with the same three fields carried over |
| CliConfig.CorrectedLoaderExtendsDeclared | cli/src/config/mod.rs:21 | the corrected loader gives the same configuration wherever the one as written succeeds, and succeeds in addition exactly on readable mappings without `servers` whose other fields are well typed |
| CliConfig.JoinPath | cli/src/config/mod.rs:44-45 | the joined path starts with the directory, ends with the relative path, and has one '/' between them unless the directory is empty or already ends in '/' |
| CliConfig.Candidates | cli/src/config/mod.rs:43-47 | three candidates in order: `.config/homelab/config.yaml` and `.homelab.yaml` joined onto the home directory, then `./homelab.yaml` |
| CliConfig.FirstExisting | cli/src/config/mod.rs:49-53 | the chosen path exists and no earlier path does; no choice exactly when no path exists |
| CliConfig.LoadConfig | cli/src/config/mod.rs:37-58 | an explicit path is read directly with no discovery; otherwise, with a home directory, the first existing of `~/.config/homelab/config.yaml`, `~/.homelab.yaml`, `./homelab.yaml` is read; with no home directory or no existing candidate the default is used |
| CliMain.ApiUrl | cli/src/main.rs:69-71 | the `--api-url` flag wins, then the configuration's URL, then "https://api.example.com" |
| CliMain.RunCommand | cli/src/main.rs:73-86 | each subcommand reaches its own executor with its arguments unchanged: at most one request, with that subcommand's verb, path and body; success exactly on a 2xx JSON reply, showing the new id, the update or delete message, or the rendered listing; a failure status with a JSON body reports its `error` |
| CliMain.Main | cli/src/main.rs:61-89 | a configuration that fails to load ends the invocation with its error and no request; otherwise the request goes under the `--api-url` flag's URL, else the loaded `api_url`, else "https://api.example.com", and only an update with nothing to change sends none |
| CliMain.FlagOverridesConfiguration | cli/src/main.rs:68-70 | with `--api-url` given, any two configurations that load give the same invocation |
| CliMain.FileWithoutServersStopsCli | cli/src/main.rs:65 | an explicit configuration file holding only `api_url` makes every subcommand fail with an invalid configuration before sending anything |
| EndToEnd.AddBodyIsAccepted | cli/src/commands/add_server.rs:13-17 | the body `add` sends decodes in the service to exactly the create request typed |
| EndToEnd.UpdateBodyIsAccepted | cli/src/commands/update_config.rs:14-22 | the body `update` sends decodes in the service to exactly the fields given |
| EndToEnd.ListedRowOfItem | cli/src/commands/list_servers.rs:39-45 | the row shown for a stored item holds its string attributes, or the defaults where it has none |
| EndToEnd.ListingOfItems | cli/src/commands/list_servers.rs:30-50 | the listing of the service's reply for a scan has one row per scanned item in order and their number as total, or no table for an empty scan |
| EndToEnd.ListedIdsOfValidTable | lambda/src/handlers/list_servers.rs:17-19 | for a table whose items carry their keys, the listing shows each key as the id of its own row, in scan order |
| EndToEnd.StoredKeyListedOnce | cli/src/commands/list_servers.rs:38-46 | every stored key is listed, and no id appears in two rows |
| EndToEnd.AddStoresRequest | lambda/src/handlers/add_server.rs:45-64 | after adding the CLI's body, the table still has items keyed by their own `server_id` and holds the typed record under the new id |
| EndToEnd.AddedServerIsListedOnce | lambda/src/handlers/add_server.rs:45-64 | a server added through the CLI is then listed exactly once, with the name, path, description (or "") and creation time it was added with |

## Behaviour worth noting

The model follows the code at each of these points.

- Creating a server checks only that `server_name` and `config_file_path` are strings, so
  `Models.DecodeCreate` accepts empty strings for both.
- A bad body gets one of three 400 messages: "Request body is required", "Invalid request
  body" for a body that is not text, and "Invalid JSON format" (`Http.ReadJsonBody`).
- Nothing orders `created_at` and `updated_at`: the code writes whatever `Utc::now()`
  returns. The model takes the instant as a parameter and states no ordering between them.
- The configuration file's server list is required by its struct even though no command
  reads it. This is reported under "## Findings" below.

## Left out

- DynamoDB SDK calls are replaced by a map per table and a boolean outcome per call.
  DynamoDB's own checks (an empty-string key, item size limits) are not modelled, and a
  write that fails is taken to have written nothing.
- The race in update between the existence check (`get_item`) and the write
  (`update_item`) is not modelled: the two steps run in sequence on the same table.
- `Uuid::new_v4` and `Utc::now` are parameters. Freshness of the id is a precondition where
  it matters, and a timestamp is its RFC 3339 text.
- The JSON and YAML grammars are not modelled; a body is empty, non-text, malformed text, or
  a well-formed document. serde's array form of a struct is not modelled, nor floating-point
  numbers. YAML scalars are typed as in JSON: a string is a string and an integer an
  integer, without YAML 1.1 tag resolution.
- HTTP transport and rendering are parameters or left out: lambda_http/hyper response
  building (builder failures included), header-name case folding, reqwest, tokio, tracing,
  clap parsing, `tabled` layout and `println!` text. Only the row values, the total and the
  "no servers" case are modelled.
- File-system access is a parameter: `dirs::home_dir`, `Path::exists` and reading a file.
  Only `PathBuf::join` onto a relative path is modelled.
- `main`'s logger setup and AWS configuration loading are left out.
- EndToEnd.AddedServerIsListedOnce, EndToEnd.StoredKeyListedOnce and
  EndToEnd.ListedIdsOfValidTable take the listing's scan to be complete
  (`Store.Enumerates`): a single page holding every item, read strongly consistently. The
  handler calls `scan` once without following `LastEvaluatedKey`, with eventually
  consistent reads, so a table larger than one page or a just-written item may be missing
  from the real listing. The existence check of update (`get_item`) is likewise eventually
  consistent, and the model reads the current table.

## Findings

| source | as written | input that shows it | evidently intended | confidence | as-written member | corrected member |
|---|---|---|---|---|---|---|
| cli/src/config/mod.rs:21 | `servers: Vec<ServerConfig>` has no serde default, so the key is required | a configuration file holding only `api_url: https://homelab.internal` fails to deserialize, and every command then exits before sending anything | the list of pre-declared servers is optional: no command reads it (cli/src/main.rs:73-86) and every other field of the file is an `Option`; a file without it loads its `api_url`, `timeout_seconds` and `region` | not executed; high that the file is rejected, medium that this is unintended | CliConfig.LoadFromFile | CliConfig.LoadFromFileCorrected |

`CliConfig.LoadFromFile` reads a file with the declared struct (`CliConfig.DecodeConfigFileAsWritten`),
as the code does, and the rest of the model, `CliMain.Main` included, uses it.
`CliConfig.FileWithoutServersIsRejected` and `CliMain.FileWithoutServersStopsCli` exhibit
the rejected file. `CliConfig.LoadFromFileCorrected` reads with the list optional
(`CliConfig.DecodeConfigFile`), and `CliConfig.CorrectedLoaderExtendsDeclared` and
`CliConfig.CorrectedDecoderExtendsDeclared` prove that it only adds the files without a list.
