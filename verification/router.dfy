/** function_handler: pick the table, split the request path, route (method, segments) to a
    handler or to 404, and add the CORS headers to the response. */
module Router {
  import opened Wrappers
  import opened Json
  import opened Store
  import opened Models
  import opened Http
  import opened Text
  import AddServer
  import ListServers
  import UpdateConfig
  import DeleteConfig

  const DefaultTableName := "homelab-servers"
  const EndpointNotFound := "Endpoint not found"

  /** The table the handler works on: `TABLE_NAME` when the variable is set, otherwise the
      fixed default. */
  function TableName(tableNameVar: Option<string>): (name: string)
    ensures tableNameVar.Some? ==> name == tableNameVar.value
    ensures tableNameVar.None? ==> name == DefaultTableName
  {
    tableNameVar.GetOr(DefaultTableName)
  }

  /** The path segments: the path without all its leading '/', split at every '/'. There is
      always at least one segment, no segment contains '/', and joining them with '/' gives
      back the path without its leading '/'s. */
  function PathSegments(path: string): (parts: seq<string>)
    ensures |parts| >= 1
    ensures forall i | 0 <= i < |parts| :: '/' !in parts[i]
    ensures Join(parts, "/") == TrimStart(path, '/')
  {
    Split(TrimStart(path, '/'), '/')
  }

  /** The handler a request goes to. */
  datatype Route = AddRoute | ListRoute | UpdateRoute(id: string) | DeleteRoute(id: string) | NoRoute

  /** The routing table: POST and GET on exactly `servers` create and list; PUT and DELETE on
      exactly two segments whose first is `servers` update and delete the record named by the
      second segment, verbatim (even when it is empty); everything else has no route. */
  function Resolve(m: Method, parts: seq<string>): (r: Route)
    ensures r == AddRoute <==> m == Post && parts == ["servers"]
    ensures r == ListRoute <==> m == Get && parts == ["servers"]
    ensures r.UpdateRoute? <==> m == Put && |parts| == 2 && parts[0] == "servers"
    ensures r.DeleteRoute? <==> m == Delete && |parts| == 2 && parts[0] == "servers"
    ensures r.UpdateRoute? || r.DeleteRoute? ==> r.id == parts[1]
  {
    if m == Post && parts == ["servers"] then AddRoute
    else if m == Get && parts == ["servers"] then ListRoute
    else if m == Put && |parts| == 2 && parts[0] == "servers" then UpdateRoute(parts[1])
    else if m == Delete && |parts| == 2 && parts[0] == "servers" then DeleteRoute(parts[1])
    else NoRoute
  }

  /** An empty path is one empty segment. */
  lemma EmptyPathSegments()
    ensures PathSegments("") == [""]
  {
    SplitOfJoin([""], '/');
  }

  /** All leading '/'s go, so `/servers` and `//servers` are the one segment `servers`. */
  lemma ServersPathSegments()
    ensures PathSegments("/servers") == ["servers"]
    ensures PathSegments("//servers") == ["servers"]
  {
    SplitOfJoin(["servers"], '/');
    assert TrimStart("servers", '/') == "servers";
    assert "/servers"[1..] == "servers";
    assert "//servers"[1..] == "/servers";
  }

  /** A trailing '/' after `servers` leaves an empty second segment. */
  lemma TrailingSlashSegments()
    ensures PathSegments("/servers/") == ["servers", ""]
  {
    JoinSmall("servers", "", "", "/");
    assert "servers" + "/" + "" == "servers/";
    SplitOfJoin(["servers", ""], '/');
    assert TrimStart("servers/", '/') == "servers/";
    assert "/servers/"[1..] == "servers/";
  }

  /** `/servers/abc` is the segments `servers` and `abc`. */
  lemma IdPathSegments()
    ensures PathSegments("/servers/abc") == ["servers", "abc"]
  {
    JoinSmall("servers", "abc", "", "/");
    assert "servers" + "/" + "abc" == "servers/abc";
    SplitOfJoin(["servers", "abc"], '/');
    assert TrimStart("servers/abc", '/') == "servers/abc";
    assert "/servers/abc"[1..] == "servers/abc";
  }

  /** A trailing '/' after `servers` gives PUT the empty id ... */
  lemma TrailingSlashUpdates()
    ensures Resolve(Put, PathSegments("/servers/")) == UpdateRoute("")
  {
    TrailingSlashSegments();
    var parts := PathSegments("/servers/");
    assert |parts| == 2 && parts[0] == "servers" && parts[1] == "";
  }

  /** ... but leaves GET without a route. */
  lemma TrailingSlashListsNothing()
    ensures Resolve(Get, PathSegments("/servers/")) == NoRoute
  {
    TrailingSlashSegments();
    var parts := PathSegments("/servers/");
    assert |parts| == 2;
    assert parts != ["servers"];
  }

  /** DELETE without an id has no route; POST on `//servers` creates. */
  lemma ServersRoutes()
    ensures Resolve(Delete, PathSegments("/servers")) == NoRoute
    ensures Resolve(Post, PathSegments("//servers")) == AddRoute
  {
    ServersPathSegments();
  }

  /** DELETE on `/servers/abc` deletes `abc`. */
  lemma IdRoutes()
    ensures Resolve(Delete, PathSegments("/servers/abc")) == DeleteRoute("abc")
  {
    IdPathSegments();
  }

  /** The response headers every routed response gets. */
  const CorsHeaders: map<string, string> := map[
    "Access-Control-Allow-Origin" := "*",
    "Access-Control-Allow-Methods" := "GET, POST, PUT, DELETE, OPTIONS",
    "Access-Control-Allow-Headers" := "Content-Type, Authorization"]

  /** The CORS post-processing: a response gets the three CORS headers (replacing any it
      had under those names) and keeps its status, body and other headers; an error passes
      through untouched. */
  function WithCors<E>(r: Result<Response, E>): (r': Result<Response, E>)
    ensures r.Failure? ==> r' == r
    ensures r.Success? ==>
      && r'.Success?
      && r'.value.status == r.value.status
      && r'.value.body == r.value.body
      && r'.value.headers.Keys == r.value.headers.Keys + CorsHeaders.Keys
      && (forall h | h in CorsHeaders :: r'.value.headers[h] == CorsHeaders[h])
      && (forall h | h in r.value.headers && h !in CorsHeaders :: r'.value.headers[h] == r.value.headers[h])
  {
    match r
    case Failure(e) => Failure(e)
    case Success(resp) => Success(resp.(headers := resp.headers + CorsHeaders))
  }

  /** What the outside world decides for one invocation: the generated id and the current
      instant, whether store reads and writes fail, and the order in which a scan visits keys. */
  datatype Effects = Effects(newId: string, now: Timestamp, readFails: bool, writeFails: bool, scanOrder: seq<string>)

  /** Runs the routed handler on one table. Listing and the 404 leave the table alone, and
      so does every handler whose store write fails; only adding can bring in a key, and
      only deleting can remove one. */
  function Dispatch(route: Route, table: Table, body: Body, fx: Effects): (d: (Response, Table))
    ensures route.ListRoute? || route.NoRoute? || fx.writeFails ==> d.1 == table
    ensures route.NoRoute? ==> d.0.status == 404 && d.0.body == ErrorObject(EndpointNotFound)
    ensures route.ListRoute? ==> (fx.readFails ==> d.0.status == 500) && (!fx.readFails ==> d.0.status == 200)
    ensures route.AddRoute? ==> table.Keys <= d.1.Keys
    ensures route.UpdateRoute? ==> d.1.Keys == table.Keys
    ensures route.DeleteRoute? ==> d.1.Keys <= table.Keys
  {
    match route
    case AddRoute => AddServer.Handle(table, body, fx.newId, fx.now, fx.writeFails)
    case ListRoute =>
      var scan := if fx.readFails then ListServers.ScanFailed
                  else ListServers.Scanned(Some(ScanItems(table, fx.scanOrder)));
      (ListServers.Handle(scan), table)
    case UpdateRoute(id) => UpdateConfig.Handle(table, id, body, fx.now, fx.readFails, fx.writeFails)
    case DeleteRoute(id) => DeleteConfig.Handle(table, id, fx.writeFails)
    case NoRoute => (ErrorResponse(404, EndpointNotFound), table)
  }

  /** The handler's result before the CORS post-processing: the routed handler on the
      selected table when it exists, and otherwise on an empty table with every store call
      failing. */
  function Routed(tableNameVar: Option<string>, db: Database, req: Request, fx: Effects): (Response, Table) {
    var t := TableName(tableNameVar);
    var route := Resolve(req.verb, PathSegments(req.path));
    if t in db then Dispatch(route, db[t], req.body, fx)
    else Dispatch(route, map[], req.body, fx.(readFails := true, writeFails := true))
  }

  /** function_handler on the database `db`. No request ends in an error: the response has
      the routed handler's status and body, plus the three CORS headers. No table appears or
      disappears and only the table named by `TABLE_NAME` (or the default) can change, to
      what the routed handler leaves; when that table does not exist nothing changes. */
  function FunctionHandler(tableNameVar: Option<string>, db: Database, req: Request, fx: Effects)
    : (out: (Result<Response, string>, Database))
    ensures out.0.Success?
    ensures out.0.value.status == Routed(tableNameVar, db, req, fx).0.status
    ensures out.0.value.body == Routed(tableNameVar, db, req, fx).0.body
    ensures forall h | h in CorsHeaders :: h in out.0.value.headers && out.0.value.headers[h] == CorsHeaders[h]
    ensures out.1.Keys == db.Keys
    ensures forall name | name in db && name != TableName(tableNameVar) :: out.1[name] == db[name]
    ensures TableName(tableNameVar) in db ==> out.1[TableName(tableNameVar)] == Routed(tableNameVar, db, req, fx).1
    ensures TableName(tableNameVar) !in db ==> out.1 == db
  {
    var t := TableName(tableNameVar);
    var d := Routed(tableNameVar, db, req, fx);
    (WithCors(Success(d.0)), if t in db then db[t := d.1] else db)
  }

  /** A request without a route is answered 404 `Endpoint not found` and changes nothing. */
  lemma UnroutedIsNotFound(tableNameVar: Option<string>, db: Database, req: Request, fx: Effects)
    requires Resolve(req.verb, PathSegments(req.path)) == NoRoute
    ensures var out := FunctionHandler(tableNameVar, db, req, fx);
      && out.0.value.status == 404
      && out.0.value.body == ErrorObject(EndpointNotFound)
      && out.1 == db
  {
    var t := TableName(tableNameVar);
    if t in db {
      assert db[t := db[t]] == db;
    }
  }

  /** A missing table answers every routed request with a 400 for a bad body or a 500 for the
      failed store call. */
  lemma MissingTableFails(tableNameVar: Option<string>, db: Database, req: Request, fx: Effects)
    requires TableName(tableNameVar) !in db
    requires Resolve(req.verb, PathSegments(req.path)) != NoRoute
    ensures FunctionHandler(tableNameVar, db, req, fx).0.value.status in {400, 500}
  {
  }

  /** Every routed handler keeps the record invariant of its table. */
  lemma DispatchPreservesValid(route: Route, table: Table, body: Body, fx: Effects)
    requires Valid(table)
    ensures Valid(Dispatch(route, table, body, fx).1)
  {
    match route
    case AddRoute => AddServer.HandlePreservesValid(table, body, fx.newId, fx.now, fx.writeFails);
    case UpdateRoute(id) => UpdateConfig.HandlePreservesValid(table, id, body, fx.now, fx.readFails, fx.writeFails);
    case DeleteRoute(id) => DeleteConfig.HandlePreservesValid(table, id, fx.writeFails);
    case ListRoute =>
    case NoRoute =>
  }

  /** Every request keeps the record invariant of every table. */
  lemma HandlerPreservesValid(tableNameVar: Option<string>, db: Database, req: Request, fx: Effects)
    requires forall name | name in db :: Valid(db[name])
    ensures var db' := FunctionHandler(tableNameVar, db, req, fx).1;
            forall name | name in db' :: Valid(db'[name])
  {
    var t := TableName(tableNameVar);
    var db' := FunctionHandler(tableNameVar, db, req, fx).1;
    if t in db {
      var d := Routed(tableNameVar, db, req, fx);
      DispatchPreservesValid(Resolve(req.verb, PathSegments(req.path)), db[t], req.body, fx);
      assert Valid(d.1);
      forall name | name in db'
        ensures Valid(db'[name])
      {
        if name == t {
          assert db'[name] == d.1;
        } else {
          assert db'[name] == db[name];
        }
      }
    }
  }
}
