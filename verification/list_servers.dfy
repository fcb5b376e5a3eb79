/** handle_list_servers: scan the table and project every item onto the six known attributes. */
module ListServers {
  import opened Wrappers
  import opened Json
  import opened Store
  import opened Http

  const ListFailed := "Failed to list servers"

  /** The attributes the projection copies, in the order it copies them. */
  const KnownAttributes: seq<string> :=
    ["server_id", "server_name", "config_file_path", "description", "created_at", "updated_at"]

  /** What the scan call returned: a failure, or success with an optional item list. */
  datatype ScanOutcome = ScanFailed | Scanned(items: Option<seq<Item>>)

  /** The members inserted for `keys`, one key after the other: a key appears exactly when the
      item holds it as a string attribute, with that string as its value; any other attribute
      is dropped. */
  function ProjectKeys(item: Item, keys: seq<string>): (obj: map<string, Value>)
    ensures forall k :: k in obj <==> k in keys && k in item && item[k].S?
    ensures forall k | k in obj :: obj[k] == JString(item[k].s)
    decreases |keys|
  {
    if |keys| == 0 then map[]
    else
      var rest := ProjectKeys(item, keys[..|keys| - 1]);
      var k := keys[|keys| - 1];
      assert keys == keys[..|keys| - 1] + [k];
      if k in item && item[k].S? then rest[k := JString(item[k].s)] else rest
  }

  /** The JSON object listed for one item: exactly its string attributes among the six known
      ones, each with its stored string. */
  function Project(item: Item): (v: Value)
    ensures v.JObject?
    ensures forall k :: k in v.fields <==> k in KnownAttributes && k in item && item[k].S?
    ensures forall k | k in v.fields :: v.fields[k] == JString(item[k].s)
  {
    JObject(ProjectKeys(item, KnownAttributes))
  }

  /** The projected list: one object per scanned item, in scan order. */
  function ProjectAll(items: seq<Item>): (servers: seq<Value>)
    ensures |servers| == |items|
    ensures forall i | 0 <= i < |items| :: servers[i] == Project(items[i])
  {
    if |items| == 0 then [] else [Project(items[0])] + ProjectAll(items[1..])
  }

  /** The items of a successful scan; a scan without an item list counts as empty. */
  function ScannedItems(items: Option<seq<Item>>): seq<Item> {
    items.GetOr([])
  }

  /** handle_list_servers with the scan outcome passed in. A failed scan gives 500; otherwise
      200 with exactly the members `servers`, one projected object per scanned item in scan
      order, and `count`, the number of listed servers. */
  function Handle(scan: ScanOutcome): (r: Response)
    ensures scan.ScanFailed? ==> r == ErrorResponse(500, ListFailed)
    ensures scan.Scanned? ==>
      var items := ScannedItems(scan.items);
      && r.status == 200
      && r.body.JObject? && r.body.fields.Keys == {"servers", "count"}
      && r.body.fields["servers"].JArray?
      && |r.body.fields["servers"].items| == |items|
      && r.body.fields["count"] == JNum(|r.body.fields["servers"].items|)
      && (forall i | 0 <= i < |items| :: r.body.fields["servers"].items[i] == Project(items[i]))
  {
    match scan
    case ScanFailed => ErrorResponse(500, ListFailed)
    case Scanned(items) =>
      var servers := ProjectAll(ScannedItems(items));
      JsonResponse(200, JObject(map["servers" := JArray(servers), "count" := JNum(|servers|)]))
  }

  /** An empty scan, with or without an item list, is a 200 listing of nothing, not an error. */
  lemma EmptyScanListsNothing()
    ensures Handle(Scanned(Some([]))).status == 200
    ensures Handle(Scanned(Some([]))).body == JObject(map["servers" := JArray([]), "count" := JNum(0)])
    ensures Handle(Scanned(None)) == Handle(Scanned(Some([])))
  {
  }
}
