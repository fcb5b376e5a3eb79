/** Properties that connect the CLI to the service: what the CLI sends is what the service
    accepts, and a record created through the service is listed by the CLI. */
module EndToEnd {
  import opened Wrappers
  import opened Json
  import opened Store
  import opened Models
  import opened Http
  import AddServer
  import ListServers
  import CliAddServer
  import CliUpdateConfig
  import CliListServers

  /** The body `add` sends decodes, on the service side, to exactly the request typed. */
  lemma AddBodyIsAccepted(server: string, path: string, description: Option<string>)
    ensures DecodeCreate(CliAddServer.Body(server, path, description)) == Some(CreateServerRequest(server, path, description))
  {
    var f := CliAddServer.Body(server, path, description).fields;
    assert RequiredString(f, "server_name") == Some(server);
    assert RequiredString(f, "config_file_path") == Some(path);
    assert OptionalString(f, "description") == Some(description);
  }

  /** The body `update` sends decodes, on the service side, to exactly the fields given. */
  lemma UpdateBodyIsAccepted(path: Option<string>, description: Option<string>)
    requires path.Some? || description.Some?
    ensures DecodeUpdate(CliUpdateConfig.Body(path, description).value) == Some(UpdateServerRequest(path, description))
  {
    var f := CliUpdateConfig.Body(path, description).value.fields;
    assert OptionalString(f, "config_file_path") == Some(path);
    assert OptionalString(f, "description") == Some(description);
  }

  /** The string an item holds under `key`, or `default`. */
  function AttrOr(item: Item, key: string, default: string): string {
    if key in item && item[key].S? then item[key].s else default
  }

  /** A column `list` shows for one of the listed attributes is the string the item holds
      under it, or the column's default. */
  lemma ShownAttr(item: Item, key: string, default: string)
    requires key in ListServers.KnownAttributes
    ensures CliListServers.StrOr(ListServers.Project(item), key, default) == AttrOr(item, key, default)
  {
  }

  /** The row `list` shows for a stored item: its string attributes, with "N/A" (or "" for
      the description) where the item has no string under the key. */
  lemma ListedRowOfItem(item: Item)
    ensures CliListServers.RowOf(ListServers.Project(item)) == CliListServers.ServerRow(
      AttrOr(item, "server_id", CliListServers.Missing),
      AttrOr(item, "server_name", CliListServers.Missing),
      AttrOr(item, "config_file_path", CliListServers.Missing),
      AttrOr(item, "description", ""),
      AttrOr(item, "created_at", CliListServers.Missing))
  {
    var known := ListServers.KnownAttributes;
    ShownAttr(item, known[0], CliListServers.Missing);
    ShownAttr(item, known[1], CliListServers.Missing);
    ShownAttr(item, known[2], CliListServers.Missing);
    ShownAttr(item, known[3], "");
    ShownAttr(item, known[4], CliListServers.Missing);
  }

  /** What `list` shows for the service's listing of `items`: nothing when there are no
      items, otherwise one row per item in order and their number as the total. */
  lemma ListingOfItems(items: seq<Item>)
    ensures var listing := CliListServers.Render(ListServers.Handle(ListServers.Scanned(Some(items))).body);
      && (|items| == 0 <==> listing.NoServers?)
      && (listing.Table? ==>
            && listing.total == |listing.rows| == |items|
            && forall i | 0 <= i < |items| :: listing.rows[i] == CliListServers.RowOf(ListServers.Project(items[i])))
  {
    var body := ListServers.Handle(ListServers.Scanned(Some(items))).body;
    var servers := body.fields["servers"];
    assert Index(body, "servers") == servers;
    assert |servers.items| == |items|;
  }

  /** A stored item that carries its key as `server_id` is shown with that key as its id. */
  lemma ListedIdOfItem(item: Item, id: string)
    requires "server_id" in item && item["server_id"] == S(id)
    ensures CliListServers.RowOf(ListServers.Project(item)).id == id
  {
    assert "server_id" in ListServers.KnownAttributes;
  }

  /** The rows `list` shows for a scan of a valid table: one per key, in scan order, each
      showing its key as the id. */
  lemma ListedIdsOfValidTable(t: Table, order: seq<string>)
    requires Valid(t)
    requires Enumerates(t, order)
    ensures var listing := CliListServers.Render(ListServers.Handle(ListServers.Scanned(Some(ScanItems(t, order)))).body);
      && (|t| == 0 <==> listing.NoServers?)
      && (listing.Table? ==> |listing.rows| == |order| && forall i | 0 <= i < |order| :: listing.rows[i].id == order[i])
  {
    ScanItemsOfEnumeration(t, order);
    EnumerationSize(t, order);
    var items := ScanItems(t, order);
    ListingOfItems(items);
    var listing := CliListServers.Render(ListServers.Handle(ListServers.Scanned(Some(items))).body);
    if listing.Table? {
      forall i | 0 <= i < |order|
        ensures listing.rows[i].id == order[i]
      {
        assert items[i] == t[order[i]];
        ListedIdOfItem(t[order[i]], order[i]);
      }
    }
  }

  /** A duplicate-free enumeration of a table is as long as the table. */
  lemma {:induction false} EnumerationSize(t: Table, order: seq<string>)
    requires Enumerates(t, order)
    ensures |order| == |t|
  {
    var keys := set i | 0 <= i < |order| :: order[i];
    assert keys == t.Keys;
    DistinctSize(order);
  }

  /** A sequence without repetitions has as many distinct elements as positions. */
  lemma {:induction false} DistinctSize(s: seq<string>)
    requires forall i, j | 0 <= i < j < |s| :: s[i] != s[j]
    ensures |set i | 0 <= i < |s| :: s[i]| == |s|
  {
    if |s| > 0 {
      var rest := s[1..];
      DistinctSize(rest);
      var front := set i | 0 <= i < |rest| :: rest[i];
      var all := set i | 0 <= i < |s| :: s[i];
      assert all == front + {s[0]} by {
        forall x | x in all ensures x in front + {s[0]} {
          var i :| 0 <= i < |s| && s[i] == x;
          if i > 0 { assert rest[i - 1] == x; }
        }
      }
      assert s[0] !in front;
    }
  }

  /** The strings the item an add stores holds under the listed columns' keys. */
  lemma NewItemStrings(req: CreateServerRequest, id: string, now: Timestamp)
    ensures var item := AddServer.NewItem(req, id, now);
      && AttrOr(item, "server_id", CliListServers.Missing) == id
      && AttrOr(item, "server_name", CliListServers.Missing) == req.serverName
      && AttrOr(item, "config_file_path", CliListServers.Missing) == req.configFilePath
      && AttrOr(item, "created_at", CliListServers.Missing) == now.rfc3339
  {
    assert RecordKeys <= KeysOf(req.description);
  }

  /** The description column for the item an add stores. */
  lemma NewItemDescription(req: CreateServerRequest, id: string, now: Timestamp)
    ensures AttrOr(AddServer.NewItem(req, id, now), "description", "") == req.description.GetOr("")
  {
    if req.description.None? {
      assert "description" !in RecordKeys;
    }
  }

  /** The row `list` shows for the item an add stores. */
  lemma ListedRowOfNewItem(req: CreateServerRequest, id: string, now: Timestamp)
    ensures CliListServers.RowOf(ListServers.Project(AddServer.NewItem(req, id, now)))
         == CliListServers.ServerRow(id, req.serverName, req.configFilePath, req.description.GetOr(""), now.rfc3339)
  {
    ListedRowOfItem(AddServer.NewItem(req, id, now));
    NewItemStrings(req, id, now);
    NewItemDescription(req, id, now);
  }

  /** After a successful add of the CLI's body to a valid table, the table is still valid
      and holds the requested record under the new id. */
  lemma AddStoresRequest(table: Table, server: string, path: string, description: Option<string>,
                         newId: string, now: Timestamp)
    requires Valid(table)
    ensures var t := AddServer.Handle(table, Text(WellFormed(CliAddServer.Body(server, path, description))), newId, now, false).1;
      && Valid(t)
      && newId in t
      && t[newId] == AddServer.NewItem(CreateServerRequest(server, path, description), newId, now)
  {
    var body := Text(WellFormed(CliAddServer.Body(server, path, description)));
    AddBodyIsAccepted(server, path, description);
    assert ReadJsonBody(body, DecodeCreate) == Success(CreateServerRequest(server, path, description));
    AddServer.HandlePreservesValid(table, body, newId, now, false);
  }

  /** Listing a valid table from a complete scan shows a stored key exactly once, as the
      row of its item. */
  lemma StoredKeyListedOnce(t: Table, order: seq<string>, id: string)
    requires Valid(t)
    requires Enumerates(t, order)
    requires id in t
    ensures var listing := CliListServers.Render(ListServers.Handle(ListServers.Scanned(Some(ScanItems(t, order)))).body);
      && listing.Table?
      && (exists i | 0 <= i < |listing.rows| :: listing.rows[i] == CliListServers.RowOf(ListServers.Project(t[id])))
      && (forall i, j | 0 <= i < j < |listing.rows| :: listing.rows[i].id != listing.rows[j].id)
  {
    var items := ScanItems(t, order);
    var listing := CliListServers.Render(ListServers.Handle(ListServers.Scanned(Some(items))).body);
    ScanItemsOfEnumeration(t, order);
    ListingOfItems(items);
    ListedIdsOfValidTable(t, order);
    var k :| 0 <= k < |order| && order[k] == id;
    assert listing.rows[k] == CliListServers.RowOf(ListServers.Project(items[k]));
  }

  /** A server added through the CLI and the service is then listed by the CLI exactly
      once, when the listing's scan returns the whole table, with the name, path and
      description it was added with, the description shown as "" when none was given, and
      its creation time. */
  lemma AddedServerIsListedOnce(table: Table, server: string, path: string, description: Option<string>,
                                newId: string, now: Timestamp, order: seq<string>)
    requires Valid(table)
    requires Enumerates(AddServer.Handle(table, Text(WellFormed(CliAddServer.Body(server, path, description))), newId, now, false).1, order)
    ensures var t := AddServer.Handle(table, Text(WellFormed(CliAddServer.Body(server, path, description))), newId, now, false).1;
      var listing := CliListServers.Render(ListServers.Handle(ListServers.Scanned(Some(ScanItems(t, order)))).body);
      && listing.Table?
      && (exists i | 0 <= i < |listing.rows| ::
            listing.rows[i] == CliListServers.ServerRow(newId, server, path, description.GetOr(""), now.rfc3339))
      && (forall i, j | 0 <= i < j < |listing.rows| :: listing.rows[i].id != listing.rows[j].id)
  {
    var t := AddServer.Handle(table, Text(WellFormed(CliAddServer.Body(server, path, description))), newId, now, false).1;
    AddStoresRequest(table, server, path, description, newId, now);
    StoredKeyListedOnce(t, order, newId);
    ListedRowOfNewItem(CreateServerRequest(server, path, description), newId, now);
  }
}
