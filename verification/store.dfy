/** The key-value table behind the service: each table maps a `server_id` to an item, and an
    item maps attribute names to DynamoDB attribute values. */
module Store {

  /** DynamoDB's `AttributeValue`, restricted to the variants the service can meet. */
  datatype AttrValue =
    | S(s: string)
    | N(n: string)
    | Bool(b: bool)
    | Null
    | L(list: seq<AttrValue>)
    | M(fields: map<string, AttrValue>)

  type Item = map<string, AttrValue>

  /** One table, keyed by `server_id`. */
  type Table = map<string, Item>

  /** All tables, keyed by table name. */
  type Database = map<string, Table>

  /** The record invariant every handler keeps: the item stored under a key carries that key
      as its `server_id` string attribute. */
  predicate Valid(t: Table) {
    forall id | id in t :: "server_id" in t[id] && t[id]["server_id"] == S(id)
  }

  /** The keys of `order` are exactly the keys of `t`, each listed once: the order in which a
      complete scan (one page, every item present) returns the table's items. */
  predicate Enumerates(t: Table, order: seq<string>) {
    && (forall i | 0 <= i < |order| :: order[i] in t)
    && (forall i, j | 0 <= i < j < |order| :: order[i] != order[j])
    && (forall id | id in t :: id in order)
  }

  /** The items a scan returns when it visits the keys of `order`, skipping keys that are not
      in the table. */
  function ScanItems(t: Table, order: seq<string>): (items: seq<Item>)
    ensures |items| <= |order|
    ensures forall i | 0 <= i < |items| :: items[i] in t.Values
  {
    if |order| == 0 then []
    else (if order[0] in t then [t[order[0]]] else []) + ScanItems(t, order[1..])
  }

  /** When `order` enumerates the table, the scan returns exactly one item per key, in that order. */
  lemma {:induction false} ScanItemsOfEnumeration(t: Table, order: seq<string>)
    requires forall i | 0 <= i < |order| :: order[i] in t
    ensures |ScanItems(t, order)| == |order|
    ensures forall i | 0 <= i < |order| :: ScanItems(t, order)[i] == t[order[i]]
  {
    if |order| > 0 {
      var rest := order[1..];
      assert forall i | 0 <= i < |rest| :: rest[i] == order[i + 1];
      ScanItemsOfEnumeration(t, rest);
      var items := ScanItems(t, order);
      assert items == [t[order[0]]] + ScanItems(t, rest);
      forall i | 0 <= i < |order|
        ensures items[i] == t[order[i]]
      {
        if i > 0 {
          assert items[i] == ScanItems(t, rest)[i - 1];
        }
      }
    }
  }
}
