/** handle_update_config: validate the body, check the id exists, build a partial update of
    the supplied fields plus `updated_at`, and apply it. */
module UpdateConfig {
  import opened Wrappers
  import opened Json
  import opened Store
  import opened Models
  import opened Http
  import opened Text

  const Updated200 := "Server updated successfully"
  const NotFound := "Server not found"
  const CheckFailed := "Failed to check server"
  const UpdateFailed := "Failed to update server"

  /** One `#attr = :attr` clause of a SET update expression: an attribute-name placeholder
      and an attribute-value placeholder. */
  datatype Clause = Clause(name: string, value: string)

  /** An update request as sent to the store: the clauses in order, and the maps that resolve
      their name and value placeholders. */
  datatype UpdatePlan = UpdatePlan(clauses: seq<Clause>, names: map<string, string>, values: map<string, AttrValue>)

  /** The clauses for the three attributes an update can set. */
  const PathClause := Clause("#config_file_path", ":config_file_path")
  const DescriptionClause := Clause("#description", ":description")
  const UpdatedAtClause := Clause("#updated_at", ":updated_at")

  /** The attribute each name placeholder stands for. */
  const AttributeNames: map<string, string> :=
    map["#config_file_path" := "config_file_path", "#description" := "description", "#updated_at" := "updated_at"]

  /** The position a clause for each attribute takes in the expression. */
  function Rank(c: Clause): int {
    if c == PathClause then 0
    else if c == DescriptionClause then 1
    else if c == UpdatedAtClause then 2
    else 3
  }

  /** The name placeholders the clauses use. */
  function NamePlaceholders(cs: seq<Clause>): set<string> {
    if |cs| == 0 then {} else {cs[0].name} + NamePlaceholders(cs[1..])
  }

  /** The value placeholders the clauses use. */
  function ValuePlaceholders(cs: seq<Clause>): set<string> {
    if |cs| == 0 then {} else {cs[0].value} + ValuePlaceholders(cs[1..])
  }

  /** The store accepts a plan only when every placeholder a clause uses is defined and
      every defined placeholder is used by some clause. */
  predicate WellFormed(p: UpdatePlan) {
    && p.names.Keys == NamePlaceholders(p.clauses)
    && p.values.Keys == ValuePlaceholders(p.clauses)
  }

  /** The placeholders of concatenated clause lists are the union of their placeholders. */
  lemma {:induction false} PlaceholdersOfConcat(a: seq<Clause>, b: seq<Clause>)
    ensures NamePlaceholders(a + b) == NamePlaceholders(a) + NamePlaceholders(b)
    ensures ValuePlaceholders(a + b) == ValuePlaceholders(a) + ValuePlaceholders(b)
  {
    if |a| > 0 {
      assert (a + b)[0] == a[0];
      assert (a + b)[1..] == a[1..] + b;
      PlaceholdersOfConcat(a[1..], b);
    } else {
      assert a + b == b;
    }
  }

  /** The placeholders of a single clause. */
  lemma PlaceholdersOfOne(c: Clause)
    ensures NamePlaceholders([c]) == {c.name}
    ensures ValuePlaceholders([c]) == {c.value}
  {
    assert [c][1..] == [];
  }

  /** update_config's expression builder: a clause for `config_file_path` when supplied, then
      one for `description` when supplied, then always one for `updated_at`, each with its
      name and value placeholders defined. */
  function BuildUpdate(req: UpdateServerRequest, now: Timestamp): (p: UpdatePlan)
    ensures "#config_file_path" in p.names <==> req.configFilePath.Some?
    ensures "#description" in p.names <==> req.description.Some?
    ensures ":config_file_path" in p.values <==> req.configFilePath.Some?
    ensures ":description" in p.values <==> req.description.Some?
    ensures "#updated_at" in p.names && ":updated_at" in p.values
    ensures p.values[":updated_at"] == S(now.rfc3339)
    ensures 1 <= |p.clauses| <= 3 && p.clauses[|p.clauses| - 1] == UpdatedAtClause
  {
    var (c1, n1, v1) :=
      if req.configFilePath.Some? then
        ([PathClause], map["#config_file_path" := "config_file_path"],
         map[":config_file_path" := S(req.configFilePath.value)])
      else ([], map[], map[]);
    var (c2, n2, v2) :=
      if req.description.Some? then
        (c1 + [DescriptionClause], n1["#description" := "description"],
         v1[":description" := S(req.description.value)])
      else (c1, n1, v1);
    UpdatePlan(c2 + [UpdatedAtClause], n2["#updated_at" := "updated_at"],
               v2[":updated_at" := S(now.rfc3339)])
  }

  /** The placeholder sets of the clause list built for `req`. */
  lemma PlanPlaceholders(req: UpdateServerRequest, now: Timestamp)
    ensures var p := BuildUpdate(req, now);
      && NamePlaceholders(p.clauses) == p.names.Keys
      && ValuePlaceholders(p.clauses) == p.values.Keys
  {
    var c1: seq<Clause> := if req.configFilePath.Some? then [PathClause] else [];
    var c2 := if req.description.Some? then c1 + [DescriptionClause] else c1;
    PlaceholdersOfOne(PathClause);
    PlaceholdersOfOne(DescriptionClause);
    PlaceholdersOfOne(UpdatedAtClause);
    PlaceholdersOfConcat(c1, [DescriptionClause]);
    PlaceholdersOfConcat(c2, [UpdatedAtClause]);
  }

  /** The built plan is accepted by the store and has one name and one value per clause, of
      which there are one to three. */
  lemma PlanIsWellFormed(req: UpdateServerRequest, now: Timestamp)
    ensures var p := BuildUpdate(req, now);
      && WellFormed(p)
      && 1 <= |p.clauses| <= 3
      && |p.names| == |p.values| == |p.clauses|
  {
    PlanPlaceholders(req, now);
  }

  /** The built plan has a `config_file_path` clause exactly when that field was supplied and
      a `description` clause exactly when that one was, in that order, and always ends with
      the `updated_at` clause. */
  lemma PlanClauseOrder(req: UpdateServerRequest, now: Timestamp)
    ensures var p := BuildUpdate(req, now);
      && |p.clauses| >= 1
      && p.clauses[|p.clauses| - 1] == UpdatedAtClause
      && (PathClause in p.clauses <==> req.configFilePath.Some?)
      && (DescriptionClause in p.clauses <==> req.description.Some?)
      && (forall i, j | 0 <= i < j < |p.clauses| :: Rank(p.clauses[i]) < Rank(p.clauses[j]))
  {
    var p := BuildUpdate(req, now);
    if req.configFilePath.Some? && req.description.Some? {
      assert p.clauses == [PathClause, DescriptionClause, UpdatedAtClause];
    } else if req.configFilePath.Some? {
      assert p.clauses == [PathClause, UpdatedAtClause];
    } else if req.description.Some? {
      assert p.clauses == [DescriptionClause, UpdatedAtClause];
    } else {
      assert p.clauses == [UpdatedAtClause];
    }
  }

  /** Every name placeholder of the built plan stands for the attribute its clause sets, and
      the values are the supplied strings and the current instant. */
  lemma PlanNamesAndValues(req: UpdateServerRequest, now: Timestamp)
    ensures var p := BuildUpdate(req, now);
      && (forall n | n in p.names :: n in AttributeNames && p.names[n] == AttributeNames[n])
      && ":updated_at" in p.values && p.values[":updated_at"] == S(now.rfc3339)
      && (req.configFilePath.Some? ==>
            ":config_file_path" in p.values && p.values[":config_file_path"] == S(req.configFilePath.value))
      && (req.description.Some? ==>
            ":description" in p.values && p.values[":description"] == S(req.description.value))
  {
  }

  /** The text of a clause, `#attr = :attr`. */
  function RenderClause(c: Clause): string {
    c.name + " = " + c.value
  }

  /** The update expression: the rendered clauses joined by ", ". */
  function Expression(p: UpdatePlan): string {
    Join(seq(|p.clauses|, i requires 0 <= i < |p.clauses| => RenderClause(p.clauses[i])), ", ")
  }

  /** The rendered clauses. */
  const PathText := "#config_file_path = :config_file_path"
  const DescriptionText := "#description = :description"
  const UpdatedAtText := "#updated_at = :updated_at"

  /** The expression text for each request shape: the supplied fields' clauses in their fixed
      order, separated by ", ", and always the `updated_at` clause last. */
  lemma ExpressionText(req: UpdateServerRequest, now: Timestamp)
    ensures req.configFilePath.Some? && req.description.Some? ==>
      Expression(BuildUpdate(req, now)) == PathText + ", " + DescriptionText + ", " + UpdatedAtText
    ensures req.configFilePath.Some? && req.description.None? ==>
      Expression(BuildUpdate(req, now)) == PathText + ", " + UpdatedAtText
    ensures req.configFilePath.None? && req.description.Some? ==>
      Expression(BuildUpdate(req, now)) == DescriptionText + ", " + UpdatedAtText
    ensures req.configFilePath.None? && req.description.None? ==>
      Expression(BuildUpdate(req, now)) == UpdatedAtText
  {
    var p := BuildUpdate(req, now);
    ClauseTexts();
    if req.configFilePath.Some? && req.description.Some? {
      assert p.clauses == [PathClause, DescriptionClause, UpdatedAtClause];
      RenderedClauses(p, [PathText, DescriptionText, UpdatedAtText]);
      JoinSmall(PathText, DescriptionText, UpdatedAtText, ", ");
    } else if req.configFilePath.Some? {
      assert p.clauses == [PathClause, UpdatedAtClause];
      RenderedClauses(p, [PathText, UpdatedAtText]);
      JoinSmall(PathText, UpdatedAtText, "", ", ");
    } else if req.description.Some? {
      assert p.clauses == [DescriptionClause, UpdatedAtClause];
      RenderedClauses(p, [DescriptionText, UpdatedAtText]);
      JoinSmall(DescriptionText, UpdatedAtText, "", ", ");
    } else {
      assert p.clauses == [UpdatedAtClause];
      RenderedClauses(p, [UpdatedAtText]);
      JoinSmall(UpdatedAtText, "", "", ", ");
    }
  }

  /** The text of each of the three clauses. */
  lemma ClauseTexts()
    ensures RenderClause(PathClause) == PathText
    ensures RenderClause(DescriptionClause) == DescriptionText
    ensures RenderClause(UpdatedAtClause) == UpdatedAtText
  {
    PathClauseText();
    DescriptionClauseText();
    UpdatedAtClauseText();
  }

  lemma PathClauseText()
    ensures RenderClause(PathClause) == PathText
  {
  }

  lemma DescriptionClauseText()
    ensures RenderClause(DescriptionClause) == DescriptionText
  {
  }

  lemma UpdatedAtClauseText()
    ensures RenderClause(UpdatedAtClause) == UpdatedAtText
  {
  }

  /** The expression of a plan whose clauses render to `texts`. */
  lemma RenderedClauses(p: UpdatePlan, texts: seq<string>)
    requires |p.clauses| == |texts|
    requires forall i | 0 <= i < |texts| :: RenderClause(p.clauses[i]) == texts[i]
    ensures Expression(p) == Join(texts, ", ")
  {
    assert seq(|p.clauses|, i requires 0 <= i < |p.clauses| => RenderClause(p.clauses[i])) == texts;
  }

  /** The store's effect of a SET update: each clause in turn writes its value under its
      attribute name. */
  function ApplyClauses(item: Item, clauses: seq<Clause>, names: map<string, string>, values: map<string, AttrValue>): Item
    requires NamePlaceholders(clauses) <= names.Keys && ValuePlaceholders(clauses) <= values.Keys
    decreases |clauses|
  {
    if |clauses| == 0 then item
    else ApplyClauses(item[names[clauses[0].name] := values[clauses[0].value]], clauses[1..], names, values)
  }

  /** The update the service means to make, stated directly: the supplied fields and
      `updated_at` take their new values, every other attribute keeps its value. */
  function Updated(item: Item, req: UpdateServerRequest, now: Timestamp): (r: Item)
    ensures r.Keys == item.Keys + {"updated_at"}
                    + (if req.configFilePath.Some? then {"config_file_path"} else {})
                    + (if req.description.Some? then {"description"} else {})
    ensures r["updated_at"] == S(now.rfc3339)
    ensures req.configFilePath.Some? ==> r["config_file_path"] == S(req.configFilePath.value)
    ensures req.description.Some? ==> r["description"] == S(req.description.value)
    ensures forall k | k in item && k != "updated_at"
                       && !(k == "config_file_path" && req.configFilePath.Some?)
                       && !(k == "description" && req.description.Some?) :: r[k] == item[k]
  {
    var a := if req.configFilePath.Some? then item["config_file_path" := S(req.configFilePath.value)] else item;
    var b := if req.description.Some? then a["description" := S(req.description.value)] else a;
    b["updated_at" := S(now.rfc3339)]
  }

  lemma ApplyStep(item: Item, c: Clause, rest: seq<Clause>, names: map<string, string>, values: map<string, AttrValue>)
    requires c.name in names && c.value in values
    requires NamePlaceholders(rest) <= names.Keys && ValuePlaceholders(rest) <= values.Keys
    ensures NamePlaceholders([c] + rest) <= names.Keys && ValuePlaceholders([c] + rest) <= values.Keys
    ensures ApplyClauses(item, [c] + rest, names, values)
         == ApplyClauses(item[names[c.name] := values[c.value]], rest, names, values)
  {
    assert ([c] + rest)[0] == c;
    assert ([c] + rest)[1..] == rest;
  }

  lemma ApplyNone(item: Item, names: map<string, string>, values: map<string, AttrValue>)
    ensures ApplyClauses(item, [], names, values) == item
  {
  }

  /** Applying the built plan makes exactly the intended update. */
  lemma PlanMakesIntendedUpdate(item: Item, req: UpdateServerRequest, now: Timestamp)
    ensures var p := BuildUpdate(req, now);
            && NamePlaceholders(p.clauses) <= p.names.Keys
            && ValuePlaceholders(p.clauses) <= p.values.Keys
            && ApplyClauses(item, p.clauses, p.names, p.values) == Updated(item, req, now)
  {
    PlanPlaceholders(req, now);
    var p := BuildUpdate(req, now);
    var vu := S(now.rfc3339);
    ApplyNone(item, p.names, p.values);
    PlaceholdersOfOne(UpdatedAtClause);
    if req.configFilePath.Some? && req.description.Some? {
      var vc := S(req.configFilePath.value);
      var vd := S(req.description.value);
      var i1 := item["config_file_path" := vc];
      var i2 := i1["description" := vd];
      ApplyNone(i2["updated_at" := vu], p.names, p.values);
      ApplyStep(i2, UpdatedAtClause, [], p.names, p.values);
      ApplyStep(i1, DescriptionClause, [UpdatedAtClause], p.names, p.values);
      ApplyStep(item, PathClause, [DescriptionClause] + [UpdatedAtClause], p.names, p.values);
      assert p.clauses == [PathClause] + ([DescriptionClause] + [UpdatedAtClause]);
    } else if req.configFilePath.Some? {
      var vc := S(req.configFilePath.value);
      var i1 := item["config_file_path" := vc];
      ApplyNone(i1["updated_at" := vu], p.names, p.values);
      ApplyStep(i1, UpdatedAtClause, [], p.names, p.values);
      ApplyStep(item, PathClause, [UpdatedAtClause], p.names, p.values);
      assert p.clauses == [PathClause] + [UpdatedAtClause];
    } else if req.description.Some? {
      var vd := S(req.description.value);
      var i1 := item["description" := vd];
      ApplyNone(i1["updated_at" := vu], p.names, p.values);
      ApplyStep(i1, UpdatedAtClause, [], p.names, p.values);
      ApplyStep(item, DescriptionClause, [UpdatedAtClause], p.names, p.values);
      assert p.clauses == [DescriptionClause] + [UpdatedAtClause];
    } else {
      ApplyNone(item["updated_at" := vu], p.names, p.values);
      ApplyStep(item, UpdatedAtClause, [], p.names, p.values);
      assert p.clauses == [UpdatedAtClause] + [];
    }
  }

  /** handle_update_config on `table`, with the current instant and the outcomes of the
      existence read and of the write passed in. The body is validated first (400, even for
      an unknown id), then a failed read gives 500 and an absent id 404, then a failed write
      gives 500; all of these leave the table as it was and create nothing. On success the
      record under the id changes only in the supplied fields and `updated_at`, no other key
      changes, and the 200 response echoes the id. */
  function Handle(table: Table, serverId: string, body: Body, now: Timestamp, readFails: bool, writeFails: bool)
    : (out: (Response, Table))
    ensures ReadJsonBody(body, DecodeUpdate).Failure? ==>
      out == (ReadJsonBody(body, DecodeUpdate).error, table) && out.0.status == 400
    ensures ReadJsonBody(body, DecodeUpdate).Success? && readFails ==>
      out == (ErrorResponse(500, CheckFailed), table)
    ensures ReadJsonBody(body, DecodeUpdate).Success? && !readFails && serverId !in table ==>
      out == (ErrorResponse(404, NotFound), table)
    ensures ReadJsonBody(body, DecodeUpdate).Success? && !readFails && serverId in table && writeFails ==>
      out == (ErrorResponse(500, UpdateFailed), table)
    ensures ReadJsonBody(body, DecodeUpdate).Success? && !readFails && serverId in table && !writeFails ==>
      && out.0 == JsonResponse(200, MessageObject(Updated200, serverId))
      && out.1 == table[serverId := Updated(table[serverId], ReadJsonBody(body, DecodeUpdate).value, now)]
    ensures out.1.Keys == table.Keys
  {
    match ReadJsonBody(body, DecodeUpdate)
    case Failure(resp) => (resp, table)
    case Success(req) =>
      if readFails then (ErrorResponse(500, CheckFailed), table)
      else if serverId !in table then (ErrorResponse(404, NotFound), table)
      else
        var p := BuildUpdate(req, now);
        PlanMakesIntendedUpdate(table[serverId], req, now);
        if writeFails then (ErrorResponse(500, UpdateFailed), table)
        else
          (JsonResponse(200, MessageObject(Updated200, serverId)),
           table[serverId := ApplyClauses(table[serverId], p.clauses, p.names, p.values)])
  }

  /** Updating keeps the record invariant: `server_id` is never among the updated attributes. */
  lemma HandlePreservesValid(table: Table, serverId: string, body: Body, now: Timestamp, readFails: bool, writeFails: bool)
    requires Valid(table)
    ensures Valid(Handle(table, serverId, body, now, readFails, writeFails).1)
  {
  }
}
