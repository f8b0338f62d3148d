/** Reads with related identities (persistence/fk_enrichment.py): the join plan and what a row maps to. */
module Enrichment {
  import opened Prelude
  import opened SearchSql
  import SearchPages

  datatype Attribute = Attribute(name: string, references: Option<string>)

  datatype Definition = Definition(name: string, attributes: seq<Attribute>, display: Option<string>, friendly: Option<string>)

  type Definitions = map<string, Definition>

  datatype JoinSpec = JoinSpec(source: string, table: string, alias: string,
                               displayColumn: Option<string>, friendlyColumn: Option<string>)
  {
    function DisplayAlias(): string { alias + "__display" }
    function FriendlyAlias(): string { alias + "__friendly" }
  }

  /** One entry of the SELECT list and the result column it fills. */
  datatype SelectItem = Source(column: string) | Joined(join: JoinSpec, column: string, name: string)

  datatype Plan = Plan(sources: seq<string>, joins: seq<JoinSpec>, select: seq<SelectItem>)

  datatype PlanError = UnknownClass | WrongUserClass

  // ---------- which columns are foreign keys ----------

  function FieldOf(a: Attribute, projected: seq<string>): seq<(string, string)> {
    if a.references.Some? && a.name in projected then [(a.name, a.references.value)] else []
  }

  function AuditField(column: string, projected: seq<string>): seq<(string, string)> {
    if column in projected then [(column, "user")] else []
  }

  function FkFields(d: Definition, projected: seq<string>): seq<(string, string)> {
    FlatMap(d.attributes, (a: Attribute) => FieldOf(a, projected))
    + AuditField("created_by", projected) + AuditField("updated_by", projected)
  }

  method ResolveFkFields(d: Definition, projected: seq<string>) returns (out: seq<(string, string)>)
    ensures out == FkFields(d, projected)
  {
    out := [];
    ghost var field := (a: Attribute) => FieldOf(a, projected);
    for i := 0 to |d.attributes|
      invariant out == FlatMap(d.attributes[..i], field)
    {
      FlatMapNext(d.attributes, i, field);
      var a := d.attributes[i];
      if a.references.Some? && a.name in projected {
        out := out + [(a.name, a.references.value)];
      }
    }
    assert d.attributes[..|d.attributes|] == d.attributes;
    if "created_by" in projected {
      out := out + [("created_by", "user")];
    }
    if "updated_by" in projected {
      out := out + [("updated_by", "user")];
    }
  }

  /** The class a column refers to, asked of one column at a time. */
  function TargetOf(d: Definition, column: string): Option<string> {
    if column in {"created_by", "updated_by"} then Some("user") else ReferenceOf(d.attributes, column)
  }

  function ReferenceOf(attributes: seq<Attribute>, column: string): (r: Option<string>)
    ensures r.Some? ==> Attribute(column, r) in attributes
    ensures r.None? ==> forall a :: a in attributes && a.name == column ==> a.references.None?
  {
    if attributes == [] then None
    else if attributes[0].name == column && attributes[0].references.Some? then attributes[0].references
    else ReferenceOf(attributes[1..], column)
  }

  /** Attribute names are unique and leave the audit columns to the platform. */
  ghost predicate ValidNames(d: Definition) {
    && (forall a, b :: a in d.attributes && b in d.attributes && a.name == b.name ==> a == b)
    && (forall a :: a in d.attributes ==> a.name !in {"created_by", "updated_by"})
  }

  /** The list of fields and the per-column lookup agree. */
  lemma FieldsAreTargets(d: Definition, projected: seq<string>, column: string, target: string)
    requires ValidNames(d)
    ensures (column, target) in FkFields(d, projected) <==> column in projected && TargetOf(d, column) == Some(target)
  {
    FlatMapMembers(d.attributes, (a: Attribute) => FieldOf(a, projected), (column, target));
    if column in projected && TargetOf(d, column) == Some(target) && column !in {"created_by", "updated_by"} {
      var a := Attribute(column, Some(target));
      assert a in d.attributes && (column, target) in FieldOf(a, projected);
    }
    if a :| a in d.attributes && (column, target) in FieldOf(a, projected) {
      assert a == Attribute(column, Some(target));
      var r := ReferenceOf(d.attributes, column);
      assert r.Some? ==> Attribute(column, r) == a;
    }
  }

  /** Column `column` refers to class `target`: an audit column to `user`, another by its attribute. */
  ghost predicate Refers(d: Definition, column: string, target: string) {
    if column == "created_by" || column == "updated_by" then target == "user"
    else exists a :: a in d.attributes && a.name == column && a.references == Some(target)
  }

  lemma TargetExactly(d: Definition, column: string, target: string)
    requires ValidNames(d)
    ensures TargetOf(d, column) == Some(target) <==> Refers(d, column, target)
  {
    if column != "created_by" && column != "updated_by" {
      if a :| a in d.attributes && a.name == column && a.references == Some(target) {
        var r := ReferenceOf(d.attributes, column);
        if r.Some? {
          assert Attribute(column, r) == a;
        }
      }
    }
  }

  // ---------- the plan ----------

  function JoinFor(column: string, target: Definition): JoinSpec {
    JoinSpec(column, target.name, "fk__" + column, target.display, target.friendly)
  }

  function AliasItems(j: JoinSpec): seq<SelectItem> {
    (if j.displayColumn.Some? then [Joined(j, j.displayColumn.value, j.DisplayAlias())] else [])
    + (if j.friendlyColumn.Some? then [Joined(j, j.friendlyColumn.value, j.FriendlyAlias())] else [])
  }

  function FieldError(f: (string, string), defs: Definitions): Option<PlanError> {
    if f.1 !in defs then Some(UnknownClass)
    else if f.1 == "user" && defs[f.1].name != "user" then Some(WrongUserClass)
    else None
  }

  /** Every projected reference has its class, and `user` is the user class. */
  ghost predicate Joinable(d: Definition, defs: Definitions, projected: seq<string>) {
    forall column, target :: column in projected && Refers(d, column, target) ==>
                               target in defs && (target == "user" ==> defs["user"].name == "user")
  }

  lemma JoinableExactly(d: Definition, defs: Definitions, projected: seq<string>)
    requires ValidNames(d)
    ensures (forall f :: f in FkFields(d, projected) ==> FieldError(f, defs).None?) <==> Joinable(d, defs, projected)
    ensures forall f :: FieldError(f, defs) == Some(UnknownClass) <==> f.1 !in defs
    ensures forall f :: FieldError(f, defs) == Some(WrongUserClass) ==> f.1 == "user" && defs["user"].name != "user"
  {
    forall column, target ensures (column, target) in FkFields(d, projected) <==> column in projected && Refers(d, column, target) {
      FieldsAreTargets(d, projected, column, target);
      TargetExactly(d, column, target);
    }
    forall f: (string, string) | f in FkFields(d, projected) ensures f.0 in projected && Refers(d, f.0, f.1) {
      assert f == (f.0, f.1);
    }
    if Joinable(d, defs, projected) {
      assert forall f :: f in FkFields(d, projected) ==> FieldError(f, defs).None?;
    }
    if forall f :: f in FkFields(d, projected) ==> FieldError(f, defs).None? {
      forall column, target | column in projected && Refers(d, column, target)
        ensures target in defs && (target == "user" ==> defs["user"].name == "user")
      {
        assert FieldError((column, target), defs).None?;
      }
    }
  }

  function JoinsOf(f: (string, string), defs: Definitions): seq<JoinSpec> {
    if f.1 in defs then [JoinFor(f.0, defs[f.1])] else []
  }

  function JoinsFor(fields: seq<(string, string)>, defs: Definitions): seq<JoinSpec> {
    FlatMap(fields, (f: (string, string)) => JoinsOf(f, defs))
  }

  function SourceItems(projected: seq<string>): seq<SelectItem> {
    seq(|projected|, i requires 0 <= i < |projected| => Source(projected[i]))
  }

  function PlanFor(d: Definition, defs: Definitions, projected: seq<string>): Plan {
    var joins := JoinsFor(FkFields(d, projected), defs);
    Plan(projected, joins, SourceItems(projected) + FlatMap(joins, AliasItems))
  }

  method BuildEnrichedReadPlan(d: Definition, defs: Definitions, projected: seq<string>) returns (r: Result<Plan, PlanError>)
    ensures r.Ok? <==> forall f :: f in FkFields(d, projected) ==> FieldError(f, defs).None?
    ensures r.Ok? ==> r.value == PlanFor(d, defs, projected)
    ensures r.Err? ==> exists f :: f in FkFields(d, projected) && FieldError(f, defs) == Some(r.error)
  {
    var fields := ResolveFkFields(d, projected);
    var joins: seq<JoinSpec> := [];
    var parts := SourceItems(projected);
    for i := 0 to |fields|
      invariant forall k :: 0 <= k < i ==> FieldError(fields[k], defs).None?
      invariant joins == JoinsFor(fields[..i], defs)
      invariant parts == SourceItems(projected) + FlatMap(joins, AliasItems)
    {
      var f := fields[i];
      assert f in fields;
      if f.1 !in defs {
        assert FieldError(f, defs) == Some(UnknownClass);
        return Err(UnknownClass);
      }
      var target := defs[f.1];
      if f.1 == "user" && target.name != "user" {
        assert FieldError(f, defs) == Some(WrongUserClass);
        return Err(WrongUserClass);
      }
      var spec := JoinSpec(f.0, target.name, "fk__" + f.0, target.display, target.friendly);
      NextJoin(fields, i, defs);
      OneMoreJoin(SourceItems(projected), joins, spec);
      joins := joins + [spec];
      parts := parts + AliasItems(spec);
    }
    assert fields[..|fields|] == fields;
    return Ok(Plan(projected, joins, parts));
  }

  lemma NextJoin(fields: seq<(string, string)>, i: nat, defs: Definitions)
    requires i < |fields| && fields[i].1 in defs
    ensures JoinsFor(fields[..i + 1], defs) == JoinsFor(fields[..i], defs) + [JoinFor(fields[i].0, defs[fields[i].1])]
  {
    FlatMapNext(fields, i, (f: (string, string)) => JoinsOf(f, defs));
  }

  lemma OneMoreJoin(sources: seq<SelectItem>, joins: seq<JoinSpec>, j: JoinSpec)
    ensures sources + FlatMap(joins + [j], AliasItems) == sources + FlatMap(joins, AliasItems) + AliasItems(j)
  {
    FlatMapSnoc(joins, j, AliasItems);
    ConcatAssoc(sources, FlatMap(joins, AliasItems), AliasItems(j));
  }

  // ---------- the result row ----------

  function OutputName(item: SelectItem): string {
    match item
    case Source(column) => column
    case Joined(_, _, name) => name
  }

  type Database = map<string, seq<Row>>

  /** The row that the LEFT JOIN of `j` puts beside `src`. */
  function Beside(src: Row, j: JoinSpec, db: Database): Row {
    SearchPages.Identity(src, SearchPages.Join(j.source, if j.table in db then db[j.table] else [], {}))
  }

  function ItemValue(item: SelectItem, src: Row, db: Database): Option<Value> {
    match item
    case Source(column) => Cell(src, column)
    case Joined(j, column, _) => Cell(Beside(src, j, db), column)
  }

  /** A row as a dictionary by column name: of two columns with one name the later wins. */
  function ResultRow(plan: Plan, src: Row, db: Database): map<string, Option<Value>> {
    var byName := Dict(plan.select, OutputName);
    map n | n in byName :: ItemValue(byName[n], src, db)
  }

  // ---------- mapping it back ----------

  datatype Item =
    | Plain(value: Option<Value>)
    | Related(id: Value, hasDisplay: bool, display: Option<string>, hasFriendly: bool, friendly: Option<string>)

  function TextOnly(v: Option<Value>): Option<string> {
    if v.Some? && v.value.Text? then Some(v.value.text) else None
  }

  function Get(row: map<string, Option<Value>>, name: string): Option<Value> {
    if name in row then row[name] else None
  }

  function JoinSource(j: JoinSpec): string { j.source }

  function MapItem(row: map<string, Option<Value>>, plan: Plan, name: string): Item {
    var joins := Dict(plan.joins, JoinSource);
    var value := Get(row, name);
    if name !in joins || value.None? then Plain(value)
    else
      var j := joins[name];
      Related(value.value,
              j.displayColumn.Some?, if j.displayColumn.Some? then TextOnly(Get(row, j.DisplayAlias())) else None,
              j.friendlyColumn.Some?, if j.friendlyColumn.Some? then TextOnly(Get(row, j.FriendlyAlias())) else None)
  }

  method MapEnrichedRow(row: map<string, Option<Value>>, plan: Plan) returns (out: map<string, Item>)
    ensures out == map n | n in plan.sources :: MapItem(row, plan, n)
  {
    var joins := Dict(plan.joins, JoinSource);
    out := map[];
    for i := 0 to |plan.sources|
      invariant out == map n | n in plan.sources[..i] :: MapItem(row, plan, n)
    {
      var name := plan.sources[i];
      assert plan.sources[..i + 1] == plan.sources[..i] + [name];
      var value := Get(row, name);
      if name !in joins {
        out := out[name := Plain(value)];
      } else if value.None? {
        out := out[name := Plain(None)];
      } else {
        var j := joins[name];
        var display: Option<string> := None;
        var friendly: Option<string> := None;
        if j.displayColumn.Some? {
          display := TextOnly(Get(row, j.DisplayAlias()));
        }
        if j.friendlyColumn.Some? {
          friendly := TextOnly(Get(row, j.FriendlyAlias()));
        }
        out := out[name := Related(value.value, j.displayColumn.Some?, display, j.friendlyColumn.Some?, friendly)];
      }
    }
    assert plan.sources[..|plan.sources|] == plan.sources;
  }

  // ---------- names never clash ----------

  /** Class and attribute names have no two underscores in a row. */
  predicate Snake(name: string) {
    forall i :: 0 <= i < |name| - 1 ==> !(name[i] == '_' && name[i + 1] == '_')
  }

  lemma AliasNotSnake(column: string, tail: string)
    ensures !Snake("fk__" + column + tail)
  {
    var s := "fk__" + column + tail;
    assert s[2] == '_' && s[2 + 1] == '_';
  }

  lemma AliasesApart(a: string, b: string)
    ensures "fk__" + a + "__display" != "fk__" + b + "__friendly"
    ensures "fk__" + a + "__display" == "fk__" + b + "__display" ==> a == b
    ensures "fk__" + a + "__friendly" == "fk__" + b + "__friendly" ==> a == b
  {
    CommonEnds(a, b, "__display");
    CommonEnds(a, b, "__friendly");
    var x, y := "fk__" + a + "__display", "fk__" + b + "__friendly";
    assert x[|x| - 2] == 'a' && y[|y| - 2] == 'l';
  }

  lemma CommonEnds(a: string, b: string, tail: string)
    ensures "fk__" + a + tail == "fk__" + b + tail ==> a == b
  {
    var x, y := "fk__" + a + tail, "fk__" + b + tail;
    assert x[4..4 + |a|] == a && y[4..4 + |b|] == b;
  }

  /** The joins of a plan: one for each projected foreign key, under its own alias. */
  lemma JoinMembers(d: Definition, defs: Definitions, projected: seq<string>, j: JoinSpec)
    requires ValidNames(d)
    ensures j in PlanFor(d, defs, projected).joins <==>
            && j.source in projected && TargetOf(d, j.source).Some? && TargetOf(d, j.source).value in defs
            && j == JoinFor(j.source, defs[TargetOf(d, j.source).value])
  {
    var fields := FkFields(d, projected);
    var f := (g: (string, string)) => JoinsOf(g, defs);
    FlatMapMembers(fields, f, j);
    if g :| g in fields && j in JoinsOf(g, defs) {
      FieldsAreTargets(d, projected, g.0, g.1);
      assert g == (g.0, g.1);
    }
    if j.source in projected && TargetOf(d, j.source).Some? && TargetOf(d, j.source).value in defs
       && j == JoinFor(j.source, defs[TargetOf(d, j.source).value]) {
      var g := (j.source, TargetOf(d, j.source).value);
      FieldsAreTargets(d, projected, g.0, g.1);
      assert j in f(g);
    }
  }

  lemma SelectMembers(plan: Plan, item: SelectItem)
    requires plan.select == SourceItems(plan.sources) + FlatMap(plan.joins, AliasItems)
    ensures item in plan.select <==>
            (item.Source? && item.column in plan.sources) || (exists j :: j in plan.joins && item in AliasItems(j))
  {
    FlatMapMembers(plan.joins, AliasItems, item);
    if item.Source? && item.column in plan.sources {
      var i :| 0 <= i < |plan.sources| && plan.sources[i] == item.column;
      assert SourceItems(plan.sources)[i] == item;
    }
    if j :| j in plan.joins && item in AliasItems(j) {
      assert item.Joined?;
    }
  }

  /** Different SELECT entries fill different result columns. */
  lemma OutputsApart(d: Definition, defs: Definitions, projected: seq<string>, x: SelectItem, y: SelectItem)
    requires ValidNames(d) && forall c :: c in projected ==> Snake(c)
    requires var plan := PlanFor(d, defs, projected); x in plan.select && y in plan.select
    requires OutputName(x) == OutputName(y)
    ensures x == y
  {
    var plan := PlanFor(d, defs, projected);
    SelectMembers(plan, x);
    SelectMembers(plan, y);
    match (x, y)
    case (Source(_), Source(_)) =>
    case (Source(c), Joined(_, _, _)) => JoinedNotSnake(d, defs, projected, y);
    case (Joined(_, _, _), Source(c)) => JoinedNotSnake(d, defs, projected, x);
    case (Joined(j, _, _), Joined(k, _, _)) =>
      JoinMembers(d, defs, projected, j);
      JoinMembers(d, defs, projected, k);
      AliasesApart(j.source, k.source);
      AliasesApart(k.source, j.source);
  }

  lemma JoinedNotSnake(d: Definition, defs: Definitions, projected: seq<string>, y: SelectItem)
    requires ValidNames(d) && y.Joined? && y in PlanFor(d, defs, projected).select
    ensures !Snake(y.name) && y.join in PlanFor(d, defs, projected).joins && y in AliasItems(y.join)
  {
    var plan := PlanFor(d, defs, projected);
    SelectMembers(plan, y);
    var j :| j in plan.joins && y in AliasItems(j);
    JoinMembers(d, defs, projected, j);
    AliasNotSnake(j.source, "__display");
    AliasNotSnake(j.source, "__friendly");
  }

  /** Every SELECT entry can be read back from the result row under its own name. */
  lemma ReadsBack(d: Definition, defs: Definitions, projected: seq<string>, x: SelectItem, src: Row, db: Database)
    requires ValidNames(d) && forall c :: c in projected ==> Snake(c)
    requires x in PlanFor(d, defs, projected).select
    ensures Get(ResultRow(PlanFor(d, defs, projected), src, db), OutputName(x)) == ItemValue(x, src, db)
  {
    var plan := PlanFor(d, defs, projected);
    DictSound(plan.select, OutputName);
    OutputsApart(d, defs, projected, Dict(plan.select, OutputName)[OutputName(x)], x);
  }

  // ---------- what an enriched item is ----------

  /** The referenced record's text in a column, when there is such a record and the column holds text. */
  ghost predicate ShowsText(rows: seq<Row>, id: Value, column: string, shown: Option<string>) {
    && (forall t :: t in rows && Cell(t, "id") == Some(id) ==>
          forall s :: shown == Some(s) <==> Cell(t, column) == Some(Text(s)))
    && ((forall t :: t in rows ==> Cell(t, "id") != Some(id)) ==> shown == None)
  }

  lemma BesideShows(src: Row, j: JoinSpec, db: Database, column: string)
    requires j.table in db && SearchPages.UniqueIds(db[j.table]) && Cell(src, j.source).Some?
    ensures ShowsText(db[j.table], Cell(src, j.source).value, column, TextOnly(Cell(Beside(src, j, db), column)))
  {
    var rows, id := db[j.table], Cell(src, j.source).value;
    var join := SearchPages.Join(j.source, rows, {});
    SearchPages.IdentityIsReferenced(src, join);
    SearchPages.UniqueIdsNoDup(rows);
    forall t | t in rows && Cell(t, "id") == Some(id)
      ensures TextOnly(Cell(Beside(src, j, db), column)) == TextOnly(Cell(t, column))
    {
      assert SearchPages.Identity(src, join) in rows;
    }
  }

  lemma PlainColumn(d: Definition, defs: Definitions, projected: seq<string>, src: Row, db: Database, name: string)
    requires ValidNames(d) && (forall c :: c in projected ==> Snake(c)) && name in projected
    ensures var plan := PlanFor(d, defs, projected);
            Get(ResultRow(plan, src, db), name) == Cell(src, name)
            && (name in Dict(plan.joins, JoinSource) <==> TargetOf(d, name).Some? && TargetOf(d, name).value in defs)
  {
    var plan := PlanFor(d, defs, projected);
    SelectMembers(plan, Source(name));
    ReadsBack(d, defs, projected, Source(name), src, db);
    DictSound(plan.joins, JoinSource);
    if name in Dict(plan.joins, JoinSource) {
      JoinMembers(d, defs, projected, Dict(plan.joins, JoinSource)[name]);
    }
    if TargetOf(d, name).Some? && TargetOf(d, name).value in defs {
      JoinMembers(d, defs, projected, JoinFor(name, defs[TargetOf(d, name).value]));
    }
  }

  lemma JoinOf(d: Definition, defs: Definitions, projected: seq<string>, name: string)
    requires ValidNames(d) && name in projected && TargetOf(d, name).Some? && TargetOf(d, name).value in defs
    ensures var plan := PlanFor(d, defs, projected);
            var j := JoinFor(name, defs[TargetOf(d, name).value]);
            && name in Dict(plan.joins, JoinSource) && Dict(plan.joins, JoinSource)[name] == j
            && j in plan.joins
  {
    var plan := PlanFor(d, defs, projected);
    var j := JoinFor(name, defs[TargetOf(d, name).value]);
    JoinMembers(d, defs, projected, j);
    DictSound(plan.joins, JoinSource);
    assert JoinSource(j) in Dict(plan.joins, JoinSource);
    JoinMembers(d, defs, projected, Dict(plan.joins, JoinSource)[name]);
  }

  lemma AliasValue(d: Definition, defs: Definitions, projected: seq<string>, src: Row, db: Database, item: SelectItem, j: JoinSpec)
    requires ValidNames(d) && (forall c :: c in projected ==> Snake(c))
    requires j in PlanFor(d, defs, projected).joins && item in AliasItems(j)
    ensures Get(ResultRow(PlanFor(d, defs, projected), src, db), OutputName(item)) == ItemValue(item, src, db)
  {
    SelectMembers(PlanFor(d, defs, projected), item);
    ReadsBack(d, defs, projected, item, src, db);
  }

  /**
   Planning, joining and mapping back together: a projected column that is no foreign key, or null, keeps
   its value; a foreign key becomes the referenced record's identity with exactly the texts that record
   has, or none when the record does not exist.
   */
  lemma EnrichedItem(d: Definition, defs: Definitions, projected: seq<string>, src: Row, db: Database, name: string)
    requires ValidNames(d) && (forall c :: c in projected ==> Snake(c)) && name in projected
    requires Joinable(d, defs, projected)
    requires forall t :: t in defs ==> defs[t].name in db && SearchPages.UniqueIds(db[defs[t].name])
    ensures var item := MapItem(ResultRow(PlanFor(d, defs, projected), src, db), PlanFor(d, defs, projected), name);
            var value := Cell(src, name);
            if TargetOf(d, name).None? || value.None? then item == Plain(value)
            else
              && TargetOf(d, name).value in defs
              && var target := defs[TargetOf(d, name).value];
                 && item.Related? && item.id == value.value
                 && item.hasDisplay == target.display.Some? && item.hasFriendly == target.friendly.Some?
                 && (target.display.Some? ==> ShowsText(db[target.name], item.id, target.display.value, item.display))
                 && (target.friendly.Some? ==> ShowsText(db[target.name], item.id, target.friendly.value, item.friendly))
                 && (target.display.None? ==> item.display == None) && (target.friendly.None? ==> item.friendly == None)
  {
    PlainColumn(d, defs, projected, src, db, name);
    JoinableExactly(d, defs, projected);
    if TargetOf(d, name).Some? {
      FieldsAreTargets(d, projected, name, TargetOf(d, name).value);
      assert FieldError((name, TargetOf(d, name).value), defs).None?;
      if Cell(src, name).Some? {
        RelatedItem(d, defs, projected, src, db, name);
      }
    }
  }

  lemma RelatedItem(d: Definition, defs: Definitions, projected: seq<string>, src: Row, db: Database, name: string)
    requires ValidNames(d) && (forall c :: c in projected ==> Snake(c)) && name in projected
    requires TargetOf(d, name).Some? && TargetOf(d, name).value in defs && Cell(src, name).Some?
    requires var t := defs[TargetOf(d, name).value].name; t in db && SearchPages.UniqueIds(db[t])
    ensures var item := MapItem(ResultRow(PlanFor(d, defs, projected), src, db), PlanFor(d, defs, projected), name);
            var target := defs[TargetOf(d, name).value];
            && item.Related? && item.id == Cell(src, name).value
            && item.hasDisplay == target.display.Some? && item.hasFriendly == target.friendly.Some?
            && (target.display.Some? ==> ShowsText(db[target.name], item.id, target.display.value, item.display))
            && (target.friendly.Some? ==> ShowsText(db[target.name], item.id, target.friendly.value, item.friendly))
            && (target.display.None? ==> item.display == None) && (target.friendly.None? ==> item.friendly == None)
  {
    var j := JoinFor(name, defs[TargetOf(d, name).value]);
    PlainColumn(d, defs, projected, src, db, name);
    JoinOf(d, defs, projected, name);
    if j.displayColumn.Some? {
      AliasValue(d, defs, projected, src, db, Joined(j, j.displayColumn.value, j.DisplayAlias()), j);
      BesideShows(src, j, db, j.displayColumn.value);
    }
    if j.friendlyColumn.Some? {
      AliasValue(d, defs, projected, src, db, Joined(j, j.friendlyColumn.value, j.FriendlyAlias()), j);
      BesideShows(src, j, db, j.friendlyColumn.value);
    }
  }
}
