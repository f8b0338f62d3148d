/** Small well-formed schema pairs on which the planner does not land, one for each condition. */
module DiffWitness {
  import opened Prelude
  import opened SchemaIR
  import opened Catalog
  import opened Ordering
  import opened SchemaDiff
  import opened DiffShape
  import opened DiffCorrect
  import opened DiffTheorems
  import opened DiffUnmanaged
  import TopoSort

  const EMPTY := SchemaIR([], [])

  /** The planner was given two well-formed schemas. */
  ghost predicate Planned(desired: SchemaIR, current: SchemaIR, defaults: Defaults, ops: seq<Op>, mentions: Mentions) {
    WellFormed(desired, mentions) && WellFormed(current, mentions) && IsPlan(desired, current, defaults, ops)
  }

  /** Without its condition a plan misses its target. */
  lemma Misses(desired: SchemaIR, current: SchemaIR, defaults: Defaults, ops: seq<Op>, mentions: Mentions)
    requires Planned(desired, current, defaults, ops, mentions)
    requires !Plannable(desired, current)
    ensures Run(CatalogOf(current), ops, mentions) != Some(Target(desired, current))
  {
    PlanLandsExactly(desired, current, defaults, ops, mentions);
  }

  function Pair(primaryKey: seq<string>): TableIR {
    TableIR("link", [ColumnIR("a", "text", false), ColumnIR("b", "text", false)], primaryKey, [], [], [])
  }

  lemma TwoKeys<T>(s: seq<T>, key: T -> string)
    requires |s| == 2 && key(s[0]) != key(s[1])
    ensures Dict(s, key) == map[key(s[0]) := s[0], key(s[1]) := s[1]]
  {
    assert s[..1] == [s[0]];
    assert Dict([s[0]], key) == map[key(s[0]) := s[0]];
  }

  lemma OneKey<T>(s: seq<T>, key: T -> string)
    requires |s| == 1
    ensures Dict(s, key) == map[key(s[0]) := s[0]]
  {
  }

  function PairSchema(primaryKey: seq<string>): SchemaIR { SchemaIR([Pair(primaryKey)], []) }

  lemma PairTables(primaryKey: seq<string>)
    ensures Tables(PairSchema(primaryKey)) == map["link" := Pair(primaryKey)]
    ensures Columns(Pair(primaryKey)) == map["a" := ColumnIR("a", "text", false), "b" := ColumnIR("b", "text", false)]
    ensures UniqueNames(PairSchema(primaryKey))
  {
    OneKey(PairSchema(primaryKey).tables, TableName);
    assert "a"[0] != "b"[0];
    TwoKeys(Pair(primaryKey).columns, ColumnName);
  }

  lemma PairColumns(primaryKey: seq<string>)
    ensures CatalogOf(PairSchema(primaryKey)).columns ==
            map[("link", "a") := ColumnState("text", false, false), ("link", "b") := ColumnState("text", false, false)]
  {
    PairTables(primaryKey);
    ColumnsDescribe(PairSchema(primaryKey), "link");
    var s := CatalogOf(PairSchema(primaryKey)).columns;
    forall k ensures k in s <==> k == ("link", "a") || k == ("link", "b") {
      assert k == (k.0, k.1);
    }
  }

  lemma PairParts(primaryKey: seq<string>)
    ensures Parts(Tables(PairSchema(primaryKey)), ForeignKeys) == map[]
    ensures Parts(Tables(PairSchema(primaryKey)), Indexes) == map[]
    ensures Parts(Tables(PairSchema(primaryKey)), Checks) == map[]
  {
    PairTables(primaryKey);
  }

  function PairCatalog(primaryKey: seq<string>): Catalog {
    Catalog(map["link" := primaryKey],
            map[("link", "a") := ColumnState("text", false, false), ("link", "b") := ColumnState("text", false, false)],
            map[], map[], map[], map[])
  }

  lemma PairIsCatalog(primaryKey: seq<string>)
    ensures CatalogOf(PairSchema(primaryKey)) == PairCatalog(primaryKey)
  {
    PairColumns(primaryKey);
    PairParts(primaryKey);
    PairKeys(primaryKey);
  }

  lemma PairKeys(primaryKey: seq<string>)
    ensures CatalogOf(PairSchema(primaryKey)).tables == map["link" := primaryKey]
    ensures CatalogOf(PairSchema(primaryKey)).sequences == map[]
  {
    PairTables(primaryKey);
  }

  lemma PairConsistent(primaryKey: seq<string>, mentions: Mentions)
    requires forall n :: n in primaryKey ==> n == "a" || n == "b"
    ensures Consistent(PairCatalog(primaryKey), mentions)
  {
  }

  lemma PairWellFormed(primaryKey: seq<string>, mentions: Mentions)
    requires forall n :: n in primaryKey ==> n == "a" || n == "b"
    ensures WellFormed(PairSchema(primaryKey), mentions)
  {
    PairTables(primaryKey);
    PairIsCatalog(primaryKey);
    PairConsistent(primaryKey, mentions);
  }

  lemma EmptyWellFormed(mentions: Mentions)
    ensures Tables(EMPTY) == map[] && WellFormed(EMPTY, mentions)
  {
  }

  lemma NotSimple()
    ensures !Plannable(PairSchema(["a", "b"]), EMPTY)
  {
    PairKeys(["a", "b"]);
    EmptyCatalog();
    assert "link" in CatalogOf(PairSchema(["a", "b"])).tables;
  }

  lemma CompositeWellFormed(mentions: Mentions)
    ensures WellFormed(PairSchema(["a", "b"]), mentions)
  {
    OnlyThese("a", "b");
    PairWellFormed(["a", "b"], mentions);
  }

  lemma OnlyThese(a: string, b: string)
    ensures forall n :: n in [a, b] ==> n == a || n == b
  {
  }

  lemma CompositePlanned(defaults: Defaults, ops: seq<Op>, mentions: Mentions)
    requires IsPlan(PairSchema(["a", "b"]), EMPTY, defaults, ops)
    ensures Planned(PairSchema(["a", "b"]), EMPTY, defaults, ops, mentions)
  {
    CompositeWellFormed(mentions);
    EmptyWellFormed(mentions);
  }

  lemma NoDropKeys<V(!new)>(desired: TableMap, kind: Kind<V>)
    ensures DropKeys(desired, map[], kind) == []
  {
    var none: TableMap := map[];
    assert desired.Keys * none.Keys == {} && none.Keys - desired.Keys == {};
  }

  lemma NoAddItems<V(!new)>(t: string, desired: TableMap, kind: Kind<V>)
    requires t in desired && kind.list(desired[t]) == []
    ensures AddItems([t], desired, map[], kind) == []
  {
    FlatMapOfOne(t, n => FreshItems(desired, map[], kind, n));
    assert Fresh([], kind.key, map[]) == [];
  }

  lemma OnlyOne(names: seq<string>, n: string)
    requires NoDup(names) && forall x :: x in names <==> x == n
    ensures names == [n]
  {
    assert Elements(names) == {n};
    TopoSort.SizeOfElements(names);
    assert names[0] in names;
  }

  lemma NoNames(names: seq<string>)
    requires NoDup(names) && forall x :: x !in names
    ensures names == []
  {
    assert Elements(names) == {};
    TopoSort.SizeOfElements(names);
  }

  lemma FlatMapOfOne<A, B>(x: A, f: A -> seq<B>)
    ensures FlatMap([x], f) == f(x)
  {
    FlatMapNext([x], 0, f);
    assert [x][..1] == [x] && [x][..0] == [];
  }

  /** For one new table without members the plan is its CREATE TABLE. */
  lemma PlanOfOne(desired: SchemaIR, t: TableIR, defaults: Defaults, o: Orders)
    requires Tables(desired) == map[t.name := t] && desired.sequences == []
    requires t.foreignKeys == [] && t.indexes == [] && t.checks == []
    requires ValidOrders(o, Tables(desired), Tables(EMPTY))
    ensures Plan(desired, EMPTY, defaults, o) == [CreateTable(Bare(t))]
  {
    var dt, ct := Tables(desired), Tables(EMPTY);
    assert ct == map[];
    OrderMembers(dt, ct, o);
    OnlyOne(o.creates, t.name);
    OnlyOne(o.links, t.name);
    SortedNamesNoDup(dt.Keys);
    OnlyOne(SortedNames(dt.Keys), t.name);
    NoNames(o.drops);
    NoDropKeys(dt, FOREIGN_KEYS);
    NoDropKeys(dt, INDEXES);
    NoDropKeys(dt, CHECKS);
    NoAddItems(t.name, dt, FOREIGN_KEYS);
    NoAddItems(t.name, dt, INDEXES);
    NoAddItems(t.name, dt, CHECKS);
    ShapeOfOne(desired, t, defaults, o);
  }

  lemma ShapeOfOne(desired: SchemaIR, t: TableIR, defaults: Defaults, o: Orders)
    requires Tables(desired) == map[t.name := t] && desired.sequences == []
    requires o.creates == [t.name] && o.drops == []
    ensures ShapePhase(desired, EMPTY, defaults, o) == [CreateTable(Bare(t))]
  {
    var dt, ct := Tables(desired), Tables(EMPTY);
    assert ct == map[] && dt.Keys * ct.Keys == {};
    assert Sequences(desired) == map[] && Sequences(EMPTY) == map[];
    FlatMapOfOne(t.name, n => CreateTableOp(dt, n));
  }

  lemma CompositePlan(defaults: Defaults, ops: seq<Op>)
    requires IsPlan(PairSchema(["a", "b"]), EMPTY, defaults, ops)
    ensures ops == [CreateTable(Bare(Pair(["a", "b"])))]
  {
    var desired := PairSchema(["a", "b"]);
    var o :| ValidOrders(o, Tables(desired), Tables(EMPTY)) && ops == Plan(desired, EMPTY, defaults, o);
    PairTables(["a", "b"]);
    PlanOfOne(desired, Pair(["a", "b"]), defaults, o);
  }

  lemma CreatesOne(c: Catalog, t: TableIR, mentions: Mentions)
    requires c == Catalog(map[], map[], map[], map[], map[], map[]) && DistinctKeys(t.columns, ColumnName)
    ensures var r := Run(c, [CreateTable(t)], mentions);
            r.Some? && r.value.tables == map[t.name := DdlPrimaryKey(t)]
  {
    RunOne(c, CreateTable(t), mentions);
  }

  lemma EmptyCatalog()
    ensures CatalogOf(EMPTY) == Catalog(map[], map[], map[], map[], map[], map[])
  {
    assert Tables(EMPTY) == map[] && Sequences(EMPTY) == map[];
  }

  lemma CompositeRuns(mentions: Mentions)
    ensures var r := Run(CatalogOf(EMPTY), [CreateTable(Bare(Pair(["a", "b"])))], mentions);
            r.Some? && r.value.tables == map["link" := []]
  {
    EmptyCatalog();
    assert "a"[0] != "b"[0];
    CreatesOne(CatalogOf(EMPTY), Bare(Pair(["a", "b"])), mentions);
    CompositeDdl();
  }

  lemma CompositeDdl()
    ensures DdlPrimaryKey(Bare(Pair(["a", "b"]))) == []
  {
    assert forall n: string :: |[n]| != |["a", "b"]|;
  }

  /** A new table with a composite primary key is created without it: every statement succeeds and the key is missing. */
  lemma CompositeKeyIsLost(defaults: Defaults, ops: seq<Op>, mentions: Mentions)
    requires IsPlan(PairSchema(["a", "b"]), EMPTY, defaults, ops)
    ensures Planned(PairSchema(["a", "b"]), EMPTY, defaults, ops, mentions)
    ensures var r := Run(CatalogOf(EMPTY), ops, mentions);
            r.Some? && r.value.tables == map["link" := []] && r != Some(Target(PairSchema(["a", "b"]), EMPTY))
  {
    CompositePlanned(defaults, ops, mentions);
    NotSimple();
    Misses(PairSchema(["a", "b"]), EMPTY, defaults, ops, mentions);
    CompositePlan(defaults, ops);
    CompositeRuns(mentions);
  }

  lemma DifferentKeys()
    ensures !Plannable(PairSchema(["a"]), PairSchema(["b"]))
  {
    PairKeys(["a"]);
    PairKeys(["b"]);
    assert "a"[0] != "b"[0];
    assert ["a"][0] != ["b"][0];
    assert "link" in CatalogOf(PairSchema(["a"])).tables && "link" in CatalogOf(PairSchema(["b"])).tables;
  }

  lemma SharedKeyStays(desired: SchemaIR, current: SchemaIR, t: string, defaults: Defaults, ops: seq<Op>, mentions: Mentions)
    requires Planned(desired, current, defaults, ops, mentions)
    requires t in Tables(desired) && t in Tables(current) && Run(CatalogOf(current), ops, mentions).Some?
    ensures var keys := Run(CatalogOf(current), ops, mentions).value.tables; t in keys && keys[t] == Tables(current)[t].primaryKey
  {
    KeysAfterPlan(desired, current, defaults, ops, mentions);
  }

  lemma ChangedKeyStays(defaults: Defaults, ops: seq<Op>, mentions: Mentions)
    requires Planned(PairSchema(["a"]), PairSchema(["b"]), defaults, ops, mentions)
    ensures var r := Run(CatalogOf(PairSchema(["b"])), ops, mentions);
            r.Some? ==> "link" in r.value.tables && r.value.tables["link"] == ["b"]
  {
    PairTables(["a"]);
    PairTables(["b"]);
    if Run(CatalogOf(PairSchema(["b"])), ops, mentions).Some? {
      SharedKeyStays(PairSchema(["a"]), PairSchema(["b"]), "link", defaults, ops, mentions);
    }
  }

  /** A changed primary key goes unnoticed: a plan that runs leaves the old one. */
  lemma ChangedKeyIsIgnored(defaults: Defaults, ops: seq<Op>, mentions: Mentions)
    requires IsPlan(PairSchema(["a"]), PairSchema(["b"]), defaults, ops)
    ensures Planned(PairSchema(["a"]), PairSchema(["b"]), defaults, ops, mentions)
    ensures var r := Run(CatalogOf(PairSchema(["b"])), ops, mentions);
            && r != Some(Target(PairSchema(["a"]), PairSchema(["b"])))
            && (r.Some? ==> "link" in r.value.tables && r.value.tables["link"] == ["b"])
  {
    PairWellFormed(["a"], mentions);
    PairWellFormed(["b"], mentions);
    ChangedKeyStays(defaults, ops, mentions);
    DifferentKeys();
    Misses(PairSchema(["a"]), PairSchema(["b"]), defaults, ops, mentions);
  }

  // ---------- a renamed unique index under a foreign key ----------

  const LINK := ForeignKeyIR("f", ["o"], "owner", ["c"])

  function Owner(index: string): TableIR {
    TableIR("owner", [ColumnIR("c", "text", false)], [], [], [IndexIR(index, ["c"], true)], [])
  }

  const ITEM := TableIR("item", [ColumnIR("o", "text", false)], [], [LINK], [], [])

  function Linked(index: string): SchemaIR { SchemaIR([Owner(index), ITEM], []) }

  function LinkedCatalog(index: string): Catalog {
    Catalog(map["owner" := [], "item" := []],
            map[("owner", "c") := ColumnState("text", false, false), ("item", "o") := ColumnState("text", false, false)],
            map[("item", "f") := LINK],
            map[("owner", index) := IndexIR(index, ["c"], true)],
            map[], map[])
  }

  lemma LinkedTables(index: string)
    ensures Tables(Linked(index)) == map["owner" := Owner(index), "item" := ITEM]
    ensures Columns(Owner(index)) == map["c" := ColumnIR("c", "text", false)]
    ensures Columns(ITEM) == map["o" := ColumnIR("o", "text", false)]
    ensures ForeignKeys(ITEM) == map["f" := LINK] && ForeignKeys(Owner(index)) == map[]
    ensures Indexes(Owner(index)) == map[index := IndexIR(index, ["c"], true)] && Indexes(ITEM) == map[]
    ensures UniqueNames(Linked(index))
  {
    assert "owner"[0] != "item"[0];
    TwoKeys(Linked(index).tables, TableName);
    OneKey(Owner(index).columns, ColumnName);
    OneKey(ITEM.columns, ColumnName);
    OneKey(ITEM.foreignKeys, ForeignKeyName);
    OneKey(Owner(index).indexes, IndexName);
  }

  lemma OnePart<V(!new)>(tables: TableMap, t: string, n: string, x: V, view: TableIR -> map<string, V>)
    requires t in tables && view(tables[t]) == map[n := x]
    requires forall u :: u in tables && u != t ==> view(tables[u]) == map[]
    ensures Parts(tables, view) == map[(t, n) := x]
  {
  }

  lemma NoParts<V(!new)>(tables: TableMap, view: TableIR -> map<string, V>)
    requires forall u :: u in tables ==> view(tables[u]) == map[]
    ensures Parts(tables, view) == map[]
  {
  }

  lemma LinkedParts(index: string)
    ensures Parts(Tables(Linked(index)), ForeignKeys) == map[("item", "f") := LINK]
    ensures Parts(Tables(Linked(index)), Indexes) == map[("owner", index) := IndexIR(index, ["c"], true)]
    ensures Parts(Tables(Linked(index)), Checks) == map[]
  {
    LinkedTables(index);
    OnePart(Tables(Linked(index)), "item", "f", LINK, ForeignKeys);
    OnePart(Tables(Linked(index)), "owner", index, IndexIR(index, ["c"], true), Indexes);
    NoParts(Tables(Linked(index)), Checks);
  }

  lemma TwoColumns(c: map<Key, ColumnState>, tables: TableMap, a: string, m: string, b: string, n: string)
    requires a != b && tables.Keys == {a, b}
    requires forall k :: k in c ==> k.0 in tables
    requires Columns(tables[a]).Keys == {m} && Columns(tables[b]).Keys == {n}
    requires Describes(c, a, tables[a]) && Describes(c, b, tables[b])
    ensures c == map[(a, m) := StateOf(Columns(tables[a])[m]), (b, n) := StateOf(Columns(tables[b])[n])]
  {
  }

  lemma LinkedColumns(index: string)
    ensures CatalogOf(Linked(index)).columns == LinkedCatalog(index).columns
  {
    LinkedTables(index);
    ColumnsDescribe(Linked(index), "owner");
    ColumnsDescribe(Linked(index), "item");
    assert "owner"[0] != "item"[0];
    TwoColumns(CatalogOf(Linked(index)).columns, Tables(Linked(index)), "owner", "c", "item", "o");
  }

  lemma LinkedKeys(index: string)
    ensures CatalogOf(Linked(index)).tables == LinkedCatalog(index).tables
  {
    LinkedTables(index);
  }

  lemma LinkedSequences(index: string)
    ensures CatalogOf(Linked(index)).sequences == LinkedCatalog(index).sequences
  {
  }

  lemma LinkedIsCatalog(index: string)
    ensures CatalogOf(Linked(index)) == LinkedCatalog(index)
  {
    LinkedColumns(index);
    LinkedParts(index);
    LinkedKeys(index);
    LinkedSequences(index);
  }

  lemma LinkedConsistent(index: string, mentions: Mentions)
    requires index != "owner" && index != "item"
    ensures Consistent(LinkedCatalog(index), mentions)
  {
    var c := LinkedCatalog(index);
    assert ("owner", index) in c.indexes;
    assert ForeignKeyFits(c, "item", LINK);
  }

  lemma LinkedWellFormed(index: string, mentions: Mentions)
    requires index != "owner" && index != "item"
    ensures WellFormed(Linked(index), mentions)
  {
    LinkedIsCatalog(index);
    LinkedTables(index);
    LinkedConsistent(index, mentions);
  }

  lemma RenamedNotStable(before: string, after: string)
    requires before != after
    ensures !StableKeys(LinkedCatalog(after), LinkedCatalog(before))
  {
    var d, c := LinkedCatalog(after), LinkedCatalog(before);
    assert Common(c.indexes, d.indexes) == map[];
    assert ("item", "f") in Common(c.fks, d.fks);
    assert !HasKey(c.tables["owner"], map[], "owner", LINK.referencedColumns);
  }

  lemma RenamedKeysAgree(before: string, after: string)
    ensures var d, c := CatalogOf(Linked(after)), CatalogOf(Linked(before)); SamePrimaryKeys(d, c) && SimpleNewKeys(d, c)
  {
    LinkedTables(after);
    LinkedTables(before);
  }

  /** The old index cannot be dropped while the kept foreign key still needs it. */
  lemma RenamedKeyGetsStuck(before: string, after: string, defaults: Defaults, ops: seq<Op>, mentions: Mentions)
    requires before != "owner" && before != "item" && after != "owner" && after != "item" && before != after
    requires IsPlan(Linked(after), Linked(before), defaults, ops)
    ensures Planned(Linked(after), Linked(before), defaults, ops, mentions)
    ensures var d, c := CatalogOf(Linked(after)), CatalogOf(Linked(before)); SamePrimaryKeys(d, c) && SimpleNewKeys(d, c)
    ensures Run(CatalogOf(Linked(before)), ops, mentions).None?
  {
    LinkedWellFormed(after, mentions);
    LinkedWellFormed(before, mentions);
    RenamedKeysAgree(before, after);
    LinkedIsCatalog(after);
    LinkedIsCatalog(before);
    RenamedNotStable(before, after);
    UnstableKeysGetStuck(Linked(after), Linked(before), defaults, ops, mentions);
  }

  // ---------- the same rename under a table that no class describes ----------

  const NAME_ONLY := TableIR("item", [], [], [], [], [])

  function Alone(index: string): SchemaIR { SchemaIR([Owner(index)], []) }

  function Shown(index: string): SchemaIR { SchemaIR([Owner(index), NAME_ONLY], []) }

  /** The owner's members; `tables` says which tables there are. */
  function OwnerCatalog(index: string, tables: map<string, seq<string>>): Catalog {
    Catalog(tables, map[("owner", "c") := ColumnState("text", false, false)], map[],
            map[("owner", index) := IndexIR(index, ["c"], true)], map[], map[])
  }

  lemma OwnerTables(index: string)
    ensures Tables(Alone(index)) == map["owner" := Owner(index)] && UniqueNames(Alone(index))
    ensures Tables(Shown(index)) == map["owner" := Owner(index), "item" := NAME_ONLY] && UniqueNames(Shown(index))
    ensures Columns(NAME_ONLY) == map[] && ForeignKeys(NAME_ONLY) == map[] && Indexes(NAME_ONLY) == map[] && Checks(NAME_ONLY) == map[]
  {
    LinkedTables(index);
    OneKey(Alone(index).tables, TableName);
    assert "owner"[0] != "item"[0];
    TwoKeys(Shown(index).tables, TableName);
  }

  lemma OwnerParts(s: SchemaIR, index: string)
    requires "owner" in Tables(s) && Tables(s)["owner"] == Owner(index)
    requires forall t :: t in Tables(s) && t != "owner" ==> Tables(s)[t] == NAME_ONLY
    ensures Parts(Tables(s), ForeignKeys) == map[] && Parts(Tables(s), Checks) == map[]
    ensures Parts(Tables(s), Indexes) == map[("owner", index) := IndexIR(index, ["c"], true)]
  {
    LinkedTables(index);
    OwnerTables(index);
    OnePart(Tables(s), "owner", index, IndexIR(index, ["c"], true), Indexes);
    NoParts(Tables(s), ForeignKeys);
    NoParts(Tables(s), Checks);
  }

  lemma OwnerColumns(s: SchemaIR, index: string)
    requires "owner" in Tables(s) && Tables(s)["owner"] == Owner(index)
    requires forall t :: t in Tables(s) && t != "owner" ==> Tables(s)[t] == NAME_ONLY
    ensures CatalogOf(s).columns == map[("owner", "c") := ColumnState("text", false, false)]
  {
    LinkedTables(index);
    OwnerTables(index);
    ColumnsDescribe(s, "owner");
    forall k ensures k in CatalogOf(s).columns <==> k == ("owner", "c") {
      assert k == (k.0, k.1);
      assert k in PartKeys(Tables(s), Columns) <==> k.0 in Tables(s) && k.1 in Columns(Tables(s)[k.0]);
    }
  }

  lemma AloneIsCatalog(index: string)
    ensures CatalogOf(Alone(index)) == OwnerCatalog(index, map["owner" := []])
  {
    OwnerTables(index);
    OwnerParts(Alone(index), index);
    OwnerColumns(Alone(index), index);
  }

  lemma ShownIsCatalog(index: string)
    ensures CatalogOf(Shown(index)) == OwnerCatalog(index, map["owner" := [], "item" := []])
  {
    OwnerTables(index);
    OwnerParts(Shown(index), index);
    OwnerColumns(Shown(index), index);
  }

  lemma AloneConsistent(index: string, mentions: Mentions)
    requires index != "owner"
    ensures Consistent(OwnerCatalog(index, map["owner" := []]), mentions)
  {
  }

  lemma LinkedIntrospects(index: string)
    ensures Introspects(LinkedCatalog(index), OwnerCatalog(index, map["owner" := [], "item" := []]), {"item"})
  {
    assert "owner"[0] != "item"[0];
  }

  lemma OwnerPlannable(before: string, after: string)
    ensures var d, c := OwnerCatalog(after, map["owner" := []]), OwnerCatalog(before, map["owner" := [], "item" := []]);
            SamePrimaryKeys(d, c) && SimpleNewKeys(d, c) && StableKeys(d, c) && c.tables.Keys - d.tables.Keys == {"item"}
  {
    assert "owner"[0] != "item"[0];
  }

  lemma LinkedIsShown(before: string, after: string, mentions: Mentions)
    requires before != "owner" && before != "item" && after != "owner"
    ensures ShownBy(LinkedCatalog(before), Alone(after), Shown(before), mentions)
    ensures HiddenTables(Alone(after), Shown(before)) == {"item"}
    ensures Plannable(Alone(after), Shown(before))
  {
    AloneIsCatalog(after);
    ShownIsCatalog(before);
    OwnerTables(before);
    LinkedIntrospects(before);
    OwnerPlannable(before, after);
    LinkedConsistent(before, mentions);
    AloneConsistent(after, mentions);
  }

  /** On a database whose snapshots satisfy every condition the drop is still refused. */
  lemma HiddenKeyGetsStuck(before: string, after: string, defaults: Defaults, ops: seq<Op>, mentions: Mentions)
    requires before != "owner" && before != "item" && after != "owner" && before != after
    requires IsPlan(Alone(after), Shown(before), defaults, ops)
    ensures ShownBy(LinkedCatalog(before), Alone(after), Shown(before), mentions) && Plannable(Alone(after), Shown(before))
    ensures Run(LinkedCatalog(before), ops, mentions).None?
  {
    LinkedIsShown(before, after, mentions);
    AloneIsCatalog(after);
    OwnerTables(after);
    AloneConsistent(after, mentions);
    HiddenNotSpared(before, after);
    UnsparedGetsStuck(LinkedCatalog(before), Alone(after), Shown(before), defaults, ops, mentions);
  }

  lemma HiddenNotSpared(before: string, after: string)
    requires before != after
    ensures !HiddenSpared(OwnerCatalog(after, map["owner" := []]), LinkedCatalog(before), {"item"})
  {
    var d, r := OwnerCatalog(after, map["owner" := []]), LinkedCatalog(before);
    assert Common(r.indexes, d.indexes) == map[];
    assert ("item", "f") in r.fks && !ReferenceSpared(d, r, r.fks[("item", "f")]);
  }
}
