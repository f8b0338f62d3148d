/** What the planner promises as a whole, and exactly when. */
module DiffTheorems {
  import opened Prelude
  import opened Ordering
  import opened SchemaIR
  import opened Catalog
  import opened SchemaDiff
  import opened DiffMembers
  import opened DiffRuns
  import opened DiffShape
  import opened DiffCorrect
  import opened Serialize
  import CatalogLaws

  // ---------- landing implies the conditions ----------

  /** Operations of a plan that create or drop a table, and which tables they name. */
  predicate TableOpFits(op: Op, desired: TableMap, current: TableMap) {
    match op
    case CreateTable(table) =>
      table.name in desired && table.name !in current && table == Bare(desired[table.name])
    case DropTable(t) => t in current && t !in desired
    case _ => true
  }

  lemma ReshapeFits(desired: TableMap, current: TableMap, t: string, op: Op)
    requires op in ReshapeOps(desired, current, t)
    ensures !op.CreateTable? && !op.DropTable?
  {
    var d, c := desired[t], current[t];
    var alters := FlatMap(SortedNames(Columns(d).Keys * Columns(c).Keys), n => AlterColumn(d, c, n));
    if op in alters {
      FlatMapMembers(SortedNames(Columns(d).Keys * Columns(c).Keys), n => AlterColumn(d, c, n), op);
      var n :| op in AlterColumn(d, c, n);
    }
  }

  lemma GrowFits(desired: TableMap, current: TableMap, defaults: Defaults, t: string, op: Op)
    requires op in GrowOps(desired, current, defaults, t)
    ensures !op.CreateTable? && !op.DropTable?
  {
    var d, c := desired[t], current[t];
    FlatMapMembers(SortBy(d.columns, ColumnName, StrLe), col => AddColumnOps(t, c, col, defaults), op);
    var col :| op in AddColumnOps(t, c, col, defaults);
  }

  lemma ShapeFits(desired: SchemaIR, current: SchemaIR, defaults: Defaults, o: Orders, op: Op)
    requires forall t :: t in Tables(desired) ==> Tables(desired)[t].name == t
    requires forall t :: t in o.drops ==> t in Tables(current) && t !in Tables(desired)
    requires forall t :: t in o.creates ==> t in Tables(desired) && t !in Tables(current)
    requires op in ShapePhase(desired, current, defaults, o)
    ensures TableOpFits(op, Tables(desired), Tables(current))
  {
    var d, c := Tables(desired), Tables(current);
    var shared := SortedNames(d.Keys * c.Keys);
    var missing := SortedNames(Sequences(desired).Keys - Sequences(current).Keys);
    var a := FlatMap(shared, t => ReshapeOps(d, c, t));
    var e := FlatMap(o.creates, t => CreateTableOp(d, t));
    var f := FlatMap(shared, t => GrowOps(d, c, defaults, t));
    var g := FlatMap(missing, n => CreateSequenceOp(Sequences(desired), n));
    if op in a {
      FlatMapMembers(shared, t => ReshapeOps(d, c, t), op);
      var t :| op in ReshapeOps(d, c, t);
      ReshapeFits(d, c, t, op);
    } else if op in DropTableOps(o.drops) {
    } else if op in DropSequenceOps(SortedNames(Sequences(current).Keys - Sequences(desired).Keys)) {
    } else if op in e {
      FlatMapMembers(o.creates, t => CreateTableOp(d, t), op);
    } else if op in f {
      FlatMapMembers(shared, t => GrowOps(d, c, defaults, t), op);
      var t :| op in GrowOps(d, c, defaults, t);
      GrowFits(d, c, defaults, t, op);
    } else {
      assert op in g;
      FlatMapMembers(missing, n => CreateSequenceOp(Sequences(desired), n), op);
    }
  }

  lemma ConstraintOpsFit(fks: seq<Key>, indexes: seq<Key>, checks: seq<Key>, op: Op)
    requires op in DropForeignKeyOps(fks) + DropIndexOps(indexes) + DropCheckOps(checks)
    ensures !op.CreateTable? && !op.DropTable?
  {
  }

  lemma AttachOpsFit(indexes: seq<(string, IndexIR)>, fks: seq<(string, ForeignKeyIR)>, checks: seq<(string, CheckIR)>,
                     op: Op)
    requires op in CreateIndexOps(indexes) + AddForeignKeyOps(fks) + AddCheckOps(checks)
    ensures !op.CreateTable? && !op.DropTable?
  {
  }

  lemma PlanFits(desired: SchemaIR, current: SchemaIR, defaults: Defaults, o: Orders, op: Op)
    requires forall t :: t in Tables(desired) ==> Tables(desired)[t].name == t
    requires ValidOrders(o, Tables(desired), Tables(current))
    requires op in Plan(desired, current, defaults, o)
    ensures TableOpFits(op, Tables(desired), Tables(current))
  {
    var d, c := Tables(desired), Tables(current);
    OrderMembers(d, c, o);
    if op in DetachPhase(d, c) {
      ConstraintOpsFit(DropKeys(d, c, FOREIGN_KEYS), DropKeys(d, c, INDEXES), DropKeys(d, c, CHECKS), op);
    } else if op in ShapePhase(desired, current, defaults, o) {
      ShapeFits(desired, current, defaults, o, op);
    } else {
      assert op in AttachPhase(d, c, o);
      AttachOpsFit(AddItems(SortedNames(d.Keys), d, c, INDEXES), AddItems(o.links, d, c, FOREIGN_KEYS),
                   AddItems(SortedNames(d.Keys), d, c, CHECKS), op);
    }
  }

  lemma LandingKeys(d: Catalog, c: Catalog, dt: TableMap, ct: TableMap, ops: seq<Op>, mentions: Mentions)
    requires d.tables.Keys == dt.Keys && c.tables.Keys == ct.Keys
    requires forall t :: t in dt ==> d.tables[t] == dt[t].primaryKey && dt[t].name == t
    requires forall op :: op in ops ==> TableOpFits(op, dt, ct)
    requires Run(c, ops, mentions).Some? && Run(c, ops, mentions).value.tables == d.tables
    ensures SamePrimaryKeys(d, c) && SimpleNewKeys(d, c)
  {
    forall t | t in d.tables && t in c.tables ensures d.tables[t] == c.tables[t] {
      CatalogLaws.PrimaryKeyFixed(c, ops, t, mentions);
    }
    forall t | t in d.tables && t !in c.tables ensures |d.tables[t]| <= 1 {
      CatalogLaws.CreatedPrimaryKey(c, ops, Bare(dt[t]), mentions);
    }
  }

  lemma LandingStable(d: Catalog, c: Catalog, fks: seq<Key>, indexes: seq<Key>, rest: seq<Op>, mentions: Mentions)
    requires NoDup(fks) && forall k :: k in fks ==> k in c.fks
    requires forall k :: k in indexes ==> k in c.indexes
    requires c.fks - Elements(fks) == Common(c.fks, d.fks)
    requires c.indexes - Elements(indexes) == Common(c.indexes, d.indexes)
    requires Consistent(c, mentions)
    requires Run(c, DropForeignKeyOps(fks) + DropIndexOps(indexes) + rest, mentions).Some?
    ensures StableKeys(d, c)
  {
    var prefix := DropForeignKeyOps(fks) + DropIndexOps(indexes);
    RunConcat(c, prefix, rest, mentions);
    RunConcat(c, DropForeignKeyOps(fks), DropIndexOps(indexes), mentions);
    RunDropFks(c, fks, mentions);
    var c1 := c.(fks := Common(c.fks, d.fks));
    DroppedIndexes(c1, indexes, mentions);
    CatalogLaws.RunKeepsConsistent(c, prefix, mentions);
    var c2 := c1.(indexes := Common(c.indexes, d.indexes));
    forall k | k in c2.fks && c.fks[k].referencedTable in c.tables
      ensures HasKey(c.tables[c.fks[k].referencedTable], c2.indexes, c.fks[k].referencedTable, c.fks[k].referencedColumns)
    {
      assert ForeignKeyFits(c2, k.0, c2.fks[k]);
    }
  }

  lemma PlanPrefix(desired: SchemaIR, current: SchemaIR, defaults: Defaults, o: Orders) returns (rest: seq<Op>)
    ensures Plan(desired, current, defaults, o) ==
            DropForeignKeyOps(DropKeys(Tables(desired), Tables(current), FOREIGN_KEYS))
            + DropIndexOps(DropKeys(Tables(desired), Tables(current), INDEXES)) + rest
  {
    rest := DropCheckOps(DropKeys(Tables(desired), Tables(current), CHECKS))
            + ShapePhase(desired, current, defaults, o) + AttachPhase(Tables(desired), Tables(current), o);
  }

  lemma LandingStableKeys(desired: SchemaIR, current: SchemaIR, d: Catalog, c: Catalog, defaults: Defaults,
                          ops: seq<Op>, mentions: Mentions)
    requires IsPlan(desired, current, defaults, ops) && Snapshot(c, Tables(current), Sequences(current))
    requires Members(d, Tables(desired)) && Members(c, Tables(current)) && Consistent(c, mentions)
    requires Run(c, ops, mentions).Some?
    ensures StableKeys(d, c)
  {
    var dt, ct := Tables(desired), Tables(current);
    var o :| ValidOrders(o, dt, ct) && ops == Plan(desired, current, defaults, o);
    var rest := PlanPrefix(desired, current, defaults, o);
    DistinctEverywhere(c, ct, Sequences(current));
    DroppedKeys(dt, ct, FOREIGN_KEYS, ForeignKeys);
    DroppedKeys(dt, ct, INDEXES, Indexes);
    LandingStable(d, c, DropKeys(dt, ct, FOREIGN_KEYS), DropKeys(dt, ct, INDEXES), rest, mentions);
  }

  lemma RunPlanExactly(desired: SchemaIR, current: SchemaIR, d: Catalog, c: Catalog, defaults: Defaults, ops: seq<Op>,
                       mentions: Mentions)
    requires IsPlan(desired, current, defaults, ops)
    requires Snapshot(d, Tables(desired), Sequences(desired)) && Snapshot(c, Tables(current), Sequences(current))
    requires Members(d, Tables(desired)) && Members(c, Tables(current))
    requires Consistent(d, mentions) && Consistent(c, mentions)
    ensures Run(c, ops, mentions) == Some(TargetCatalog(d, c)) <==>
            SamePrimaryKeys(d, c) && SimpleNewKeys(d, c) && StableKeys(d, c)
  {
    var dt, ct := Tables(desired), Tables(current);
    if SamePrimaryKeys(d, c) && SimpleNewKeys(d, c) && StableKeys(d, c) {
      RunPlan(desired, current, d, c, defaults, ops, mentions);
    }
    if Run(c, ops, mentions) == Some(TargetCatalog(d, c)) {
      var o :| ValidOrders(o, dt, ct) && ops == Plan(desired, current, defaults, o);
      forall op | op in ops ensures TableOpFits(op, dt, ct) {
        PlanFits(desired, current, defaults, o, op);
      }
      LandingKeys(d, c, dt, ct, ops, mentions);
      LandingStableKeys(desired, current, d, c, defaults, ops, mentions);
    }
  }

  /** The plan runs without a refused statement and lands on the desired catalog exactly when it is plannable. */
  lemma PlanLandsExactly(desired: SchemaIR, current: SchemaIR, defaults: Defaults, ops: seq<Op>, mentions: Mentions)
    requires WellFormed(desired, mentions) && WellFormed(current, mentions) && IsPlan(desired, current, defaults, ops)
    ensures Run(CatalogOf(current), ops, mentions) == Some(Target(desired, current)) <==> Plannable(desired, current)
  {
    CatalogIsSnapshot(desired);
    CatalogIsSnapshot(current);
    RunPlanExactly(desired, current, CatalogOf(desired), CatalogOf(current), defaults, ops, mentions);
  }

  /** A kept foreign key without a kept key stops every plan: the server refuses a statement. */
  lemma UnstableKeysGetStuck(desired: SchemaIR, current: SchemaIR, defaults: Defaults, ops: seq<Op>, mentions: Mentions)
    requires WellFormed(desired, mentions) && WellFormed(current, mentions) && IsPlan(desired, current, defaults, ops)
    requires !StableKeys(CatalogOf(desired), CatalogOf(current))
    ensures Run(CatalogOf(current), ops, mentions).None?
  {
    CatalogIsSnapshot(desired);
    CatalogIsSnapshot(current);
    if Run(CatalogOf(current), ops, mentions).Some? {
      LandingStableKeys(desired, current, CatalogOf(desired), CatalogOf(current), defaults, ops, mentions);
    }
  }

  /** Whatever the desired keys are, a plan that runs leaves shared tables theirs and gives new ones what CREATE TABLE wrote. */
  lemma KeysAfterPlan(desired: SchemaIR, current: SchemaIR, defaults: Defaults, ops: seq<Op>, mentions: Mentions)
    requires WellFormed(desired, mentions) && WellFormed(current, mentions) && IsPlan(desired, current, defaults, ops)
    requires Run(CatalogOf(current), ops, mentions).Some?
    ensures var dt, ct := Tables(desired), Tables(current);
            var keys := Run(CatalogOf(current), ops, mentions).value.tables;
            && (forall t :: t in dt && t in ct ==> t in keys && keys[t] == ct[t].primaryKey)
            && (forall t :: t in dt && t !in ct && t in keys ==> keys[t] == DdlPrimaryKey(Bare(dt[t])))
  {
    CatalogIsSnapshot(desired);
    CatalogIsSnapshot(current);
    PlanTableOps(desired, current, defaults, ops);
    KeysAfterRun(CatalogOf(current), Tables(desired), Tables(current), ops, mentions);
  }

  lemma KeysAfterRun(c: Catalog, dt: TableMap, ct: TableMap, ops: seq<Op>, mentions: Mentions)
    requires c.tables.Keys == ct.Keys && forall t :: t in dt ==> dt[t].name == t
    requires forall op :: op in ops ==> TableOpFits(op, dt, ct)
    requires Run(c, ops, mentions).Some?
    ensures forall t :: t in dt && t in ct ==>
              t in Run(c, ops, mentions).value.tables && Run(c, ops, mentions).value.tables[t] == c.tables[t]
    ensures forall t :: t in dt && t !in ct && t in Run(c, ops, mentions).value.tables ==>
              Run(c, ops, mentions).value.tables[t] == DdlPrimaryKey(Bare(dt[t]))
  {
    var keys := Run(c, ops, mentions).value.tables;
    forall t | t in dt && t in ct ensures t in keys && keys[t] == c.tables[t] {
      CatalogLaws.PrimaryKeyFixed(c, ops, t, mentions);
    }
    forall t | t in dt && t !in ct && t in keys ensures keys[t] == DdlPrimaryKey(Bare(dt[t])) {
      CatalogLaws.CreatedPrimaryKey(c, ops, Bare(dt[t]), mentions);
    }
  }

  lemma PlanTableOps(desired: SchemaIR, current: SchemaIR, defaults: Defaults, ops: seq<Op>)
    requires forall t :: t in Tables(desired) ==> Tables(desired)[t].name == t
    requires IsPlan(desired, current, defaults, ops)
    ensures forall op :: op in ops ==> TableOpFits(op, Tables(desired), Tables(current))
  {
    var o :| ValidOrders(o, Tables(desired), Tables(current)) && ops == Plan(desired, current, defaults, o);
    forall op | op in ops ensures TableOpFits(op, Tables(desired), Tables(current)) {
      PlanFits(desired, current, defaults, o, op);
    }
  }

  /** A plan the safety gate lets through loses no table, column, key, index or sequence. */
  lemma GatedPlanPreserves(desired: SchemaIR, current: SchemaIR, defaults: Defaults, ops: seq<Op>, mentions: Mentions)
    requires WellFormed(desired, mentions) && WellFormed(current, mentions) && IsPlan(desired, current, defaults, ops)
    requires Plannable(desired, current) && forall op :: op in ops ==> !op.Destructive()
    ensures CatalogLaws.Preserves(CatalogOf(current), Target(desired, current))
  {
    PlannableLands(desired, current, defaults, ops, mentions);
    CatalogLaws.NonDestructiveRunPreserves(CatalogOf(current), ops, mentions);
  }

  // ---------- the empty plan ----------

  /** Equal in everything but sequence starts. */
  ghost predicate Equivalent(d: Catalog, c: Catalog) {
    && d.tables == c.tables && d.columns == c.columns && d.fks == c.fks
    && d.indexes == c.indexes && d.checks == c.checks && d.sequences.Keys == c.sequences.Keys
  }

  lemma SameParts'<V(!new)>(a: TableMap, b: TableMap, view: TableIR -> map<string, V>)
    requires a.Keys == b.Keys
    ensures Parts(a, view) == Parts(b, view) <==> forall t :: t in a ==> view(a[t]) == view(b[t])
  {
    PartsMembers(a, view);
    PartsMembers(b, view);
    if Parts(a, view) == Parts(b, view) {
      forall t | t in a ensures view(a[t]) == view(b[t]) {
        forall n ensures n in view(a[t]) <==> n in view(b[t]) {
          assert (t, n) in Parts(a, view) <==> (t, n) in Parts(b, view);
        }
        forall n | n in view(a[t]) ensures view(a[t])[n] == view(b[t])[n] {
          assert (t, n) in Parts(a, view);
        }
      }
    }
  }

  lemma DescribedSame(d: Catalog, c: Catalog, t: string, x: TableIR, y: TableIR)
    requires Describes(d.columns, t, x) && Describes(c.columns, t, y) && d.columns == c.columns
    ensures Columns(x) == Columns(y)
  {
    DictSound(x.columns, ColumnName);
    DictSound(y.columns, ColumnName);
    forall n ensures n in Columns(x) <==> n in Columns(y) {
      assert (t, n) in d.columns <==> (t, n) in c.columns;
    }
    forall n | n in Columns(x) ensures Columns(x)[n] == Columns(y)[n] {
      assert d.columns[(t, n)] == StateOf(Columns(x)[n]);
      assert c.columns[(t, n)] == StateOf(Columns(y)[n]);
    }
  }

  lemma SameDescribed(d: Catalog, c: Catalog, a: TableMap, b: TableMap)
    requires ColumnsConsistent(d) && ColumnsConsistent(c) && a.Keys == b.Keys == d.tables.Keys == c.tables.Keys
    requires forall t :: t in a ==> Describes(d.columns, t, a[t]) && Describes(c.columns, t, b[t])
    requires forall t :: t in a ==> Columns(a[t]) == Columns(b[t])
    ensures d.columns == c.columns
  {
    forall k ensures k in d.columns <==> k in c.columns {
      if k.0 in a {
        assert k == (k.0, k.1);
      }
    }
    forall k | k in d.columns ensures d.columns[k] == c.columns[k] {
      assert k == (k.0, k.1) && k.0 in a;
    }
  }

  lemma SameColumnsDescribed(d: Catalog, c: Catalog, a: TableMap, b: TableMap)
    requires ColumnsConsistent(d) && ColumnsConsistent(c) && a.Keys == b.Keys == d.tables.Keys == c.tables.Keys
    requires forall t :: t in a ==> Describes(d.columns, t, a[t]) && Describes(c.columns, t, b[t])
    ensures d.columns == c.columns <==> forall t :: t in a ==> Columns(a[t]) == Columns(b[t])
  {
    if d.columns == c.columns {
      forall t | t in a ensures Columns(a[t]) == Columns(b[t]) {
        DescribedSame(d, c, t, a[t], b[t]);
      }
    }
    if forall t :: t in a ==> Columns(a[t]) == Columns(b[t]) {
      SameDescribed(d, c, a, b);
    }
  }

  lemma EquivalentMeansSame(a: SchemaIR, b: SchemaIR, d: Catalog, c: Catalog)
    requires Snapshot(d, Tables(a), Sequences(a)) && Snapshot(c, Tables(b), Sequences(b))
    requires Members(d, Tables(a)) && Members(c, Tables(b)) && ColumnsConsistent(d) && ColumnsConsistent(c)
    requires Equivalent(d, c)
    ensures SameSchema(a, b)
  {
    SameParts'(Tables(a), Tables(b), ForeignKeys);
    SameParts'(Tables(a), Tables(b), Indexes);
    SameParts'(Tables(a), Tables(b), Checks);
    SameColumnsDescribed(d, c, Tables(a), Tables(b));
  }

  lemma SameTablesSnapshot(a: SchemaIR, b: SchemaIR, d: Catalog, c: Catalog)
    requires Snapshot(d, Tables(a), Sequences(a)) && Snapshot(c, Tables(b), Sequences(b))
    requires ColumnsConsistent(d) && ColumnsConsistent(c) && SameSchema(a, b)
    ensures d.tables == c.tables && d.columns == c.columns && d.sequences.Keys == c.sequences.Keys
  {
    SameDescribed(d, c, Tables(a), Tables(b));
  }

  lemma SameConstraints(a: SchemaIR, b: SchemaIR, d: Catalog, c: Catalog)
    requires Members(d, Tables(a)) && Members(c, Tables(b)) && SameSchema(a, b)
    ensures d.fks == c.fks && d.indexes == c.indexes && d.checks == c.checks
  {
    SameParts'(Tables(a), Tables(b), ForeignKeys);
    SameParts'(Tables(a), Tables(b), Indexes);
    SameParts'(Tables(a), Tables(b), Checks);
  }

  lemma SameMeansEquivalent(a: SchemaIR, b: SchemaIR, d: Catalog, c: Catalog)
    requires Snapshot(d, Tables(a), Sequences(a)) && Snapshot(c, Tables(b), Sequences(b))
    requires Members(d, Tables(a)) && Members(c, Tables(b)) && ColumnsConsistent(d) && ColumnsConsistent(c)
    requires SameSchema(a, b)
    ensures Equivalent(d, c)
  {
    SameTablesSnapshot(a, b, d, c);
    SameConstraints(a, b, d, c);
  }

  lemma SameCatalogs(a: SchemaIR, b: SchemaIR, d: Catalog, c: Catalog)
    requires Snapshot(d, Tables(a), Sequences(a)) && Snapshot(c, Tables(b), Sequences(b))
    requires Members(d, Tables(a)) && Members(c, Tables(b)) && ColumnsConsistent(d) && ColumnsConsistent(c)
    ensures SameSchema(a, b) <==> Equivalent(d, c)
  {
    if Equivalent(d, c) {
      EquivalentMeansSame(a, b, d, c);
    }
    if SameSchema(a, b) {
      SameMeansEquivalent(a, b, d, c);
    }
  }

  lemma {:induction false} FlatMapEmpty<A(!new), B>(xs: seq<A>, f: A -> seq<B>)
    ensures FlatMap(xs, f) == [] <==> forall x :: x in xs ==> f(x) == []
  {
    if xs != [] {
      FlatMapEmpty(xs[..|xs| - 1], f);
      assert xs == xs[..|xs| - 1] + [xs[|xs| - 1]];
    }
  }

  lemma MinusSomething<V>(m: map<Key, V>, keys: seq<Key>)
    requires keys != [] && keys[0] in m
    ensures m - Elements(keys) != m
  {
  }

  lemma SomeItemKey<V(!new)>(items: seq<(string, V)>, key: V -> string)
    requires items != []
    ensures ItemKeys(items, key) != {}
  {
    assert (items[0].0, key(items[0].1)) in ItemKeys(items, key);
  }

  lemma NothingStale<V(!new)>(desired: TableMap, current: TableMap, kind: Kind<V>, view: TableIR -> map<string, V>)
    requires forall t :: view(t) == kind.View(t)
    requires DistinctMembers(current, kind) && Parts(current, view) == Parts(desired, view)
    ensures DropKeys(desired, current, kind) == []
  {
    DroppedKeys(desired, current, kind, view);
    var keys := DropKeys(desired, current, kind);
    assert Common(Parts(current, view), Parts(desired, view)) == Parts(current, view);
    if keys != [] {
      MinusSomething(Parts(current, view), keys);
    }
  }

  lemma NothingFresh<V(!new)>(order: seq<string>, desired: TableMap, current: TableMap, kind: Kind<V>,
                              view: TableIR -> map<string, V>)
    requires forall t :: view(t) == kind.View(t)
    requires DistinctMembers(desired, kind) && NoDup(order) && forall t :: t in order <==> t in desired
    requires Parts(current, view) == Parts(desired, view)
    ensures AddItems(order, desired, current, kind) == []
  {
    AddedItems(order, desired, current, kind, view);
    var items := AddItems(order, desired, current, kind);
    assert ItemKeys(items, kind.key) == {};
    if items != [] {
      SomeItemKey(items, kind.key);
    }
  }

  lemma SameShapeEmpty(desired: SchemaIR, current: SchemaIR, defaults: Defaults, o: Orders)
    requires SameSchema(desired, current) && UniqueNames(desired)
    requires ValidOrders(o, Tables(desired), Tables(current))
    ensures ShapePhase(desired, current, defaults, o) == []
  {
    var d, c := Tables(desired), Tables(current);
    var shared := SortedNames(d.Keys * c.Keys);
    OrderMembers(d, c, o);
    DictComplete(desired.tables, TableName);
    forall t | t in shared ensures ReshapeOps(d, c, t) == [] {
      SameTableReshape(d[t], c[t]);
    }
    forall t | t in shared ensures GrowOps(d, c, defaults, t) == [] {
      SameTableGrow(t, d[t], c[t], defaults);
    }
    FlatMapEmpty(shared, t => ReshapeOps(d, c, t));
    FlatMapEmpty(shared, t => GrowOps(d, c, defaults, t));
    assert forall t :: t !in o.drops && t !in o.creates;
    NoElements(o.drops);
    NoElements(o.creates);
    assert Sequences(current).Keys - Sequences(desired).Keys == {};
    assert Sequences(desired).Keys - Sequences(current).Keys == {};
  }

  lemma NoElements<T(!new)>(s: seq<T>)
    ensures (forall x :: x !in s) ==> s == []
  {
    if s != [] {
      assert s[0] in s;
    }
  }

  lemma SameTableReshape(d: TableIR, c: TableIR)
    requires Columns(d) == Columns(c)
    ensures ColumnOps(d, c) == []
  {
    assert Columns(c).Keys - Columns(d).Keys == {};
    var names := SortedNames(Columns(d).Keys * Columns(c).Keys);
    FlatMapEmpty(names, n => AlterColumn(d, c, n));
  }

  lemma SameTableGrow(t: string, d: TableIR, c: TableIR, defaults: Defaults)
    requires Columns(d) == Columns(c) && UniqueMembers(d)
    ensures AddColumnsOf(t, d, c, defaults) == []
  {
    SortedNoDup(d.columns, ColumnName);
    DictComplete(d.columns, ColumnName);
    FlatMapEmpty(SortBy(d.columns, ColumnName, StrLe), col => AddColumnOps(t, c, col, defaults));
  }

  lemma SameDetachesNothing(dt: TableMap, ct: TableMap, d: Catalog, c: Catalog, ds: map<string, SequenceIR>,
                            cs: map<string, SequenceIR>)
    requires Snapshot(d, dt, ds) && Snapshot(c, ct, cs) && Members(d, dt) && Members(c, ct) && Equivalent(d, c)
    ensures DetachPhase(dt, ct) == []
  {
    DistinctEverywhere(c, ct, cs);
    NothingStale(dt, ct, FOREIGN_KEYS, ForeignKeys);
    NothingStale(dt, ct, INDEXES, Indexes);
    NothingStale(dt, ct, CHECKS, Checks);
  }

  lemma SameAttachesNothing(dt: TableMap, ct: TableMap, d: Catalog, c: Catalog, ds: map<string, SequenceIR>, o: Orders)
    requires Snapshot(d, dt, ds) && Members(d, dt) && Members(c, ct) && Equivalent(d, c) && ValidOrders(o, dt, ct)
    ensures AttachPhase(dt, ct, o) == []
  {
    var names := SortedNames(dt.Keys);
    SortedNamesNoDup(dt.Keys);
    OrderMembers(dt, ct, o);
    DistinctEverywhere(d, dt, ds);
    NothingFresh(names, dt, ct, INDEXES, Indexes);
    NothingFresh(o.links, dt, ct, FOREIGN_KEYS, ForeignKeys);
    NothingFresh(names, dt, ct, CHECKS, Checks);
  }

  lemma SameSchemaEmptyPlan(desired: SchemaIR, current: SchemaIR, d: Catalog, c: Catalog, defaults: Defaults, ops: seq<Op>)
    requires UniqueNames(desired) && IsPlan(desired, current, defaults, ops) && SameSchema(desired, current)
    requires Snapshot(d, Tables(desired), Sequences(desired)) && Snapshot(c, Tables(current), Sequences(current))
    requires Members(d, Tables(desired)) && Members(c, Tables(current)) && Equivalent(d, c)
    ensures ops == []
  {
    var dt, ct := Tables(desired), Tables(current);
    var o :| ValidOrders(o, dt, ct) && ops == Plan(desired, current, defaults, o);
    SameDetachesNothing(dt, ct, d, c, Sequences(desired), Sequences(current));
    SameShapeEmpty(desired, current, defaults, o);
    SameAttachesNothing(dt, ct, d, c, Sequences(desired), o);
  }

  lemma EmptyParts(desired: SchemaIR, current: SchemaIR, defaults: Defaults, ops: seq<Op>) returns (o: Orders)
    requires IsPlan(desired, current, defaults, ops) && ops == []
    ensures ValidOrders(o, Tables(desired), Tables(current))
    ensures DropKeys(Tables(desired), Tables(current), INDEXES) == []
    ensures FlatMap(o.creates, t => CreateTableOp(Tables(desired), t)) == []
  {
    o :| ValidOrders(o, Tables(desired), Tables(current)) && ops == Plan(desired, current, defaults, o);
    var indexes := DropIndexOps(DropKeys(Tables(desired), Tables(current), INDEXES));
    assert |indexes| == |DropKeys(Tables(desired), Tables(current), INDEXES)|;
    assert |DetachPhase(Tables(desired), Tables(current))| == 0;
    assert |ShapePhase(desired, current, defaults, o)| == 0;
  }

  lemma NoCreates(desired: TableMap, current: TableMap, o: Orders)
    requires ValidOrders(o, desired, current) && FlatMap(o.creates, t => CreateTableOp(desired, t)) == []
    ensures desired.Keys <= current.Keys
  {
    OrderMembers(desired, current, o);
    FlatMapEmpty(o.creates, t => CreateTableOp(desired, t));
    forall t | t in desired ensures t in current {
      assert CreateTableOp(desired, t) != [];
    }
  }

  lemma UnchangedIndexesStable(d: Catalog, c: Catalog)
    requires ForeignKeysConsistent(c) && c.indexes == Common(c.indexes, d.indexes)
    ensures StableKeys(d, c)
  {
  }

  lemma NoneGone<V>(m: map<Key, V>, keys: seq<Key>)
    requires keys == []
    ensures m - Elements(keys) == m
  {
  }

  lemma NoStaleIndexes(d: Catalog, c: Catalog, dt: TableMap, ct: TableMap, cs: map<string, SequenceIR>)
    requires Snapshot(c, ct, cs) && Members(d, dt) && Members(c, ct) && ForeignKeysConsistent(c)
    requires DropKeys(dt, ct, INDEXES) == []
    ensures StableKeys(d, c)
  {
    DistinctEverywhere(c, ct, cs);
    DroppedKeys(dt, ct, INDEXES, Indexes);
    NoneGone(c.indexes, DropKeys(dt, ct, INDEXES));
    UnchangedIndexesStable(d, c);
  }

  lemma EmptyPlanPlannable(desired: SchemaIR, current: SchemaIR, d: Catalog, c: Catalog, defaults: Defaults, ops: seq<Op>)
    requires IsPlan(desired, current, defaults, ops) && ops == []
    requires Snapshot(d, Tables(desired), Sequences(desired)) && Snapshot(c, Tables(current), Sequences(current))
    requires Members(d, Tables(desired)) && Members(c, Tables(current)) && ForeignKeysConsistent(c)
    ensures SimpleNewKeys(d, c) && StableKeys(d, c)
  {
    var o := EmptyParts(desired, current, defaults, ops);
    NoCreates(Tables(desired), Tables(current), o);
    NoStaleIndexes(d, c, Tables(desired), Tables(current), Sequences(current));
  }

  lemma EmptyPlanLands(desired: SchemaIR, current: SchemaIR, d: Catalog, c: Catalog, defaults: Defaults, ops: seq<Op>,
                       mentions: Mentions)
    requires IsPlan(desired, current, defaults, ops) && ops == [] && SamePrimaryKeys(d, c)
    requires Snapshot(d, Tables(desired), Sequences(desired)) && Snapshot(c, Tables(current), Sequences(current))
    requires Members(d, Tables(desired)) && Members(c, Tables(current))
    requires Consistent(d, mentions) && Consistent(c, mentions)
    ensures Equivalent(d, c)
  {
    EmptyPlanPlannable(desired, current, d, c, defaults, ops);
    RunPlan(desired, current, d, c, defaults, ops, mentions);
    assert Run(c, ops, mentions) == Some(c);
  }

  lemma EquivalentKeys(d: Catalog, c: Catalog)
    requires d.tables == c.tables
    ensures SamePrimaryKeys(d, c)
  {
  }

  /** No-op detection: the plan is empty exactly when the canonical forms agree, up to primary keys. */
  lemma EmptyPlanExactly(desired: SchemaIR, current: SchemaIR, defaults: Defaults, ops: seq<Op>, mentions: Mentions)
    requires WellFormed(desired, mentions) && WellFormed(current, mentions) && IsPlan(desired, current, defaults, ops)
    ensures ops == [] && SamePrimaryKeys(CatalogOf(desired), CatalogOf(current)) <==> CanonicalDict(desired) == CanonicalDict(current)
  {
    CatalogIsSnapshot(desired);
    CatalogIsSnapshot(current);
    CanonicalFaithful(desired, current);
    SameCatalogs(desired, current, CatalogOf(desired), CatalogOf(current));
    if SameSchema(desired, current) {
      SameSchemaEmptyPlan(desired, current, CatalogOf(desired), CatalogOf(current), defaults, ops);
      EquivalentKeys(CatalogOf(desired), CatalogOf(current));
    }
    if ops == [] && SamePrimaryKeys(CatalogOf(desired), CatalogOf(current)) {
      EmptyPlanLands(desired, current, CatalogOf(desired), CatalogOf(current), defaults, ops, mentions);
    }
  }

  /** Migrating is idempotent: the migrated schema has the desired canonical form and re-diffs to nothing. */
  lemma MigratedSchemaIsStable(desired: SchemaIR, before: SchemaIR, after: SchemaIR, defaults: Defaults, ops: seq<Op>,
                               mentions: Mentions)
    requires WellFormed(desired, mentions) && WellFormed(after, mentions)
    requires CatalogOf(after) == Target(desired, before) && IsPlan(desired, after, defaults, ops)
    ensures ops == [] && CanonicalDict(after) == CanonicalDict(desired)
  {
    CatalogIsSnapshot(desired);
    CatalogIsSnapshot(after);
    SameCatalogs(desired, after, CatalogOf(desired), CatalogOf(after));
    CanonicalFaithful(desired, after);
    EmptyPlanExactly(desired, after, defaults, ops, mentions);
  }
}
