/**
 The planner is a correct compiler: on well-formed snapshots its plan runs to the end and lands on
 the desired catalog when three conditions on the two snapshots hold (DiffTheorems: exactly then).
 */
module DiffCorrect {
  import opened Prelude
  import opened Ordering
  import opened SchemaIR
  import opened Catalog
  import opened SchemaDiff
  import opened DiffMembers
  import opened DiffRuns
  import opened DiffShape
  import TopoSort

  ghost predicate WellFormed(s: SchemaIR, mentions: Mentions) {
    UniqueNames(s) && Consistent(CatalogOf(s), mentions)
  }

  /** The catalog to land on. */
  function Target(desired: SchemaIR, current: SchemaIR): Catalog {
    TargetCatalog(CatalogOf(desired), CatalogOf(current))
  }

  function Common<K, V(==)>(a: map<K, V>, b: map<K, V>): map<K, V> {
    map k | k in a && k in b && a[k] == b[k] :: a[k]
  }

  /** Tables on both sides have equal primary keys; the planner never compares them. */
  ghost predicate SamePrimaryKeys(d: Catalog, c: Catalog) {
    forall t :: t in d.tables && t in c.tables ==> d.tables[t] == c.tables[t]
  }

  /** New tables have at most one primary key column; CREATE TABLE declares no composite key. */
  ghost predicate SimpleNewKeys(d: Catalog, c: Catalog) {
    forall t :: t in d.tables && t !in c.tables ==> |d.tables[t]| <= 1
  }

  /** A foreign key on both sides references a primary key or a unique index that is also on both sides. */
  ghost predicate StableKeys(d: Catalog, c: Catalog) {
    forall k :: k in Common(c.fks, d.fks) && c.fks[k].referencedTable in c.tables ==>
                  HasKey(c.tables[c.fks[k].referencedTable], Common(c.indexes, d.indexes),
                         c.fks[k].referencedTable, c.fks[k].referencedColumns)
  }

  ghost predicate Plannable(desired: SchemaIR, current: SchemaIR) {
    var d, c := CatalogOf(desired), CatalogOf(current);
    SamePrimaryKeys(d, c) && SimpleNewKeys(d, c) && StableKeys(d, c)
  }

  // ---------- snapshots and their catalogs ----------

  /** `c` is the catalog of these tables and sequences, seen member by member. */
  ghost predicate Snapshot(c: Catalog, tables: TableMap, sequences: map<string, SequenceIR>) {
    && c.tables.Keys == tables.Keys
    && (forall t :: t in tables ==> c.tables[t] == tables[t].primaryKey && tables[t].name == t)
    && (forall t :: t in tables ==> UniqueMembers(tables[t]) && Describes(c.columns, t, tables[t]))
    && c.sequences.Keys == sequences.Keys
    && (forall n :: n in sequences ==> c.sequences[n] == sequences[n].start && sequences[n].name == n)
  }

  /** The constraint maps of `c` are those of the tables. */
  ghost predicate Members(c: Catalog, tables: TableMap) {
    c.fks == Parts(tables, ForeignKeys) && c.indexes == Parts(tables, Indexes) && c.checks == Parts(tables, Checks)
  }

  lemma CatalogIsSnapshot(s: SchemaIR)
    requires UniqueNames(s)
    ensures Snapshot(CatalogOf(s), Tables(s), Sequences(s)) && Members(CatalogOf(s), Tables(s))
  {
    DictComplete(s.tables, TableName);
    DictComplete(s.sequences, SequenceName);
    forall t | t in Tables(s) ensures Describes(CatalogOf(s).columns, t, Tables(s)[t]) {
      ColumnsDescribe(s, t);
    }
  }

  lemma ColumnsDescribe(s: SchemaIR, t: string)
    requires t in Tables(s)
    ensures Describes(CatalogOf(s).columns, t, Tables(s)[t])
  {
    var columns := CatalogOf(s).columns;
    forall n ensures (t, n) in columns <==> n in Columns(Tables(s)[t]) {
    }
  }

  lemma PartsMembers<V(!new)>(tables: TableMap, view: TableIR -> map<string, V>)
    ensures forall k :: k in Parts(tables, view) <==> k.0 in tables && k.1 in view(tables[k.0])
    ensures forall k :: k in Parts(tables, view) ==> Parts(tables, view)[k] == view(tables[k.0])[k.1]
  {
    forall k: Key ensures k in PartKeys(tables, view) <==> k.0 in tables && k.1 in view(tables[k.0]) {
    }
  }

  lemma SameParts<V(!new)>(desired: TableMap, current: TableMap, kind: Kind<V>, view: TableIR -> map<string, V>)
    requires forall t :: view(t) == kind.View(t)
    ensures forall k :: Same(current, desired, kind, k) <==> k in Common(Parts(current, view), Parts(desired, view))
  {
    PartsMembers(current, view);
    PartsMembers(desired, view);
  }

  lemma DistinctEverywhere(c: Catalog, tables: TableMap, sequences: map<string, SequenceIR>)
    requires Snapshot(c, tables, sequences)
    ensures DistinctMembers(tables, FOREIGN_KEYS) && DistinctMembers(tables, INDEXES) && DistinctMembers(tables, CHECKS)
  {
  }

  // ---------- phases 1 to 1c ----------

  lemma DroppedKeys<V(!new)>(desired: TableMap, current: TableMap, kind: Kind<V>, view: TableIR -> map<string, V>)
    requires forall t :: view(t) == kind.View(t)
    requires DistinctMembers(current, kind)
    ensures var have, want := Parts(current, view), Parts(desired, view);
            var keys := DropKeys(desired, current, kind);
            NoDup(keys) && (forall k :: k in keys ==> k in have) && have - Elements(keys) == Common(have, want)
  {
    var have, want := Parts(current, view), Parts(desired, view);
    var keys := DropKeys(desired, current, kind);
    PartsMembers(current, view);
    DropKeysSelected(desired, current, kind);
    SameParts(desired, current, kind, view);
    forall k ensures k in have - Elements(keys) <==> k in Common(have, want) {
      assert k in keys <==> k in have && k !in Common(have, want);
    }
  }

  /** Only members that both sides share are still attached. */
  function DetachedCatalog(d: Catalog, c: Catalog): Catalog {
    c.(fks := Common(c.fks, d.fks), indexes := Common(c.indexes, d.indexes), checks := Common(c.checks, d.checks))
  }

  lemma StableKeysRemain(d: Catalog, c: Catalog)
    requires ForeignKeysConsistent(c) && StableKeys(d, c)
    ensures KeysAmong(c.(fks := Common(c.fks, d.fks)), Common(c.indexes, d.indexes))
  {
    forall k | k in Common(c.fks, d.fks)
      ensures KeyExists(c.(fks := Common(c.fks, d.fks), indexes := Common(c.indexes, d.indexes)), c.fks[k])
    {
      assert ForeignKeyFits(c, k.0, c.fks[k]);
    }
  }

  lemma RunDetachFrom(d: Catalog, c: Catalog, fks: seq<Key>, indexes: seq<Key>, checks: seq<Key>, mentions: Mentions)
    requires NoDup(fks) && NoDup(indexes) && NoDup(checks)
    requires forall k :: k in fks ==> k in c.fks
    requires forall k :: k in indexes ==> k in c.indexes
    requires forall k :: k in checks ==> k in c.checks
    requires c.fks - Elements(fks) == Common(c.fks, d.fks)
    requires c.indexes - Elements(indexes) == Common(c.indexes, d.indexes)
    requires c.checks - Elements(checks) == Common(c.checks, d.checks)
    requires Consistent(c, mentions) && StableKeys(d, c)
    ensures Run(c, DropForeignKeyOps(fks) + DropIndexOps(indexes) + DropCheckOps(checks), mentions) ==
            Some(DetachedCatalog(d, c))
  {
    RunDropFks(c, fks, mentions);
    var c1 := c.(fks := Common(c.fks, d.fks));
    StableKeysRemain(d, c);
    RunDropIndexes(c1, indexes, mentions);
    var c2 := c1.(indexes := Common(c.indexes, d.indexes));
    RunDropChecks(c2, checks, mentions);
    RunConcat(c, DropForeignKeyOps(fks), DropIndexOps(indexes), mentions);
    RunConcat(c, DropForeignKeyOps(fks) + DropIndexOps(indexes), DropCheckOps(checks), mentions);
  }

  lemma RunDetach(d: Catalog, c: Catalog, dt: TableMap, ct: TableMap, cs: map<string, SequenceIR>, mentions: Mentions)
    requires Snapshot(c, ct, cs) && Members(c, ct) && Members(d, dt) && Consistent(c, mentions) && StableKeys(d, c)
    ensures Run(c, DetachPhase(dt, ct), mentions) == Some(DetachedCatalog(d, c))
  {
    DistinctEverywhere(c, ct, cs);
    DroppedKeys(dt, ct, FOREIGN_KEYS, ForeignKeys);
    DroppedKeys(dt, ct, INDEXES, Indexes);
    DroppedKeys(dt, ct, CHECKS, Checks);
    RunDetachFrom(d, c, DropKeys(dt, ct, FOREIGN_KEYS), DropKeys(dt, ct, INDEXES), DropKeys(dt, ct, CHECKS), mentions);
  }

  // ---------- phases 2 to 5b ----------

  lemma RunReshapePhase(d: Catalog, c: Catalog, dt: TableMap, ct: TableMap, ds: map<string, SequenceIR>,
                        cs: map<string, SequenceIR>, mentions: Mentions)
    requires Snapshot(d, dt, ds) && Snapshot(c, ct, cs) && Consistent(d, mentions) && SamePrimaryKeys(d, c)
    ensures var ts := SortedNames(dt.Keys * ct.Keys);
            Run(DetachedCatalog(d, c), FlatMap(ts, t => ReshapeOps(dt, ct, t)), mentions) ==
            Some(DetachedCatalog(d, c).(columns := Reshaped(c.columns, ts, d.columns)))
  {
    var ts := SortedNames(dt.Keys * ct.Keys);
    SortedNamesNoDup(dt.Keys * ct.Keys);
    assert Detached(DetachedCatalog(d, c), d);
    forall t | t in ts ensures Reshapable(DetachedCatalog(d, c), t, d, mentions) {
      DetachedReshapable(DetachedCatalog(d, c), t, d, mentions);
    }
    RunReshape(DetachedCatalog(d, c), ts, dt, ct, d, mentions);
  }

  /** After the table drops: shared tables only, with the shared columns as desired. */
  function TrimmedCatalog(d: Catalog, c: Catalog): Catalog {
    DetachedCatalog(d, c).(tables := Restrict(c.tables, d.tables.Keys), columns := Restrict(d.columns, c.columns.Keys))
  }

  lemma TrimmedColumns(d: Catalog, c: Catalog, ts: seq<string>, drops: seq<string>)
    requires ColumnsConsistent(c) && ColumnsConsistent(d)
    requires forall t :: t in ts <==> t in d.tables && t in c.tables
    requires forall t :: t in drops <==> t in c.tables && t !in d.tables
    ensures (map k | k in Reshaped(c.columns, ts, d.columns) && k.0 !in drops :: Reshaped(c.columns, ts, d.columns)[k])
            == Restrict(d.columns, c.columns.Keys)
  {
    var reshaped := Reshaped(c.columns, ts, d.columns);
    forall k ensures k in reshaped && k.0 !in drops <==> k in c.columns && k in d.columns {
    }
  }

  lemma MinusElements<V>(m: map<string, V>, gone: seq<string>, keep: set<string>)
    requires forall n :: n in m ==> (n in gone <==> n !in keep)
    ensures m - Elements(gone) == Restrict(m, keep)
  {
  }

  lemma RunDropPhase(d: Catalog, c: Catalog, ts: seq<string>, drops: seq<string>, mentions: Mentions)
    requires Consistent(d, mentions) && ColumnsConsistent(c) && SamePrimaryKeys(d, c)
    requires forall t :: t in ts <==> t in d.tables && t in c.tables
    requires NoDup(drops) && forall t :: t in drops <==> t in c.tables && t !in d.tables
    ensures Run(DetachedCatalog(d, c).(columns := Reshaped(c.columns, ts, d.columns)), DropTableOps(drops), mentions) ==
            Some(TrimmedCatalog(d, c))
  {
    var reshaped := DetachedCatalog(d, c).(columns := Reshaped(c.columns, ts, d.columns));
    assert Detached(reshaped, d);
    ForeignKeysUseTarget(reshaped, d);
    forall k | k in reshaped.indexes ensures k.0 !in drops {
      assert IndexFits(d, k.0, d.indexes[k]);
    }
    forall k | k in reshaped.checks ensures k.0 !in drops {
      assert CheckFits(d, k.0, d.checks[k], mentions);
    }
    RunDropTables(reshaped, drops, mentions);
    TrimmedColumns(d, c, ts, drops);
    MinusElements(c.tables, drops, d.tables.Keys);
  }

  lemma RunDropSequencePhase(c: Catalog, gone: seq<string>, keep: set<string>, mentions: Mentions)
    requires NoDup(gone) && forall n :: n in gone <==> n in c.sequences && n !in keep
    ensures Run(c, DropSequenceOps(gone), mentions) == Some(c.(sequences := Restrict(c.sequences, keep)))
  {
    RunDropSequences(c, gone, mentions);
    MinusElements(c.sequences, gone, keep);
  }

  /** Every desired table exists; columns are the shared ones and those of new tables. */
  function PopulatedCatalog(d: Catalog, c: Catalog): Catalog {
    DetachedCatalog(d, c).(
      tables := d.tables,
      columns := map k | k in d.columns && (k in c.columns || k.0 !in c.tables) :: d.columns[k],
      sequences := Restrict(c.sequences, d.sequences.Keys))
  }

  lemma NewNameFree(d: Catalog, c: Catalog, t: string)
    requires RelationNamesConsistent(d) && t in d.tables && t !in c.tables
    ensures RelationFree(TrimmedCatalog(d, c).(sequences := Restrict(c.sequences, d.sequences.Keys)), t)
  {
  }

  lemma SimpleKeyDeclared(table: TableIR, target: Catalog)
    requires table.name in target.tables && target.tables[table.name] == table.primaryKey
    requires ColumnsConsistent(target) && Describes(target.columns, table.name, table)
    requires |table.primaryKey| <= 1
    ensures DdlPrimaryKey(table) == table.primaryKey
  {
    if table.primaryKey != [] {
      var n := table.primaryKey[0];
      assert n in target.tables[table.name];
      assert n in Columns(table);
      DictSound(table.columns, ColumnName);
      assert table.primaryKey == [n];
      assert Columns(table)[n] in table.columns && table.primaryKey == [Columns(table)[n].name];
    }
  }

  lemma PopulatedTables(d: Catalog, c: Catalog, dt: TableMap, ds: map<string, SequenceIR>, creates: seq<string>)
    requires Snapshot(d, dt, ds) && ColumnsConsistent(d) && SamePrimaryKeys(d, c) && SimpleNewKeys(d, c)
    requires forall t :: t in creates <==> t in d.tables && t !in c.tables
    ensures WithTables(Restrict(c.tables, d.tables.Keys), creates, dt) == d.tables
  {
    var all := WithTables(Restrict(c.tables, d.tables.Keys), creates, dt);
    forall t ensures t in all <==> t in d.tables {
      assert t in Elements(creates) <==> t in creates;
    }
    forall t | t in d.tables ensures all[t] == d.tables[t] {
      if t in creates {
        SimpleKeyDeclared(dt[t], d);
      }
    }
  }

  lemma PopulatedColumns(d: Catalog, c: Catalog, creates: seq<string>)
    requires ColumnsConsistent(d)
    requires forall t :: t in creates <==> t in d.tables && t !in c.tables
    ensures Restrict(d.columns, c.columns.Keys + ColumnsIn(d.columns, creates)) == PopulatedCatalog(d, c).columns
  {
    var a, b := Restrict(d.columns, c.columns.Keys + ColumnsIn(d.columns, creates)), PopulatedCatalog(d, c).columns;
    forall k | k in d.columns ensures k in a <==> k in b {
      assert k.0 in creates <==> k.0 !in c.tables;
    }
  }

  lemma RunPopulate(d: Catalog, c: Catalog, dt: TableMap, ds: map<string, SequenceIR>, creates: seq<string>,
                    mentions: Mentions)
    requires Snapshot(d, dt, ds) && ColumnsConsistent(d) && RelationNamesConsistent(d)
    requires SamePrimaryKeys(d, c) && SimpleNewKeys(d, c)
    requires NoDup(creates) && forall t :: t in creates <==> t in d.tables && t !in c.tables
    ensures Run(TrimmedCatalog(d, c).(sequences := Restrict(c.sequences, d.sequences.Keys)),
                FlatMap(creates, t => CreateTableOp(dt, t)), mentions) ==
            Some(PopulatedCatalog(d, c))
  {
    var start := TrimmedCatalog(d, c).(sequences := Restrict(c.sequences, d.sequences.Keys));
    forall t | t in creates ensures RelationFree(start, t) {
      NewNameFree(d, c, t);
    }
    RunCreateTables(start, creates, dt, d, c.columns.Keys, mentions);
    PopulatedTables(d, c, dt, ds, creates);
    PopulatedColumns(d, c, creates);
  }

  lemma GrownColumns(d: Catalog, c: Catalog, ts: seq<string>)
    requires ColumnsConsistent(d) && forall t :: t in ts <==> t in d.tables && t in c.tables
    ensures var keep := PopulatedCatalog(d, c).columns.Keys;
            PopulatedCatalog(d, c).columns == Restrict(d.columns, keep)
            && Restrict(d.columns, keep + ColumnsIn(d.columns, ts)) == d.columns
  {
    var keep := PopulatedCatalog(d, c).columns.Keys;
    forall k | k in d.columns ensures k in keep || k.0 in ts {
    }
  }

  lemma RunGrowPhase(d: Catalog, c: Catalog, dt: TableMap, ct: TableMap, ds: map<string, SequenceIR>,
                     cs: map<string, SequenceIR>, defaults: Defaults, mentions: Mentions)
    requires Snapshot(d, dt, ds) && Snapshot(c, ct, cs) && ColumnsConsistent(d)
    ensures Run(PopulatedCatalog(d, c),
                FlatMap(SortedNames(dt.Keys * ct.Keys), t => GrowOps(dt, ct, defaults, t)), mentions) ==
            Some(PopulatedCatalog(d, c).(columns := d.columns))
  {
    var ts := SortedNames(dt.Keys * ct.Keys);
    SortedNamesNoDup(dt.Keys * ct.Keys);
    GrownColumns(d, c, ts);
    var keep := PopulatedCatalog(d, c).columns.Keys;
    forall t | t in ts
      ensures forall n :: (t, n) in d.columns ==> ((t, n) in keep <==> n in Columns(ct[t]))
    {
      assert Describes(c.columns, t, ct[t]);
    }
    RunGrow(PopulatedCatalog(d, c), ts, dt, ct, defaults, d, keep, mentions);
  }

  /** Desired everywhere, except that an existing sequence keeps its start. */
  function TargetCatalog(d: Catalog, c: Catalog): Catalog {
    d.(sequences := map n | n in d.sequences :: if n in c.sequences then c.sequences[n] else d.sequences[n])
  }

  /** Everything but indexes, foreign keys and checks is as desired. */
  function ShapedCatalog(d: Catalog, c: Catalog): Catalog {
    var kept := DetachedCatalog(d, c);
    TargetCatalog(d, c).(fks := kept.fks, indexes := kept.indexes, checks := kept.checks)
  }

  lemma RunCreateSequencePhase(d: Catalog, c: Catalog, dt: TableMap, ds: map<string, SequenceIR>, names: seq<string>,
                               mentions: Mentions)
    requires Snapshot(d, dt, ds) && RelationNamesConsistent(d)
    requires NoDup(names) && forall n :: n in names <==> n in d.sequences && n !in c.sequences
    ensures Run(PopulatedCatalog(d, c).(columns := d.columns),
                FlatMap(names, n => CreateSequenceOp(ds, n)), mentions) ==
            Some(ShapedCatalog(d, c))
  {
    var start := PopulatedCatalog(d, c).(columns := d.columns);
    forall n | n in names ensures n in ds && ds[n].name == n && RelationFree(start, n) {
    }
    RunCreateSequences(start, names, ds, mentions);
    SequencesDone(d, c, ds, names);
  }

  lemma SequencesDone(d: Catalog, c: Catalog, ds: map<string, SequenceIR>, names: seq<string>)
    requires d.sequences.Keys == ds.Keys && forall n :: n in ds ==> d.sequences[n] == ds[n].start
    requires forall n :: n in names <==> n in d.sequences && n !in c.sequences
    ensures WithSequences(Restrict(c.sequences, d.sequences.Keys), names, ds) == TargetCatalog(d, c).sequences
  {
    var all := WithSequences(Restrict(c.sequences, d.sequences.Keys), names, ds);
    forall n ensures n in all <==> n in d.sequences {
      assert n in Elements(names) <==> n in names;
    }
  }

  lemma OrderMembers(desired: TableMap, current: TableMap, o: Orders)
    requires ValidOrders(o, desired, current)
    ensures NoDup(o.drops) && forall t :: t in o.drops <==> t in current && t !in desired
    ensures NoDup(o.creates) && forall t :: t in o.creates <==> t in desired && t !in current
    ensures NoDup(o.links) && forall t :: t in o.links <==> t in desired
  {
    assert Elements(o.drops) == current.Keys - desired.Keys;
    assert Elements(o.creates) == desired.Keys - current.Keys;
    assert Elements(o.links) == desired.Keys;
    forall t: string
      ensures t in o.drops <==> t in Elements(o.drops)
      ensures t in o.creates <==> t in Elements(o.creates)
      ensures t in o.links <==> t in Elements(o.links)
    {
    }
  }

  lemma RunTrimPhase(d: Catalog, c: Catalog, dt: TableMap, ct: TableMap, ds: map<string, SequenceIR>,
                     cs: map<string, SequenceIR>, drops: seq<string>, gone: seq<string>, mentions: Mentions)
    requires Snapshot(d, dt, ds) && Snapshot(c, ct, cs)
    requires Consistent(d, mentions) && ColumnsConsistent(c) && SamePrimaryKeys(d, c)
    requires NoDup(drops) && forall t :: t in drops <==> t in ct && t !in dt
    requires NoDup(gone) && forall n :: n in gone <==> n in cs && n !in ds
    ensures var ts := SortedNames(dt.Keys * ct.Keys);
            Run(DetachedCatalog(d, c),
                FlatMap(ts, t => ReshapeOps(dt, ct, t)) + DropTableOps(drops) + DropSequenceOps(gone), mentions) ==
            Some(TrimmedCatalog(d, c).(sequences := Restrict(c.sequences, d.sequences.Keys)))
  {
    var ts := SortedNames(dt.Keys * ct.Keys);
    var a := FlatMap(ts, t => ReshapeOps(dt, ct, t));
    RunReshapePhase(d, c, dt, ct, ds, cs, mentions);
    RunDropPhase(d, c, ts, drops, mentions);
    RunDropSequencePhase(TrimmedCatalog(d, c), gone, d.sequences.Keys, mentions);
    RunConcat(DetachedCatalog(d, c), a, DropTableOps(drops), mentions);
    RunConcat(DetachedCatalog(d, c), a + DropTableOps(drops), DropSequenceOps(gone), mentions);
  }

  /** Phases 2 to 3b. */
  function TrimOps(desired: SchemaIR, current: SchemaIR, o: Orders): seq<Op> {
    var dt, ct := Tables(desired), Tables(current);
    FlatMap(SortedNames(dt.Keys * ct.Keys), t => ReshapeOps(dt, ct, t))
    + DropTableOps(o.drops)
    + DropSequenceOps(SortedNames(Sequences(current).Keys - Sequences(desired).Keys))
  }

  /** Once only shared tables are left, the later phases do not depend on how that came about. */
  lemma RunShapeFrom(start: Catalog, desired: SchemaIR, current: SchemaIR, d: Catalog, c: Catalog, defaults: Defaults,
                     o: Orders, mentions: Mentions)
    requires Snapshot(d, Tables(desired), Sequences(desired)) && Snapshot(c, Tables(current), Sequences(current))
    requires Consistent(d, mentions) && SamePrimaryKeys(d, c) && SimpleNewKeys(d, c)
    requires ValidOrders(o, Tables(desired), Tables(current))
    requires Run(start, TrimOps(desired, current, o), mentions) ==
             Some(TrimmedCatalog(d, c).(sequences := Restrict(c.sequences, d.sequences.Keys)))
    ensures Run(start, ShapePhase(desired, current, defaults, o), mentions) == Some(ShapedCatalog(d, c))
  {
    var dt, ct := Tables(desired), Tables(current);
    var ds, cs := Sequences(desired), Sequences(current);
    var ts := SortedNames(dt.Keys * ct.Keys);
    var missing := SortedNames(ds.Keys - cs.Keys);
    SortedNamesNoDup(ds.Keys - cs.Keys);
    OrderMembers(dt, ct, o);
    var a := TrimOps(desired, current, o);
    var e := FlatMap(o.creates, t => CreateTableOp(dt, t));
    var f := FlatMap(ts, t => GrowOps(dt, ct, defaults, t));
    var g := FlatMap(missing, n => CreateSequenceOp(ds, n));
    RunPopulate(d, c, dt, ds, o.creates, mentions);
    RunGrowPhase(d, c, dt, ct, ds, cs, defaults, mentions);
    RunCreateSequencePhase(d, c, dt, ds, missing, mentions);
    RunFour(start, a, e, f, g, TrimmedCatalog(d, c).(sequences := Restrict(c.sequences, d.sequences.Keys)),
            PopulatedCatalog(d, c), PopulatedCatalog(d, c).(columns := d.columns), ShapedCatalog(d, c), mentions);
  }

  lemma RunShape(desired: SchemaIR, current: SchemaIR, d: Catalog, c: Catalog, defaults: Defaults, o: Orders,
                 mentions: Mentions)
    requires Snapshot(d, Tables(desired), Sequences(desired)) && Snapshot(c, Tables(current), Sequences(current))
    requires Consistent(d, mentions) && ColumnsConsistent(c)
    requires SamePrimaryKeys(d, c) && SimpleNewKeys(d, c)
    requires ValidOrders(o, Tables(desired), Tables(current))
    ensures Run(DetachedCatalog(d, c), ShapePhase(desired, current, defaults, o), mentions) == Some(ShapedCatalog(d, c))
  {
    var dt, ct := Tables(desired), Tables(current);
    var ds, cs := Sequences(desired), Sequences(current);
    var gone := SortedNames(cs.Keys - ds.Keys);
    SortedNamesNoDup(cs.Keys - ds.Keys);
    OrderMembers(dt, ct, o);
    RunTrimPhase(d, c, dt, ct, ds, cs, o.drops, gone, mentions);
    RunShapeFrom(DetachedCatalog(d, c), desired, current, d, c, defaults, o, mentions);
  }

  // ---------- phases 6 to 8 ----------

  lemma AddedItems<V(!new)>(order: seq<string>, desired: TableMap, current: TableMap, kind: Kind<V>,
                            view: TableIR -> map<string, V>)
    requires DistinctMembers(desired, kind)
    requires forall t :: view(t) == kind.View(t)
    requires NoDup(order) && forall t :: t in order <==> t in desired
    ensures var have, want := Parts(current, view), Parts(desired, view);
            var items := AddItems(order, desired, current, kind);
            NoDup(items) && ItemsOf(items, kind.key, want)
            && ItemKeys(items, kind.key) == want.Keys - Common(have, want).Keys
  {
    var have, want := Parts(current, view), Parts(desired, view);
    var items := AddItems(order, desired, current, kind);
    AddItemsSelected(order, desired, current, kind);
    SameParts(current, desired, kind, view);
    PartsMembers(desired, view);
    forall p | p in items
      ensures (p.0, kind.key(p.1)) in want && want[(p.0, kind.key(p.1))] == p.1
      ensures (p.0, kind.key(p.1)) !in Common(have, want)
    {
      DictComplete(kind.list(desired[p.0]), kind.key);
    }
    forall k | k in want && k !in Common(have, want) ensures k in ItemKeys(items, kind.key) {
      DictComplete(kind.list(desired[k.0]), kind.key);
      assert (k.0, want[k]) in items;
    }
  }

  lemma RestrictCommon<V(!new)>(have: map<Key, V>, want: map<Key, V>)
    ensures Common(have, want) == Restrict(want, Common(have, want).Keys)
    ensures Restrict(want, Common(have, want).Keys + (want.Keys - Common(have, want).Keys)) == want
  {
  }

  lemma RunAttachIndexes(d: Catalog, c: Catalog, indexes: seq<(string, IndexIR)>, mentions: Mentions)
    requires Consistent(d, mentions) && NoDup(indexes) && ItemsOf(indexes, IndexName, d.indexes)
    requires ItemKeys(indexes, IndexName) == d.indexes.Keys - Common(c.indexes, d.indexes).Keys
    ensures Run(ShapedCatalog(d, c), CreateIndexOps(indexes), mentions) ==
            Some(ShapedCatalog(d, c).(indexes := d.indexes))
  {
    RestrictCommon(c.indexes, d.indexes);
    RunCreateIndexes(ShapedCatalog(d, c), indexes, d, Common(c.indexes, d.indexes).Keys, mentions);
  }

  lemma RunAttachFks(d: Catalog, c: Catalog, fks: seq<(string, ForeignKeyIR)>, mentions: Mentions)
    requires Consistent(d, mentions) && NoDup(fks) && ItemsOf(fks, ForeignKeyName, d.fks)
    requires ItemKeys(fks, ForeignKeyName) == d.fks.Keys - Common(c.fks, d.fks).Keys
    ensures Run(ShapedCatalog(d, c).(indexes := d.indexes), AddForeignKeyOps(fks), mentions) ==
            Some(ShapedCatalog(d, c).(indexes := d.indexes, fks := d.fks))
  {
    RestrictCommon(c.fks, d.fks);
    RunAddFks(ShapedCatalog(d, c).(indexes := d.indexes), fks, d, Common(c.fks, d.fks).Keys, mentions);
  }

  lemma RunAttachChecks(d: Catalog, c: Catalog, checks: seq<(string, CheckIR)>, mentions: Mentions)
    requires Consistent(d, mentions) && NoDup(checks) && ItemsOf(checks, CheckName, d.checks)
    requires ItemKeys(checks, CheckName) == d.checks.Keys - Common(c.checks, d.checks).Keys
    ensures Run(ShapedCatalog(d, c).(indexes := d.indexes, fks := d.fks), AddCheckOps(checks), mentions) ==
            Some(TargetCatalog(d, c))
  {
    RestrictCommon(c.checks, d.checks);
    RunAddChecks(ShapedCatalog(d, c).(indexes := d.indexes, fks := d.fks), checks, d, Common(c.checks, d.checks).Keys, mentions);
  }

  lemma RunAttachTo(d: Catalog, c: Catalog, indexes: seq<(string, IndexIR)>, fks: seq<(string, ForeignKeyIR)>,
                    checks: seq<(string, CheckIR)>, mentions: Mentions)
    requires Consistent(d, mentions)
    requires NoDup(indexes) && ItemsOf(indexes, IndexName, d.indexes)
    requires NoDup(fks) && ItemsOf(fks, ForeignKeyName, d.fks)
    requires NoDup(checks) && ItemsOf(checks, CheckName, d.checks)
    requires ItemKeys(indexes, IndexName) == d.indexes.Keys - Common(c.indexes, d.indexes).Keys
    requires ItemKeys(fks, ForeignKeyName) == d.fks.Keys - Common(c.fks, d.fks).Keys
    requires ItemKeys(checks, CheckName) == d.checks.Keys - Common(c.checks, d.checks).Keys
    ensures Run(ShapedCatalog(d, c), CreateIndexOps(indexes) + AddForeignKeyOps(fks) + AddCheckOps(checks), mentions) ==
            Some(TargetCatalog(d, c))
  {
    var start := ShapedCatalog(d, c);
    RunAttachIndexes(d, c, indexes, mentions);
    RunAttachFks(d, c, fks, mentions);
    RunAttachChecks(d, c, checks, mentions);
    RunConcat(start, CreateIndexOps(indexes), AddForeignKeyOps(fks), mentions);
    RunConcat(start, CreateIndexOps(indexes) + AddForeignKeyOps(fks), AddCheckOps(checks), mentions);
  }

  lemma RunAttach(d: Catalog, c: Catalog, dt: TableMap, ct: TableMap, ds: map<string, SequenceIR>, o: Orders,
                  mentions: Mentions)
    requires Snapshot(d, dt, ds) && Members(d, dt) && Members(c, ct) && Consistent(d, mentions)
    requires ValidOrders(o, dt, ct)
    ensures Run(ShapedCatalog(d, c), AttachPhase(dt, ct, o), mentions) == Some(TargetCatalog(d, c))
  {
    var names := SortedNames(dt.Keys);
    SortedNamesNoDup(dt.Keys);
    OrderMembers(dt, ct, o);
    DistinctEverywhere(d, dt, ds);
    AddedItems(names, dt, ct, INDEXES, Indexes);
    AddedItems(o.links, dt, ct, FOREIGN_KEYS, ForeignKeys);
    AddedItems(names, dt, ct, CHECKS, Checks);
    RunAttachTo(d, c, AddItems(names, dt, ct, INDEXES), AddItems(o.links, dt, ct, FOREIGN_KEYS),
                AddItems(names, dt, ct, CHECKS), mentions);
  }

  // ---------- the theorem ----------

  lemma PlannableLands(desired: SchemaIR, current: SchemaIR, defaults: Defaults, ops: seq<Op>, mentions: Mentions)
    requires WellFormed(desired, mentions) && WellFormed(current, mentions) && IsPlan(desired, current, defaults, ops)
    requires Plannable(desired, current)
    ensures Run(CatalogOf(current), ops, mentions) == Some(Target(desired, current))
  {
    var d, c := CatalogOf(desired), CatalogOf(current);
    CatalogIsSnapshot(desired);
    CatalogIsSnapshot(current);
    RunPlan(desired, current, d, c, defaults, ops, mentions);
  }

  lemma RunPlan(desired: SchemaIR, current: SchemaIR, d: Catalog, c: Catalog, defaults: Defaults, ops: seq<Op>,
                mentions: Mentions)
    requires IsPlan(desired, current, defaults, ops)
    requires Snapshot(d, Tables(desired), Sequences(desired)) && Snapshot(c, Tables(current), Sequences(current))
    requires Members(d, Tables(desired)) && Members(c, Tables(current))
    requires Consistent(d, mentions) && Consistent(c, mentions)
    requires SamePrimaryKeys(d, c) && SimpleNewKeys(d, c) && StableKeys(d, c)
    ensures Run(c, ops, mentions) == Some(TargetCatalog(d, c))
  {
    var dt, ct := Tables(desired), Tables(current);
    var o :| ValidOrders(o, dt, ct) && ops == Plan(desired, current, defaults, o);
    RunDetach(d, c, dt, ct, Sequences(current), mentions);
    RunShape(desired, current, d, c, defaults, o, mentions);
    RunAttach(d, c, dt, ct, Sequences(desired), o, mentions);
    var shape := ShapePhase(desired, current, defaults, o);
    RunConcat(c, DetachPhase(dt, ct), shape, mentions);
    RunConcat(c, DetachPhase(dt, ct) + shape, AttachPhase(dt, ct, o), mentions);
  }
}
