/**
 Databases with tables that no class describes (schema/migrate.py `_current_schema`): the snapshot knows
 them by name only, so the plan drops them without knowing their columns, keys, indexes or checks.
 */
module DiffUnmanaged {
  import opened Prelude
  import opened Ordering
  import opened SchemaIR
  import opened Catalog
  import opened SchemaDiff
  import opened DiffRuns
  import opened DiffShape
  import opened DiffCorrect
  import opened DiffTheorems
  import CatalogLaws

  // ---------- the database and what was introspected ----------

  ghost predicate NoneIn<V>(m: map<Key, V>, hidden: set<string>) {
    forall k :: k in m ==> k.0 !in hidden
  }

  function Inside<V>(m: map<Key, V>, hidden: set<string>): map<Key, V> {
    map k | k in m && k.0 in hidden :: m[k]
  }

  /** `shown` is what `all` has outside the hidden tables. */
  ghost predicate Outside<V(!new)>(all: map<Key, V>, shown: map<Key, V>, hidden: set<string>) {
    && NoneIn(shown, hidden)
    && (forall k :: k in all && k.0 !in hidden ==> k in shown && all[k] == shown[k])
    && (forall k :: k in shown ==> k in all)
  }

  /** `c` is the introspection of `r`: complete, except that the hidden tables are known by name only. */
  ghost predicate Introspects(r: Catalog, c: Catalog, hidden: set<string>) {
    && r.tables.Keys == c.tables.Keys
    && (forall t :: t in c.tables ==> if t in hidden then c.tables[t] == [] else c.tables[t] == r.tables[t])
    && Outside(r.columns, c.columns, hidden) && Outside(r.fks, c.fks, hidden)
    && Outside(r.indexes, c.indexes, hidden) && Outside(r.checks, c.checks, hidden)
    && r.sequences == c.sequences
  }

  /** No hidden foreign key needs a column or a key that the plan takes from a desired table. */
  ghost predicate HiddenSpared(d: Catalog, r: Catalog, hidden: set<string>) {
    forall k :: k in r.fks && k.0 in hidden ==> ReferenceSpared(d, r, r.fks[k])
  }

  ghost predicate ReferenceSpared(d: Catalog, r: Catalog, fk: ForeignKeyIR) {
    fk.referencedTable in d.tables && fk.referencedTable in r.tables ==>
      && HasColumns(d, fk.referencedTable, fk.referencedColumns)
      && HasKey(r.tables[fk.referencedTable], Common(r.indexes, d.indexes), fk.referencedTable, fk.referencedColumns)
  }

  /** The database, its introspection and the desired catalog; the hidden tables are those to be dropped. */
  ghost predicate Unmanaged(r: Catalog, c: Catalog, d: Catalog, hidden: set<string>, mentions: Mentions) {
    && Introspects(r, c, hidden) && hidden == c.tables.Keys - d.tables.Keys
    && Consistent(r, mentions) && Consistent(d, mentions)
  }

  // ---------- phases 1 to 1c ----------

  function Kept<V(==)>(all: map<Key, V>, shown: map<Key, V>, want: map<Key, V>, hidden: set<string>): map<Key, V> {
    Common(shown, want) + Inside(all, hidden)
  }

  /** Members that both sides share, and everything hidden. */
  function DetachedReal(r: Catalog, c: Catalog, d: Catalog, hidden: set<string>): Catalog {
    r.(fks := Kept(r.fks, c.fks, d.fks, hidden), indexes := Kept(r.indexes, c.indexes, d.indexes, hidden),
       checks := Kept(r.checks, c.checks, d.checks, hidden))
  }

  lemma DropShown<V(!new)>(all: map<Key, V>, shown: map<Key, V>, want: map<Key, V>, hidden: set<string>, keys: seq<Key>)
    requires Outside(all, shown, hidden)
    requires (forall k :: k in keys ==> k in shown) && shown - Elements(keys) == Common(shown, want)
    ensures all - Elements(keys) == Kept(all, shown, want, hidden)
    ensures forall k :: k in keys ==> k in all
  {
    var rest := all - Elements(keys);
    forall k ensures k in rest <==> k in Kept(all, shown, want, hidden) {
      assert k in keys <==> k in Elements(keys);
      assert k in shown - Elements(keys) <==> k in Common(shown, want);
    }
  }

  /** A kept foreign key of a managed table references a table that stays. */
  lemma SharedReference(r: Catalog, c: Catalog, d: Catalog, hidden: set<string>, k: Key, mentions: Mentions)
    requires Unmanaged(r, c, d, hidden, mentions) && k in Common(c.fks, d.fks)
    ensures k in r.fks && r.fks[k] == c.fks[k] == d.fks[k]
    ensures k.0 !in hidden && c.fks[k].referencedTable !in hidden
    ensures c.fks[k].referencedTable in r.tables && c.fks[k].referencedTable in c.tables
    ensures r.tables[c.fks[k].referencedTable] == c.tables[c.fks[k].referencedTable]
  {
    assert ForeignKeyFits(d, k.0, d.fks[k]);
    assert ForeignKeyFits(r, k.0, r.fks[k]);
  }

  lemma SharedKeyRemains(r: Catalog, c: Catalog, d: Catalog, hidden: set<string>, k: Key, mentions: Mentions)
    requires Unmanaged(r, c, d, hidden, mentions) && StableKeys(d, c) && k in Common(c.fks, d.fks)
    ensures KeyExists(r.(indexes := Kept(r.indexes, c.indexes, d.indexes, hidden)), c.fks[k])
  {
    SharedReference(r, c, d, hidden, k, mentions);
    var fk := c.fks[k];
    SharedKept(r.indexes, c.indexes, d.indexes, hidden, fk.referencedTable);
    KeyAmongMore(c.tables[fk.referencedTable], Common(c.indexes, d.indexes), Kept(r.indexes, c.indexes, d.indexes, hidden), fk);
  }

  /** Only the indexes of the referenced table matter. */
  lemma KeyAmongMore(primaryKey: seq<string>, some: map<Key, IndexIR>, more: map<Key, IndexIR>, fk: ForeignKeyIR)
    requires HasKey(primaryKey, some, fk.referencedTable, fk.referencedColumns)
    requires forall k :: k in some && k.0 == fk.referencedTable ==> k in more && more[k] == some[k]
    ensures HasKey(primaryKey, more, fk.referencedTable, fk.referencedColumns)
  {
    if !SameColumns(primaryKey, fk.referencedColumns) {
      var k :| k in some && k.0 == fk.referencedTable && some[k].unique && SameColumns(some[k].columns, fk.referencedColumns);
      assert k in more;
    }
  }

  lemma HiddenKeyRemains(r: Catalog, c: Catalog, d: Catalog, hidden: set<string>, k: Key, mentions: Mentions)
    requires Unmanaged(r, c, d, hidden, mentions) && HiddenSpared(d, r, hidden) && k in r.fks && k.0 in hidden
    ensures KeyExists(r.(indexes := Kept(r.indexes, c.indexes, d.indexes, hidden)), r.fks[k])
  {
    var fk := r.fks[k];
    assert ForeignKeyFits(r, k.0, fk);
    if fk.referencedTable in hidden {
      InsideKept(r.indexes, c.indexes, d.indexes, hidden, fk.referencedTable);
      KeyAmongMore(r.tables[fk.referencedTable], r.indexes, Kept(r.indexes, c.indexes, d.indexes, hidden), fk);
    } else {
      assert ReferenceSpared(d, r, fk);
      SharedKept(r.indexes, c.indexes, d.indexes, hidden, fk.referencedTable);
      KeyAmongMore(r.tables[fk.referencedTable], Common(r.indexes, d.indexes), Kept(r.indexes, c.indexes, d.indexes, hidden), fk);
    }
  }

  lemma InsideKept<V(!new)>(all: map<Key, V>, shown: map<Key, V>, want: map<Key, V>, hidden: set<string>, t: string)
    requires Outside(all, shown, hidden) && t in hidden
    ensures var kept := Kept(all, shown, want, hidden); forall k :: k in all && k.0 == t ==> k in kept && kept[k] == all[k]
  {
  }

  lemma SharedKept<V(!new)>(all: map<Key, V>, shown: map<Key, V>, want: map<Key, V>, hidden: set<string>, t: string)
    requires Outside(all, shown, hidden) && t !in hidden
    ensures var kept := Kept(all, shown, want, hidden);
            forall k :: k in Common(all, want) && k.0 == t ==> k in kept && kept[k] == Common(all, want)[k]
    ensures var kept := Kept(all, shown, want, hidden);
            forall k :: k in Common(shown, want) ==> k in kept && kept[k] == Common(shown, want)[k]
  {
  }

  lemma RealKeysRemain(r: Catalog, c: Catalog, d: Catalog, hidden: set<string>, mentions: Mentions)
    requires Unmanaged(r, c, d, hidden, mentions) && StableKeys(d, c) && HiddenSpared(d, r, hidden)
    ensures KeysAmong(r.(fks := Kept(r.fks, c.fks, d.fks, hidden)), Kept(r.indexes, c.indexes, d.indexes, hidden))
  {
    var kept := Kept(r.fks, c.fks, d.fks, hidden);
    forall k | k in kept
      ensures KeyExists(r.(fks := kept, indexes := Kept(r.indexes, c.indexes, d.indexes, hidden)), kept[k])
    {
      if k in Inside(r.fks, hidden) {
        HiddenKeyRemains(r, c, d, hidden, k, mentions);
      } else {
        SharedKeyRemains(r, c, d, hidden, k, mentions);
      }
    }
  }

  /** The keys that the detaching phase drops, seen against the introspected catalog. */
  ghost predicate DropsStale<V(!new)>(keys: seq<Key>, shown: map<Key, V>, want: map<Key, V>) {
    NoDup(keys) && (forall k :: k in keys ==> k in shown) && shown - Elements(keys) == Common(shown, want)
  }

  lemma RunDetachReal(r: Catalog, c: Catalog, d: Catalog, hidden: set<string>, fks: seq<Key>, indexes: seq<Key>,
                      checks: seq<Key>, mentions: Mentions)
    requires Unmanaged(r, c, d, hidden, mentions) && StableKeys(d, c) && HiddenSpared(d, r, hidden)
    requires DropsStale(fks, c.fks, d.fks) && DropsStale(indexes, c.indexes, d.indexes) && DropsStale(checks, c.checks, d.checks)
    ensures Run(r, DropForeignKeyOps(fks) + DropIndexOps(indexes) + DropCheckOps(checks), mentions) ==
            Some(DetachedReal(r, c, d, hidden))
  {
    DropShown(r.fks, c.fks, d.fks, hidden, fks);
    DropShown(r.indexes, c.indexes, d.indexes, hidden, indexes);
    DropShown(r.checks, c.checks, d.checks, hidden, checks);
    RunDropFks(r, fks, mentions);
    var r1 := r.(fks := Kept(r.fks, c.fks, d.fks, hidden));
    RealKeysRemain(r, c, d, hidden, mentions);
    RunDropIndexes(r1, indexes, mentions);
    var r2 := r1.(indexes := Kept(r.indexes, c.indexes, d.indexes, hidden));
    RunDropChecks(r2, checks, mentions);
    RunConcat(r, DropForeignKeyOps(fks), DropIndexOps(indexes), mentions);
    RunConcat(r, DropForeignKeyOps(fks) + DropIndexOps(indexes), DropCheckOps(checks), mentions);
  }

  // ---------- phases 2 and 3 ----------

  lemma RealReshapable(r: Catalog, c: Catalog, d: Catalog, hidden: set<string>, t: string, mentions: Mentions)
    requires Unmanaged(r, c, d, hidden, mentions) && SamePrimaryKeys(d, c) && HiddenSpared(d, r, hidden)
    requires t in c.tables && t in d.tables
    ensures Reshapable(DetachedReal(r, c, d, hidden), t, d, mentions)
  {
    var s := DetachedReal(r, c, d, hidden);
    forall n | (t, n) in s.columns && (t, n) !in d.columns ensures ColumnUnused(s, t, n, mentions) {
      RealColumnUnused(r, c, d, hidden, t, n, mentions);
    }
  }

  lemma RealColumnUnused(r: Catalog, c: Catalog, d: Catalog, hidden: set<string>, t: string, n: string, mentions: Mentions)
    requires Unmanaged(r, c, d, hidden, mentions) && SamePrimaryKeys(d, c) && HiddenSpared(d, r, hidden)
    requires t in c.tables && t in d.tables && (t, n) !in d.columns
    ensures ColumnUnused(DetachedReal(r, c, d, hidden), t, n, mentions)
  {
    var s := DetachedReal(r, c, d, hidden);
    assert n !in s.tables[t];
    forall k | k in s.fks
      ensures k.0 == t ==> n !in s.fks[k].columns
      ensures s.fks[k].referencedTable == t ==> n !in s.fks[k].referencedColumns
    {
      if k in Inside(r.fks, hidden) {
        assert ReferenceSpared(d, r, r.fks[k]);
      } else {
        assert ForeignKeyFits(d, k.0, d.fks[k]);
      }
    }
    forall k | k in s.indexes && k.0 == t ensures n !in s.indexes[k].columns {
      assert IndexFits(d, k.0, d.indexes[k]);
    }
    forall k | k in s.checks && k.0 == t ensures n !in mentions(s.checks[k].expression) {
      assert CheckFits(d, k.0, d.checks[k], mentions);
    }
  }

  function RemoveTables(c: Catalog, names: seq<string>): Catalog {
    Catalog(
      c.tables - Elements(names),
      map k | k in c.columns && k.0 !in names :: c.columns[k],
      map k | k in c.fks && k.0 !in names && c.fks[k].referencedTable !in names :: c.fks[k],
      map k | k in c.indexes && k.0 !in names :: c.indexes[k],
      map k | k in c.checks && k.0 !in names :: c.checks[k],
      c.sequences)
  }

  lemma RemoveTablesSnoc(c: Catalog, names: seq<string>, t: string)
    ensures RemoveTable(RemoveTables(c, names), t) == RemoveTables(c, names + [t])
  {
    ElementsSnoc(names, t);
    assert c.tables - Elements(names) - {t} == c.tables - Elements(names + [t]);
    WithoutSnocMembers(c.columns, names, t);
    WithoutSnocMembers(c.indexes, names, t);
    WithoutSnocMembers(c.checks, names, t);
    WithoutSnocFks(c.fks, names, t);
  }

  lemma WithoutSnocMembers<V>(m: map<Key, V>, names: seq<string>, t: string)
    ensures (map k | k in (map k | k in m && k.0 !in names :: m[k]) && k.0 != t :: m[k]) ==
            (map k | k in m && k.0 !in names + [t] :: m[k])
  {
  }

  lemma WithoutSnocFks(m: map<Key, ForeignKeyIR>, names: seq<string>, t: string)
    ensures var kept := map k | k in m && k.0 !in names && m[k].referencedTable !in names :: m[k];
            (map k | k in kept && k.0 != t && kept[k].referencedTable != t :: kept[k]) ==
            (map k | k in m && k.0 !in names + [t] && m[k].referencedTable !in names + [t] :: m[k])
  {
  }

  /** DROP TABLE takes everything attached to a table with it, known or not. */
  lemma {:induction false} RunRemoveTables(c: Catalog, names: seq<string>, mentions: Mentions)
    requires NoDup(names) && forall t :: t in names ==> t in c.tables
    ensures Run(c, DropTableOps(names), mentions) == Some(RemoveTables(c, names))
  {
    if names == [] {
      assert RemoveTables(c, names) == c by {
        assert c.tables - Elements(names) == c.tables;
        assert RemoveTables(c, names).columns == c.columns;
        assert RemoveTables(c, names).fks == c.fks;
        assert RemoveTables(c, names).indexes == c.indexes;
        assert RemoveTables(c, names).checks == c.checks;
      }
    } else {
      var init, t := names[..|names| - 1], names[|names| - 1];
      assert names == init + [t];
      assert t !in init;
      RunRemoveTables(c, init, mentions);
      assert DropTableOps(names) == DropTableOps(init) + [DropTable(t)];
      RunStep(c, DropTableOps(init), DropTable(t), RemoveTables(c, init), mentions);
      RemoveTablesSnoc(c, init, t);
    }
  }

  lemma RemovedMembers<V(!new)>(all: map<Key, V>, shown: map<Key, V>, want: map<Key, V>, hidden: set<string>, drops: seq<string>)
    requires Outside(all, shown, hidden) && forall t :: t in drops <==> t in hidden
    ensures (map k | k in Kept(all, shown, want, hidden) && k.0 !in drops :: Kept(all, shown, want, hidden)[k])
            == Common(shown, want)
  {
  }

  lemma RemovedFks(r: Catalog, c: Catalog, d: Catalog, hidden: set<string>, drops: seq<string>, mentions: Mentions)
    requires Unmanaged(r, c, d, hidden, mentions) && forall t :: t in drops <==> t in hidden
    ensures var kept := Kept(r.fks, c.fks, d.fks, hidden);
            (map k | k in kept && k.0 !in drops && kept[k].referencedTable !in drops :: kept[k]) == Common(c.fks, d.fks)
  {
    forall k | k in Common(c.fks, d.fks) ensures k.0 !in hidden && c.fks[k].referencedTable !in hidden {
      SharedReference(r, c, d, hidden, k, mentions);
    }
    WithoutHiddenFks(r.fks, c.fks, d.fks, hidden, drops);
  }

  lemma WithoutHiddenFks(all: map<Key, ForeignKeyIR>, shown: map<Key, ForeignKeyIR>, want: map<Key, ForeignKeyIR>,
                         hidden: set<string>, drops: seq<string>)
    requires Outside(all, shown, hidden) && forall t :: t in drops <==> t in hidden
    requires forall k :: k in Common(shown, want) ==> k.0 !in hidden && shown[k].referencedTable !in hidden
    ensures var kept := Kept(all, shown, want, hidden);
            (map k | k in kept && k.0 !in drops && kept[k].referencedTable !in drops :: kept[k]) == Common(shown, want)
  {
  }

  lemma RemovedColumns(r: Catalog, c: Catalog, d: Catalog, hidden: set<string>, ts: seq<string>, drops: seq<string>)
    requires Introspects(r, c, hidden) && ColumnsConsistent(c) && ColumnsConsistent(d) && hidden == c.tables.Keys - d.tables.Keys
    requires forall t :: t in ts <==> t in d.tables && t in c.tables
    requires forall t :: t in drops <==> t in c.tables && t !in d.tables
    ensures (map k | k in Reshaped(r.columns, ts, d.columns) && k.0 !in drops :: Reshaped(r.columns, ts, d.columns)[k])
            == Restrict(d.columns, c.columns.Keys)
  {
    TrimmedColumns(d, c, ts, drops);
    var all, shown := Reshaped(r.columns, ts, d.columns), Reshaped(c.columns, ts, d.columns);
    forall k: Key | k.0 !in drops ensures (k in all <==> k in shown) && (k in all ==> all[k] == shown[k]) {
    }
  }

  lemma ShownColumnsConsistent(r: Catalog, c: Catalog, hidden: set<string>)
    requires Introspects(r, c, hidden) && ColumnsConsistent(r)
    ensures ColumnsConsistent(c)
  {
  }

  lemma RemovedIsTrimmed(r: Catalog, c: Catalog, d: Catalog, hidden: set<string>, ts: seq<string>, drops: seq<string>,
                         mentions: Mentions)
    requires Unmanaged(r, c, d, hidden, mentions)
    requires forall t :: t in ts <==> t in d.tables && t in c.tables
    requires forall t :: t in drops <==> t in c.tables && t !in d.tables
    ensures RemoveTables(DetachedReal(r, c, d, hidden).(columns := Reshaped(r.columns, ts, d.columns)), drops) ==
            TrimmedCatalog(d, c)
  {
    ShownColumnsConsistent(r, c, hidden);
    var a := RemoveTables(DetachedReal(r, c, d, hidden).(columns := Reshaped(r.columns, ts, d.columns)), drops);
    var b := TrimmedCatalog(d, c);
    MinusElements(r.tables, drops, d.tables.Keys);
    assert a.tables == b.tables;
    RemovedColumns(r, c, d, hidden, ts, drops);
    RemovedFks(r, c, d, hidden, drops, mentions);
    RemovedMembers(r.indexes, c.indexes, d.indexes, hidden, drops);
    RemovedMembers(r.checks, c.checks, d.checks, hidden, drops);
  }

  lemma RunTrimReal(r: Catalog, desired: SchemaIR, current: SchemaIR, d: Catalog, c: Catalog, hidden: set<string>,
                    o: Orders, mentions: Mentions)
    requires Unmanaged(r, c, d, hidden, mentions) && SamePrimaryKeys(d, c) && HiddenSpared(d, r, hidden)
    requires Snapshot(d, Tables(desired), Sequences(desired)) && Snapshot(c, Tables(current), Sequences(current))
    requires ValidOrders(o, Tables(desired), Tables(current))
    ensures Run(DetachedReal(r, c, d, hidden), TrimOps(desired, current, o), mentions) ==
            Some(TrimmedCatalog(d, c).(sequences := Restrict(c.sequences, d.sequences.Keys)))
  {
    var dt, ct := Tables(desired), Tables(current);
    var ts := SortedNames(dt.Keys * ct.Keys);
    var gone := SortedNames(Sequences(current).Keys - Sequences(desired).Keys);
    SortedNamesNoDup(Sequences(current).Keys - Sequences(desired).Keys);
    OrderMembers(dt, ct, o);
    var s := DetachedReal(r, c, d, hidden);
    RunReshapeReal(r, desired, current, d, c, hidden, mentions);
    RunRemoveTables(s.(columns := Reshaped(r.columns, ts, d.columns)), o.drops, mentions);
    RemovedIsTrimmed(r, c, d, hidden, ts, o.drops, mentions);
    RunDropSequencePhase(TrimmedCatalog(d, c), gone, d.sequences.Keys, mentions);
    var a := FlatMap(ts, t => ReshapeOps(dt, ct, t));
    RunConcat(s, a, DropTableOps(o.drops), mentions);
    RunConcat(s, a + DropTableOps(o.drops), DropSequenceOps(gone), mentions);
  }

  lemma RunReshapeReal(r: Catalog, desired: SchemaIR, current: SchemaIR, d: Catalog, c: Catalog, hidden: set<string>,
                       mentions: Mentions)
    requires Unmanaged(r, c, d, hidden, mentions) && SamePrimaryKeys(d, c) && HiddenSpared(d, r, hidden)
    requires Snapshot(d, Tables(desired), Sequences(desired)) && Snapshot(c, Tables(current), Sequences(current))
    ensures var ts := SortedNames(Tables(desired).Keys * Tables(current).Keys);
            Run(DetachedReal(r, c, d, hidden), FlatMap(ts, t => ReshapeOps(Tables(desired), Tables(current), t)), mentions) ==
            Some(DetachedReal(r, c, d, hidden).(columns := Reshaped(r.columns, ts, d.columns)))
  {
    var dt, ct := Tables(desired), Tables(current);
    var ts := SortedNames(dt.Keys * ct.Keys);
    SortedNamesNoDup(dt.Keys * ct.Keys);
    forall t | t in ts
      ensures Reshapable(DetachedReal(r, c, d, hidden), t, d, mentions)
      ensures Describes(DetachedReal(r, c, d, hidden).columns, t, ct[t])
    {
      RealReshapable(r, c, d, hidden, t, mentions);
      assert Describes(c.columns, t, ct[t]);
    }
    RunReshape(DetachedReal(r, c, d, hidden), ts, dt, ct, d, mentions);
  }

  // ---------- the plan lands ----------

  lemma RunPlanReal(r: Catalog, desired: SchemaIR, current: SchemaIR, d: Catalog, c: Catalog, hidden: set<string>,
                    defaults: Defaults, ops: seq<Op>, mentions: Mentions)
    requires IsPlan(desired, current, defaults, ops) && Unmanaged(r, c, d, hidden, mentions)
    requires Snapshot(d, Tables(desired), Sequences(desired)) && Snapshot(c, Tables(current), Sequences(current))
    requires Members(d, Tables(desired)) && Members(c, Tables(current))
    requires SamePrimaryKeys(d, c) && SimpleNewKeys(d, c) && StableKeys(d, c) && HiddenSpared(d, r, hidden)
    ensures Run(r, ops, mentions) == Some(TargetCatalog(d, c))
  {
    var dt, ct := Tables(desired), Tables(current);
    var o :| ValidOrders(o, dt, ct) && ops == Plan(desired, current, defaults, o);
    StaleKeysDropped(d, c, dt, ct, Sequences(current));
    RunDetachReal(r, c, d, hidden, DropKeys(dt, ct, FOREIGN_KEYS), DropKeys(dt, ct, INDEXES), DropKeys(dt, ct, CHECKS), mentions);
    RunTrimReal(r, desired, current, d, c, hidden, o, mentions);
    RunShapeFrom(DetachedReal(r, c, d, hidden), desired, current, d, c, defaults, o, mentions);
    RunAttach(d, c, dt, ct, Sequences(desired), o, mentions);
    var shape := ShapePhase(desired, current, defaults, o);
    RunConcat(r, DetachPhase(dt, ct), shape, mentions);
    RunConcat(r, DetachPhase(dt, ct) + shape, AttachPhase(dt, ct, o), mentions);
  }

  lemma StaleKeysDropped(d: Catalog, c: Catalog, dt: TableMap, ct: TableMap, cs: map<string, SequenceIR>)
    requires Snapshot(c, ct, cs) && Members(d, dt) && Members(c, ct)
    ensures DropsStale(DropKeys(dt, ct, FOREIGN_KEYS), c.fks, d.fks)
    ensures DropsStale(DropKeys(dt, ct, INDEXES), c.indexes, d.indexes)
    ensures DropsStale(DropKeys(dt, ct, CHECKS), c.checks, d.checks)
  {
    DistinctEverywhere(c, ct, cs);
    DroppedKeys(dt, ct, FOREIGN_KEYS, ForeignKeys);
    DroppedKeys(dt, ct, INDEXES, Indexes);
    DroppedKeys(dt, ct, CHECKS, Checks);
  }

  // ---------- and only then ----------

  /** Once the stale indexes are gone, every foreign key that is left still has its key. */
  lemma KeysLeft(r: Catalog, c: Catalog, d: Catalog, hidden: set<string>, fks: seq<Key>, indexes: seq<Key>, rest: seq<Op>,
                 mentions: Mentions)
    requires Unmanaged(r, c, d, hidden, mentions)
    requires DropsStale(fks, c.fks, d.fks) && DropsStale(indexes, c.indexes, d.indexes)
    requires Run(r, DropForeignKeyOps(fks) + DropIndexOps(indexes) + rest, mentions).Some?
    ensures Consistent(Loosened(r, c, d, hidden), mentions)
  {
    DropShown(r.fks, c.fks, d.fks, hidden, fks);
    DropShown(r.indexes, c.indexes, d.indexes, hidden, indexes);
    var prefix := DropForeignKeyOps(fks) + DropIndexOps(indexes);
    RunConcat(r, prefix, rest, mentions);
    RunConcat(r, DropForeignKeyOps(fks), DropIndexOps(indexes), mentions);
    RunDropFks(r, fks, mentions);
    DroppedIndexes(r.(fks := Kept(r.fks, c.fks, d.fks, hidden)), indexes, mentions);
    CatalogLaws.RunKeepsConsistent(r, prefix, mentions);
  }

  /** The database once stale foreign keys and indexes are gone. */
  function Loosened(r: Catalog, c: Catalog, d: Catalog, hidden: set<string>): Catalog {
    r.(fks := Kept(r.fks, c.fks, d.fks, hidden), indexes := Kept(r.indexes, c.indexes, d.indexes, hidden))
  }

  lemma KeysLeftMeansStable(r: Catalog, c: Catalog, d: Catalog, hidden: set<string>, mentions: Mentions)
    requires Unmanaged(r, c, d, hidden, mentions) && ForeignKeysConsistent(Loosened(r, c, d, hidden))
    ensures StableKeys(d, c)
  {
    forall k | k in Common(c.fks, d.fks) && c.fks[k].referencedTable in c.tables
      ensures HasKey(c.tables[c.fks[k].referencedTable], Common(c.indexes, d.indexes), c.fks[k].referencedTable, c.fks[k].referencedColumns)
    {
      SharedKeyLeft(r, c, d, hidden, k, mentions);
    }
  }

  lemma SharedKeyLeft(r: Catalog, c: Catalog, d: Catalog, hidden: set<string>, k: Key, mentions: Mentions)
    requires Unmanaged(r, c, d, hidden, mentions) && ForeignKeysConsistent(Loosened(r, c, d, hidden))
    requires k in Common(c.fks, d.fks) && c.fks[k].referencedTable in c.tables
    ensures HasKey(c.tables[c.fks[k].referencedTable], Common(c.indexes, d.indexes), c.fks[k].referencedTable, c.fks[k].referencedColumns)
  {
    var s, fk := Loosened(r, c, d, hidden), c.fks[k];
    SharedReference(r, c, d, hidden, k, mentions);
    KeptCommon(r.fks, c.fks, d.fks, hidden, k);
    assert ForeignKeyFits(s, k.0, s.fks[k]);
    KeptShown(r.indexes, c.indexes, d.indexes, hidden, fk.referencedTable);
    KeyAmongMore(c.tables[fk.referencedTable], s.indexes, Common(c.indexes, d.indexes), fk);
  }

  lemma KeptCommon<V(!new)>(all: map<Key, V>, shown: map<Key, V>, want: map<Key, V>, hidden: set<string>, k: Key)
    requires Outside(all, shown, hidden) && k in Common(shown, want)
    ensures var kept := Kept(all, shown, want, hidden); k in kept && kept[k] == shown[k]
  {
  }

  lemma KeptShown<V(!new)>(all: map<Key, V>, shown: map<Key, V>, want: map<Key, V>, hidden: set<string>, t: string)
    requires Outside(all, shown, hidden) && t !in hidden
    ensures var kept := Kept(all, shown, want, hidden);
            forall k :: k in kept && k.0 == t ==> k in Common(shown, want) && kept[k] == Common(shown, want)[k]
  {
  }

  lemma HiddenKeyLeft(r: Catalog, c: Catalog, d: Catalog, hidden: set<string>, k: Key)
    requires Introspects(r, c, hidden) && hidden == c.tables.Keys - d.tables.Keys
    requires ForeignKeysConsistent(Loosened(r, c, d, hidden)) && k in r.fks && k.0 in hidden
    requires r.fks[k].referencedTable in d.tables && r.fks[k].referencedTable in r.tables
    ensures HasKey(r.tables[r.fks[k].referencedTable], Common(r.indexes, d.indexes), r.fks[k].referencedTable, r.fks[k].referencedColumns)
  {
    var s, fk := Loosened(r, c, d, hidden), r.fks[k];
    assert k in s.fks && s.fks[k] == fk;
    assert ForeignKeyFits(s, k.0, s.fks[k]);
    KeyAmongMore(r.tables[fk.referencedTable], s.indexes, Common(r.indexes, d.indexes), fk);
  }

  /** Nothing but its own drop or a table drop removes a foreign key. */
  predicate SparesFk(op: Op, k: Key) {
    !op.DropTable? && op != DropForeignKey(k.0, k.1)
  }

  lemma {:induction false} FkPersists(c: Catalog, ops: seq<Op>, k: Key, mentions: Mentions)
    requires k in c.fks && Run(c, ops, mentions).Some? && forall op :: op in ops ==> SparesFk(op, k)
    ensures k in Run(c, ops, mentions).value.fks && Run(c, ops, mentions).value.fks[k] == c.fks[k]
  {
    if ops != [] {
      var init, last := ops[..|ops| - 1], ops[|ops| - 1];
      assert last in ops;
      FkPersists(c, init, k, mentions);
      FkPersistsStep(Run(c, init, mentions).value, last, k, mentions);
    }
  }

  lemma FkPersistsStep(c: Catalog, op: Op, k: Key, mentions: Mentions)
    requires k in c.fks && Accepts(c, op, mentions) && SparesFk(op, k)
    ensures k in Effect(c, op, mentions).fks && Effect(c, op, mentions).fks[k] == c.fks[k]
  {
    match op
    case DropForeignKey(t, n) => assert (t, n) != k;
    case _ =>
  }

  /** A list that drops a column runs only if nothing it spares references that column. */
  lemma DroppedColumnUnused(c: Catalog, ops: seq<Op>, k: Key, t: string, n: string, mentions: Mentions)
    requires k in c.fks && Run(c, ops, mentions).Some? && DropColumn(t, n) in ops
    requires forall op :: op in ops ==> SparesFk(op, k)
    ensures c.fks[k].referencedTable == t ==> n !in c.fks[k].referencedColumns
  {
    var p :| 0 <= p < |ops| && ops[p] == DropColumn(t, n);
    SplitAround(ops, p);
    RunConcat(c, ops[..p] + [ops[p]], ops[p + 1..], mentions);
    RunSnoc(c, ops[..p], ops[p], mentions);
    FkPersists(c, ops[..p], k, mentions);
  }

  lemma SplitAround(ops: seq<Op>, p: nat)
    requires p < |ops|
    ensures ops == (ops[..p] + [ops[p]]) + ops[p + 1..]
  {
    assert ops[..p + 1] == ops[..p] + [ops[p]];
    assert ops == ops[..p + 1] + ops[p + 1..];
  }

  lemma ReshapeDropsColumn(dt: TableMap, ct: TableMap, t: string, n: string)
    requires t in dt && t in ct && dt[t].name == t && n in Columns(ct[t]) && n !in Columns(dt[t])
    ensures DropColumn(t, n) in FlatMap(SortedNames(dt.Keys * ct.Keys), t => ReshapeOps(dt, ct, t))
  {
    var gone := SortedNames(Columns(ct[t]).Keys - Columns(dt[t]).Keys);
    assert n in Columns(ct[t]).Keys - Columns(dt[t]).Keys && n in gone;
    var i :| 0 <= i < |gone| && gone[i] == n;
    assert DropColumnOps(t, gone)[i] == DropColumn(t, n);
    assert DropColumn(t, n) in ReshapeOps(dt, ct, t);
    assert t in SortedNames(dt.Keys * ct.Keys);
    FlatMapMembers(SortedNames(dt.Keys * ct.Keys), t => ReshapeOps(dt, ct, t), DropColumn(t, n));
  }

  /** The first phases drop no table and no hidden foreign key. */
  lemma EarlyOpsSpare(dt: TableMap, ct: TableMap, k: Key, op: Op)
    requires forall key :: key in DropKeys(dt, ct, FOREIGN_KEYS) ==> key != k
    requires op in EarlyOps(dt, ct)
    ensures SparesFk(op, k)
  {
    var reshape := FlatMap(SortedNames(dt.Keys * ct.Keys), t => ReshapeOps(dt, ct, t));
    if op in reshape {
      FlatMapMembers(SortedNames(dt.Keys * ct.Keys), t => ReshapeOps(dt, ct, t), op);
      var t :| t in SortedNames(dt.Keys * ct.Keys) && op in ReshapeOps(dt, ct, t);
      ReshapeTouchesColumns(dt, ct, t, op);
    } else {
      DetachTouchesKeys(DropKeys(dt, ct, FOREIGN_KEYS), DropKeys(dt, ct, INDEXES), DropKeys(dt, ct, CHECKS), k, op);
    }
  }

  lemma DetachTouchesKeys(fks: seq<Key>, indexes: seq<Key>, checks: seq<Key>, k: Key, op: Op)
    requires op in DropForeignKeyOps(fks) + DropIndexOps(indexes) + DropCheckOps(checks)
    requires forall key :: key in fks ==> key != k
    ensures SparesFk(op, k)
  {
    if op in DropForeignKeyOps(fks) {
      var i :| 0 <= i < |fks| && DropForeignKeyOps(fks)[i] == op;
      assert fks[i] in fks && fks[i] == (fks[i].0, fks[i].1);
    }
  }

  lemma ReshapeTouchesColumns(dt: TableMap, ct: TableMap, t: string, op: Op)
    requires op in ReshapeOps(dt, ct, t)
    ensures !op.DropTable? && !op.DropForeignKey?
  {
    var d, c := dt[t], ct[t];
    var names := SortedNames(Columns(d).Keys * Columns(c).Keys);
    if op in FlatMap(names, n => AlterColumn(d, c, n)) {
      FlatMapMembers(names, n => AlterColumn(d, c, n), op);
      var n :| n in names && op in AlterColumn(d, c, n);
    }
  }

  /** Phases 1 to 2. */
  function EarlyOps(dt: TableMap, ct: TableMap): seq<Op> {
    DetachPhase(dt, ct) + FlatMap(SortedNames(dt.Keys * ct.Keys), t => ReshapeOps(dt, ct, t))
  }

  lemma StartsWithFirst(a: seq<Op>, b: seq<Op>, c: seq<Op>, d: seq<Op>, e: seq<Op>, f: seq<Op>)
    ensures a <= a + b + c + d + e + f
  {
  }

  lemma MoveBracket(a: seq<Op>, b: seq<Op>, whole: seq<Op>, last: seq<Op>)
    requires b <= whole
    ensures a + whole + last == (a + b) + (whole[|b|..] + last)
  {
    assert whole == b + whole[|b|..];
  }

  lemma EarlyPrefix(desired: SchemaIR, current: SchemaIR, defaults: Defaults, o: Orders) returns (rest: seq<Op>)
    ensures Plan(desired, current, defaults, o) == EarlyOps(Tables(desired), Tables(current)) + rest
  {
    var dt, ct := Tables(desired), Tables(current);
    var shape := ShapePhase(desired, current, defaults, o);
    var reshape := FlatMap(SortedNames(dt.Keys * ct.Keys), t => ReshapeOps(dt, ct, t));
    StartsWithFirst(reshape, DropTableOps(o.drops),
                    DropSequenceOps(SortedNames(Sequences(current).Keys - Sequences(desired).Keys)),
                    FlatMap(o.creates, t => CreateTableOp(dt, t)),
                    FlatMap(SortedNames(dt.Keys * ct.Keys), t => GrowOps(dt, ct, defaults, t)),
                    FlatMap(SortedNames(Sequences(desired).Keys - Sequences(current).Keys),
                            n => CreateSequenceOp(Sequences(desired), n)));
    MoveBracket(DetachPhase(dt, ct), reshape, shape, AttachPhase(dt, ct, o));
    rest := shape[|reshape|..] + AttachPhase(dt, ct, o);
  }

  /** The early phases refuse to drop a column that a foreign key outside their reach references. */
  lemma EarlyRefuses(r: Catalog, dt: TableMap, ct: TableMap, k: Key, t: string, n: string, mentions: Mentions)
    requires t in dt && t in ct && dt[t].name == t && n in Columns(ct[t]) && n !in Columns(dt[t])
    requires k in r.fks && r.fks[k].referencedTable == t && n in r.fks[k].referencedColumns
    requires forall key :: key in DropKeys(dt, ct, FOREIGN_KEYS) ==> key != k
    ensures Run(r, EarlyOps(dt, ct), mentions).None?
  {
    ReshapeDropsColumn(dt, ct, t, n);
    if Run(r, EarlyOps(dt, ct), mentions).Some? {
      forall op | op in EarlyOps(dt, ct) ensures SparesFk(op, k) {
        EarlyOpsSpare(dt, ct, k, op);
      }
      DroppedColumnUnused(r, EarlyOps(dt, ct), k, t, n, mentions);
    }
  }

  /** A plan that runs keeps every column that a hidden foreign key references in a desired table. */
  lemma HiddenColumnKept(r: Catalog, dt: TableMap, ct: TableMap, d: Catalog, c: Catalog, hidden: set<string>, rest: seq<Op>,
                         k: Key, n: string, mentions: Mentions)
    requires Unmanaged(r, c, d, hidden, mentions) && Run(r, EarlyOps(dt, ct) + rest, mentions).Some?
    requires DropsStale(DropKeys(dt, ct, FOREIGN_KEYS), c.fks, d.fks)
    requires k in r.fks && k.0 in hidden && r.fks[k].referencedTable in d.tables && n in r.fks[k].referencedColumns
    requires var t := r.fks[k].referencedTable;
             t in c.tables ==> TableDescribed(d, dt, t) && TableDescribed(c, ct, t)
    ensures (r.fks[k].referencedTable, n) in d.columns
  {
    RunConcat(r, EarlyOps(dt, ct), rest, mentions);
    ReferencedColumnShown(r, c, d, hidden, k, n, mentions);
    if (r.fks[k].referencedTable, n) !in d.columns {
      EarlyRefuses(r, dt, ct, k, r.fks[k].referencedTable, n, mentions);
    }
  }

  ghost predicate TableDescribed(c: Catalog, tables: TableMap, t: string) {
    t in tables && tables[t].name == t && Describes(c.columns, t, tables[t])
  }

  lemma ReferencedColumnShown(r: Catalog, c: Catalog, d: Catalog, hidden: set<string>, k: Key, n: string, mentions: Mentions)
    requires Unmanaged(r, c, d, hidden, mentions)
    requires k in r.fks && k.0 in hidden && r.fks[k].referencedTable in d.tables && n in r.fks[k].referencedColumns
    ensures r.fks[k].referencedTable in c.tables && (r.fks[k].referencedTable, n) in c.columns && k !in c.fks
  {
    assert ForeignKeyFits(r, k.0, r.fks[k]);
  }

  lemma RunningMeansSpared(r: Catalog, desired: SchemaIR, current: SchemaIR, d: Catalog, c: Catalog, hidden: set<string>,
                           defaults: Defaults, ops: seq<Op>, mentions: Mentions)
    requires IsPlan(desired, current, defaults, ops) && Unmanaged(r, c, d, hidden, mentions)
    requires Snapshot(d, Tables(desired), Sequences(desired)) && Snapshot(c, Tables(current), Sequences(current))
    requires Members(d, Tables(desired)) && Members(c, Tables(current)) && Run(r, ops, mentions).Some?
    ensures StableKeys(d, c) && HiddenSpared(d, r, hidden)
  {
    var dt, ct := Tables(desired), Tables(current);
    var o :| ValidOrders(o, dt, ct) && ops == Plan(desired, current, defaults, o);
    StaleKeysDropped(d, c, dt, ct, Sequences(current));
    var rest := PlanPrefix(desired, current, defaults, o);
    KeysLeft(r, c, d, hidden, DropKeys(dt, ct, FOREIGN_KEYS), DropKeys(dt, ct, INDEXES), rest, mentions);
    KeysLeftMeansStable(r, c, d, hidden, mentions);
    rest := EarlyPrefix(desired, current, defaults, o);
    EarlyRunMeansSpared(r, dt, ct, d, c, hidden, rest, mentions);
  }

  lemma EarlyRunMeansSpared(r: Catalog, dt: TableMap, ct: TableMap, d: Catalog, c: Catalog, hidden: set<string>,
                            rest: seq<Op>, mentions: Mentions)
    requires Unmanaged(r, c, d, hidden, mentions) && Run(r, EarlyOps(dt, ct) + rest, mentions).Some?
    requires DropsStale(DropKeys(dt, ct, FOREIGN_KEYS), c.fks, d.fks) && ForeignKeysConsistent(Loosened(r, c, d, hidden))
    requires forall t :: t in d.tables && t in c.tables ==> TableDescribed(d, dt, t) && TableDescribed(c, ct, t)
    ensures HiddenSpared(d, r, hidden)
  {
    forall k | k in r.fks && k.0 in hidden ensures ReferenceSpared(d, r, r.fks[k]) {
      if r.fks[k].referencedTable in d.tables && r.fks[k].referencedTable in r.tables {
        HiddenKeyLeft(r, c, d, hidden, k);
        forall n | n in r.fks[k].referencedColumns ensures (r.fks[k].referencedTable, n) in d.columns {
          HiddenColumnKept(r, dt, ct, d, c, hidden, rest, k, n, mentions);
        }
      }
    }
  }

  lemma LandingKeysReal(r: Catalog, desired: SchemaIR, current: SchemaIR, d: Catalog, c: Catalog, hidden: set<string>,
                        defaults: Defaults, ops: seq<Op>, mentions: Mentions)
    requires IsPlan(desired, current, defaults, ops) && Unmanaged(r, c, d, hidden, mentions)
    requires Snapshot(d, Tables(desired), Sequences(desired)) && Snapshot(c, Tables(current), Sequences(current))
    requires Run(r, ops, mentions) == Some(TargetCatalog(d, c))
    ensures SamePrimaryKeys(d, c) && SimpleNewKeys(d, c)
  {
    PlanTableOps(desired, current, defaults, ops);
    LandingKeys(d, r, Tables(desired), Tables(current), ops, mentions);
  }

  /** The database as the plan meets it: `current` shows the dropped tables by name only. */
  ghost predicate ShownBy(r: Catalog, desired: SchemaIR, current: SchemaIR, mentions: Mentions) {
    var d, c := CatalogOf(desired), CatalogOf(current);
    UniqueNames(current) && Unmanaged(r, c, d, HiddenTables(desired, current), mentions)
  }

  /** The tables that no class describes. */
  function HiddenTables(desired: SchemaIR, current: SchemaIR): set<string> {
    CatalogOf(current).tables.Keys - CatalogOf(desired).tables.Keys
  }

  /**
   On a database with tables that no class describes the plan runs and lands if and only if, besides the
   three conditions on the snapshots, no foreign key of such a table references a column that goes or a
   key that is not kept in a table that stays.
   */
  lemma PlanLandsOnDatabaseExactly(r: Catalog, desired: SchemaIR, current: SchemaIR, defaults: Defaults, ops: seq<Op>,
                                   mentions: Mentions)
    requires WellFormed(desired, mentions) && ShownBy(r, desired, current, mentions) && IsPlan(desired, current, defaults, ops)
    ensures Run(r, ops, mentions) == Some(Target(desired, current)) <==>
            Plannable(desired, current)
            && HiddenSpared(CatalogOf(desired), r, HiddenTables(desired, current))
  {
    CatalogIsSnapshot(desired);
    CatalogIsSnapshot(current);
    RunsExactly(r, desired, current, CatalogOf(desired), CatalogOf(current),
                HiddenTables(desired, current), defaults, ops, mentions);
  }

  lemma RunsExactly(r: Catalog, desired: SchemaIR, current: SchemaIR, d: Catalog, c: Catalog, hidden: set<string>,
                    defaults: Defaults, ops: seq<Op>, mentions: Mentions)
    requires IsPlan(desired, current, defaults, ops) && Unmanaged(r, c, d, hidden, mentions)
    requires Snapshot(d, Tables(desired), Sequences(desired)) && Snapshot(c, Tables(current), Sequences(current))
    requires Members(d, Tables(desired)) && Members(c, Tables(current))
    ensures Run(r, ops, mentions) == Some(TargetCatalog(d, c)) <==>
            SamePrimaryKeys(d, c) && SimpleNewKeys(d, c) && StableKeys(d, c) && HiddenSpared(d, r, hidden)
  {
    if Run(r, ops, mentions) == Some(TargetCatalog(d, c)) {
      LandingMeansSpared(r, desired, current, d, c, hidden, defaults, ops, mentions);
    } else if SamePrimaryKeys(d, c) && SimpleNewKeys(d, c) && StableKeys(d, c) && HiddenSpared(d, r, hidden) {
      RunPlanReal(r, desired, current, d, c, hidden, defaults, ops, mentions);
    }
  }

  lemma LandingMeansSpared(r: Catalog, desired: SchemaIR, current: SchemaIR, d: Catalog, c: Catalog, hidden: set<string>,
                           defaults: Defaults, ops: seq<Op>, mentions: Mentions)
    requires IsPlan(desired, current, defaults, ops) && Unmanaged(r, c, d, hidden, mentions)
    requires Snapshot(d, Tables(desired), Sequences(desired)) && Snapshot(c, Tables(current), Sequences(current))
    requires Members(d, Tables(desired)) && Members(c, Tables(current))
    requires Run(r, ops, mentions) == Some(TargetCatalog(d, c))
    ensures SamePrimaryKeys(d, c) && SimpleNewKeys(d, c) && StableKeys(d, c) && HiddenSpared(d, r, hidden)
  {
    LandingKeysReal(r, desired, current, d, c, hidden, defaults, ops, mentions);
    RunningMeansSpared(r, desired, current, d, c, hidden, defaults, ops, mentions);
  }

  /** Otherwise the server refuses a statement: a hidden reference that is not spared stops every plan. */
  lemma UnsparedGetsStuck(r: Catalog, desired: SchemaIR, current: SchemaIR, defaults: Defaults, ops: seq<Op>,
                          mentions: Mentions)
    requires WellFormed(desired, mentions) && ShownBy(r, desired, current, mentions) && IsPlan(desired, current, defaults, ops)
    requires !HiddenSpared(CatalogOf(desired), r, HiddenTables(desired, current))
             || !StableKeys(CatalogOf(desired), CatalogOf(current))
    ensures Run(r, ops, mentions).None?
  {
    var d, c := CatalogOf(desired), CatalogOf(current);
    CatalogIsSnapshot(desired);
    CatalogIsSnapshot(current);
    if Run(r, ops, mentions).Some? {
      RunningMeansSpared(r, desired, current, d, c, HiddenTables(desired, current), defaults, ops, mentions);
    }
  }
}
