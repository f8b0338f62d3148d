/** Running the phases of a plan that change columns and tables. */
module DiffShape {
  import opened Prelude
  import opened Ordering
  import opened SchemaIR
  import opened Catalog
  import opened SchemaDiff
  import opened DiffRuns
  import DiffMembers

  /** Only members of the target are attached, and shared tables already have its primary keys. */
  ghost predicate Detached(c: Catalog, target: Catalog) {
    && (forall k :: k in c.fks ==> k in target.fks && c.fks[k] == target.fks[k])
    && (forall k :: k in c.indexes ==> k in target.indexes && c.indexes[k] == target.indexes[k])
    && (forall k :: k in c.checks ==> k in target.checks && c.checks[k] == target.checks[k])
    && (forall t :: t in c.tables && t in target.tables ==> c.tables[t] == target.tables[t])
  }

  lemma ForeignKeysUseTarget(c: Catalog, target: Catalog)
    requires Detached(c, target) && ForeignKeysConsistent(target)
    ensures forall k :: k in c.fks ==> k.0 in target.tables && HasColumns(target, k.0, c.fks[k].columns)
    ensures forall k :: k in c.fks ==> c.fks[k].referencedTable in target.tables
                                       && HasColumns(target, c.fks[k].referencedTable, c.fks[k].referencedColumns)
  {
  }

  lemma UndesiredColumnUnused(c: Catalog, target: Catalog, t: string, n: string, mentions: Mentions)
    requires Detached(c, target) && Consistent(target, mentions)
    requires t in target.tables && (t, n) !in target.columns
    ensures ColumnUnused(c, t, n, mentions)
  {
  }

  // ---------- dropping and altering columns ----------

  function Removed(columns: map<Key, ColumnState>, t: string, names: seq<string>): map<Key, ColumnState> {
    map k | k in columns && !(k.0 == t && k.1 in names) :: columns[k]
  }

  lemma RemovedSnoc(columns: map<Key, ColumnState>, t: string, names: seq<string>, n: string)
    ensures Removed(columns, t, names) - {(t, n)} == Removed(columns, t, names + [n])
  {
  }

  lemma {:induction false} RunDropColumns(c: Catalog, t: string, names: seq<string>, mentions: Mentions)
    requires NoDup(names)
    requires forall n :: n in names ==> (t, n) in c.columns && ColumnUnused(c, t, n, mentions)
    ensures Run(c, DropColumnOps(t, names), mentions) == Some(c.(columns := Removed(c.columns, t, names)))
  {
    if names == [] {
      assert Removed(c.columns, t, names) == c.columns;
    } else {
      var init, n := names[..|names| - 1], names[|names| - 1];
      assert names == init + [n];
      assert n !in init;
      RunDropColumns(c, t, init, mentions);
      var c' := c.(columns := Removed(c.columns, t, init));
      assert ColumnUnused(c', t, n, mentions);
      assert DropColumnOps(t, names) == DropColumnOps(t, init) + [DropColumn(t, n)];
      RunStep(c, DropColumnOps(t, init), DropColumn(t, n), c', mentions);
      RemovedSnoc(c.columns, t, init, n);
    }
  }

  lemma RunOne(c: Catalog, op: Op, mentions: Mentions)
    requires Accepts(c, op, mentions)
    ensures Run(c, [op], mentions) == Some(Effect(c, op, mentions))
  {
  }

  function Retyped(c: Catalog, t: string, n: string, want: ColumnIR): Catalog
    requires (t, n) in c.columns
  {
    c.(columns := c.columns[(t, n) := c.columns[(t, n)].(typeName := want.typeName)])
  }

  function RetypeOps(t: string, n: string, want: ColumnIR, have: ColumnIR): seq<Op> {
    if want.typeName != have.typeName then [AlterColumnType(t, n, have.typeName, want.typeName)] else []
  }

  lemma RunRetype(c: Catalog, t: string, n: string, want: ColumnIR, have: ColumnIR, mentions: Mentions)
    requires (t, n) in c.columns && c.columns[(t, n)] == StateOf(have)
    ensures Run(c, RetypeOps(t, n, want, have), mentions) == Some(Retyped(c, t, n, want))
  {
    if want.typeName != have.typeName {
      RunOne(c, AlterColumnType(t, n, have.typeName, want.typeName), mentions);
    } else {
      assert Retyped(c, t, n, want).columns == c.columns;
    }
  }

  lemma RetypedThenNullable(c: Catalog, t: string, n: string, want: ColumnIR, have: ColumnIR)
    requires (t, n) in c.columns && c.columns[(t, n)] == StateOf(have)
    ensures Retyped(c, t, n, want).columns[(t, n) := Retyped(c, t, n, want).columns[(t, n)].(nullable := want.nullable)]
         == c.columns[(t, n) := StateOf(want)]
    ensures want.nullable == have.nullable ==> Retyped(c, t, n, want).columns == c.columns[(t, n) := StateOf(want)]
  {
  }

  lemma RunAlter(c: Catalog, t: string, n: string, want: ColumnIR, have: ColumnIR, mentions: Mentions)
    requires t in c.tables && (t, n) in c.columns && c.columns[(t, n)] == StateOf(have)
    requires want.nullable ==> n !in c.tables[t]
    ensures Run(c, AlterOps(t, n, want, have), mentions) == Some(c.(columns := c.columns[(t, n) := StateOf(want)]))
  {
    var typed, first := Retyped(c, t, n, want), RetypeOps(t, n, want, have);
    RunRetype(c, t, n, want, have, mentions);
    RetypedThenNullable(c, t, n, want, have);
    if want.nullable != have.nullable {
      RunStep(c, first, AlterColumnNullability(t, n, want.nullable), typed, mentions);
      assert AlterOps(t, n, want, have) == first + [AlterColumnNullability(t, n, want.nullable)];
    } else {
      assert AlterOps(t, n, want, have) == first;
    }
  }

  function Altered(columns: map<Key, ColumnState>, t: string, names: seq<string>, target: map<Key, ColumnState>)
    : map<Key, ColumnState>
  {
    map k | k in columns :: if k.0 == t && k.1 in names && k in target then target[k] else columns[k]
  }

  lemma AlteredSnoc(columns: map<Key, ColumnState>, t: string, names: seq<string>, n: string, target: map<Key, ColumnState>)
    requires (t, n) in columns && (t, n) in target
    ensures Altered(columns, t, names, target)[(t, n) := target[(t, n)]] == Altered(columns, t, names + [n], target)
  {
  }

  /** The rows of one table in a flat column map are exactly the columns of its snapshot. */
  ghost predicate Describes(columns: map<Key, ColumnState>, t: string, table: TableIR) {
    forall n :: ((t, n) in columns <==> n in Columns(table))
                && (n in Columns(table) ==> columns[(t, n)] == StateOf(Columns(table)[n]))
  }

  lemma {:induction false} RunAlters(c: Catalog, t: string, desired: TableIR, current: TableIR, names: seq<string>,
                                     target: Catalog, mentions: Mentions)
    requires NoDup(names) && desired.name == t && t in c.tables && t in target.tables
    requires c.tables[t] == target.tables[t] && ColumnsConsistent(target)
    requires Describes(target.columns, t, desired)
    requires forall n :: n in names ==> n in Columns(desired) && n in Columns(current)
                                        && (t, n) in c.columns && c.columns[(t, n)] == StateOf(Columns(current)[n])
    ensures Run(c, FlatMap(names, n => AlterColumn(desired, current, n)), mentions) ==
            Some(c.(columns := Altered(c.columns, t, names, target.columns)))
  {
    var f := n => AlterColumn(desired, current, n);
    if names == [] {
      assert Altered(c.columns, t, names, target.columns) == c.columns;
    } else {
      var init, n := names[..|names| - 1], names[|names| - 1];
      assert names == init + [n];
      assert n !in init;
      RunAlters(c, t, desired, current, init, target, mentions);
      var c' := c.(columns := Altered(c.columns, t, init, target.columns));
      RunAlter(c', t, n, Columns(desired)[n], Columns(current)[n], mentions);
      RunConcat(c, FlatMap(init, f), f(n), mentions);
      assert FlatMap(names, f) == FlatMap(init, f) + f(n);
      AlteredSnoc(c.columns, t, init, n, target.columns);
    }
  }

  function Reshaped(columns: map<Key, ColumnState>, ts: seq<string>, target: map<Key, ColumnState>)
    : map<Key, ColumnState>
  {
    map k | k in columns && (k.0 in ts ==> k in target) :: if k.0 in ts then target[k] else columns[k]
  }

  /** Table `t` has the target's key, and nothing uses its columns that the target does not have. */
  ghost predicate Reshapable(c: Catalog, t: string, target: Catalog, mentions: Mentions) {
    && t in c.tables && t in target.tables && c.tables[t] == target.tables[t]
    && forall n :: (t, n) in c.columns && (t, n) !in target.columns ==> ColumnUnused(c, t, n, mentions)
  }

  lemma DetachedReshapable(c: Catalog, t: string, target: Catalog, mentions: Mentions)
    requires Detached(c, target) && Consistent(target, mentions) && t in c.tables && t in target.tables
    ensures Reshapable(c, t, target, mentions)
  {
    forall n | (t, n) in c.columns && (t, n) !in target.columns ensures ColumnUnused(c, t, n, mentions) {
      UndesiredColumnUnused(c, target, t, n, mentions);
    }
  }

  lemma RunReshapeTable(c: Catalog, t: string, desired: TableIR, current: TableIR, target: Catalog, mentions: Mentions)
    requires Reshapable(c, t, target, mentions) && ColumnsConsistent(target) && desired.name == t
    requires Describes(target.columns, t, desired) && Describes(c.columns, t, current)
    ensures Run(c, ColumnOps(desired, current), mentions) ==
            Some(c.(columns := Reshaped(c.columns, [t], target.columns)))
  {
    var want, have := Columns(desired), Columns(current);
    var gone, both := SortedNames(have.Keys - want.Keys), SortedNames(want.Keys * have.Keys);
    SortedNamesNoDup(have.Keys - want.Keys);
    SortedNamesNoDup(want.Keys * have.Keys);
    assert forall n :: n in gone ==> (t, n) in c.columns && (t, n) !in target.columns;
    RunDropColumns(c, t, gone, mentions);
    var c1 := c.(columns := Removed(c.columns, t, gone));
    forall n | n in both ensures n in want && n in have && (t, n) in c1.columns && c1.columns[(t, n)] == StateOf(have[n]) {
    }
    RunAlters(c1, t, desired, current, both, target, mentions);
    RunConcat(c, DropColumnOps(t, gone), FlatMap(both, n => AlterColumn(desired, current, n)), mentions);
    ReshapedTable(c.columns, t, gone, both, desired, current, target.columns);
  }

  lemma ReshapedTable(columns: map<Key, ColumnState>, t: string, gone: seq<string>, both: seq<string>,
                      desired: TableIR, current: TableIR, target: map<Key, ColumnState>)
    requires Describes(target, t, desired) && Describes(columns, t, current)
    requires forall n :: n in gone <==> n in Columns(current) && n !in Columns(desired)
    requires forall n :: n in both <==> n in Columns(current) && n in Columns(desired)
    ensures Altered(Removed(columns, t, gone), t, both, target) == Reshaped(columns, [t], target)
  {
  }

  lemma ReshapedSnoc(columns: map<Key, ColumnState>, ts: seq<string>, t: string, target: map<Key, ColumnState>)
    requires t !in ts
    ensures Reshaped(Reshaped(columns, ts, target), [t], target) == Reshaped(columns, ts + [t], target)
  {
  }

  lemma StillReshapable(c: Catalog, c': Catalog, t: string, target: Catalog, mentions: Mentions)
    requires Reshapable(c, t, target, mentions) && c' == c.(columns := c'.columns)
    requires forall n :: (t, n) in c'.columns ==> (t, n) in c.columns
    ensures Reshapable(c', t, target, mentions)
  {
  }

  lemma {:induction false} RunReshape(c: Catalog, ts: seq<string>, desired: TableMap, current: TableMap,
                                      target: Catalog, mentions: Mentions)
    requires ColumnsConsistent(target) && NoDup(ts)
    requires forall t :: t in ts ==> Reshapable(c, t, target, mentions)
    requires forall t :: t in ts ==> t in desired && t in current && desired[t].name == t
                                     && Describes(target.columns, t, desired[t]) && Describes(c.columns, t, current[t])
    ensures Run(c, FlatMap(ts, t => ReshapeOps(desired, current, t)), mentions) ==
            Some(c.(columns := Reshaped(c.columns, ts, target.columns)))
  {
    var f := t => ReshapeOps(desired, current, t);
    if ts == [] {
      assert Reshaped(c.columns, ts, target.columns) == c.columns;
    } else {
      var init, t := ts[..|ts| - 1], ts[|ts| - 1];
      assert ts == init + [t];
      assert t !in init;
      RunReshape(c, init, desired, current, target, mentions);
      var c' := c.(columns := Reshaped(c.columns, init, target.columns));
      assert Describes(c'.columns, t, current[t]) by {
        assert Describes(c.columns, t, current[t]);
      }
      StillReshapable(c, c', t, target, mentions);
      RunReshapeTable(c', t, desired[t], current[t], target, mentions);
      RunConcat(c, FlatMap(init, f), f(t), mentions);
      assert FlatMap(ts, f) == FlatMap(init, f) + f(t);
      ReshapedSnoc(c.columns, init, t, target.columns);
    }
  }

  // ---------- dropping tables ----------

  function WithoutTables(c: Catalog, names: seq<string>): Catalog {
    c.(tables := c.tables - Elements(names), columns := map k | k in c.columns && k.0 !in names :: c.columns[k])
  }

  lemma RemoveDetachedTable(c: Catalog, t: string)
    requires forall k :: k in c.fks ==> k.0 != t && c.fks[k].referencedTable != t
    requires forall k :: k in c.indexes ==> k.0 != t
    requires forall k :: k in c.checks ==> k.0 != t
    ensures RemoveTable(c, t) == WithoutTables(c, [t])
  {
    assert RemoveTable(c, t).fks == c.fks;
    assert RemoveTable(c, t).indexes == c.indexes;
    assert RemoveTable(c, t).checks == c.checks;
    assert Elements([t]) == {t};
    assert RemoveTable(c, t).columns == WithoutTables(c, [t]).columns;
  }

  lemma {:induction false} RunDropTables(c: Catalog, names: seq<string>, mentions: Mentions)
    requires NoDup(names) && forall t :: t in names ==> t in c.tables
    requires forall k :: k in c.fks ==> k.0 !in names && c.fks[k].referencedTable !in names
    requires forall k :: k in c.indexes ==> k.0 !in names
    requires forall k :: k in c.checks ==> k.0 !in names
    ensures Run(c, DropTableOps(names), mentions) == Some(WithoutTables(c, names))
  {
    if names == [] {
      assert c.tables - Elements(names) == c.tables;
      assert WithoutTables(c, names).columns == c.columns;
    } else {
      var init, t := names[..|names| - 1], names[|names| - 1];
      assert names == init + [t];
      assert t !in init;
      RunDropTables(c, init, mentions);
      var c' := WithoutTables(c, init);
      assert DropTableOps(names) == DropTableOps(init) + [DropTable(t)];
      RunStep(c, DropTableOps(init), DropTable(t), c', mentions);
      RemoveDetachedTable(c', t);
      WithoutTablesSnoc(c, init, t);
    }
  }

  lemma WithoutTablesSnoc(c: Catalog, names: seq<string>, t: string)
    ensures WithoutTables(WithoutTables(c, names), [t]) == WithoutTables(c, names + [t])
  {
  }

  // ---------- creating tables ----------

  function WithTables(tables: map<string, seq<string>>, names: seq<string>, desired: TableMap): map<string, seq<string>> {
    map t | t in tables.Keys + Elements(names) && (t in tables || t in desired) ::
      if t in names && t in desired then DdlPrimaryKey(desired[t]) else tables[t]
  }

  /** Columns of the named tables, as the target has them. */
  function ColumnsIn(target: map<Key, ColumnState>, names: seq<string>): set<Key> {
    set k | k in target && k.0 in names
  }

  lemma DdlColumnsOfTarget(t: string, table: TableIR, target: Catalog)
    requires ColumnsConsistent(target) && t in target.tables && table.name == t
    requires target.tables[t] == table.primaryKey && Describes(target.columns, t, table)
    ensures DdlColumns(Bare(table)) == Restrict(target.columns, ColumnsIn(target.columns, [t]))
  {
    var ddl := DdlColumns(Bare(table));
    DictSound(table.columns, ColumnName);
    assert Columns(Bare(table)) == Columns(table);
    forall k ensures k in ddl <==> k.0 == t && k.1 in Columns(table) {
    }
    forall k: Key | k.0 == t && k.1 in Columns(table) ensures k in target.columns && ddl[k] == target.columns[k] {
      var col := Columns(table)[k.1];
      assert k == (t, k.1) && col.name == k.1;
      if table.primaryKey == [col.name] {
        assert k.1 in target.tables[t];
      }
    }
    forall k: Key | k in target.columns && k.0 == t ensures k in ddl {
      assert k == (t, k.1);
    }
  }

  lemma RestrictUnion<V>(target: map<Key, V>, a: set<Key>, b: set<Key>)
    ensures Restrict(target, a) + Restrict(target, b) == Restrict(target, a + b)
  {
  }

  lemma CreateTableAccepted(c: Catalog, t: string, desired: TableMap, target: Catalog, keep: set<Key>, mentions: Mentions)
    requires ColumnsConsistent(target) && t in target.tables && t in desired && desired[t].name == t
    requires target.tables[t] == desired[t].primaryKey && Describes(target.columns, t, desired[t])
    requires DistinctKeys(desired[t].columns, ColumnName)
    requires RelationFree(c, t) && c.columns == Restrict(target.columns, keep)
    ensures Accepts(c, CreateTable(Bare(desired[t])), mentions)
    ensures Effect(c, CreateTable(Bare(desired[t])), mentions) ==
            c.(tables := c.tables[t := DdlPrimaryKey(desired[t])],
               columns := Restrict(target.columns, keep + ColumnsIn(target.columns, [t])))
  {
    DdlColumnsOfTarget(t, desired[t], target);
    RestrictUnion(target.columns, keep, ColumnsIn(target.columns, [t]));
  }

  lemma StillFree(c: Catalog, names: seq<string>, t: string, desired: TableMap, columns: map<Key, ColumnState>)
    requires RelationFree(c, t) && t !in names
    ensures RelationFree(c.(tables := WithTables(c.tables, names, desired), columns := columns), t)
  {
  }

  lemma ColumnsInSnoc(target: map<Key, ColumnState>, keep: set<Key>, names: seq<string>, t: string)
    ensures keep + ColumnsIn(target, names) + ColumnsIn(target, [t]) == keep + ColumnsIn(target, names + [t])
  {
  }

  lemma {:induction false} RunCreateTables(c: Catalog, names: seq<string>, desired: TableMap, target: Catalog,
                                           keep: set<Key>, mentions: Mentions)
    requires ColumnsConsistent(target) && NoDup(names)
    requires c.columns == Restrict(target.columns, keep)
    requires forall t :: t in names ==>
                           t in target.tables && t in desired && desired[t].name == t
                           && target.tables[t] == desired[t].primaryKey && Describes(target.columns, t, desired[t])
                           && DistinctKeys(desired[t].columns, ColumnName) && RelationFree(c, t)
    ensures Run(c, FlatMap(names, t => CreateTableOp(desired, t)), mentions) ==
            Some(c.(tables := WithTables(c.tables, names, desired),
                    columns := Restrict(target.columns, keep + ColumnsIn(target.columns, names))))
  {
    var f := t => CreateTableOp(desired, t);
    if names == [] {
      assert WithTables(c.tables, names, desired) == c.tables;
      assert keep + ColumnsIn(target.columns, names) == keep;
    } else {
      var init, t := names[..|names| - 1], names[|names| - 1];
      assert names == init + [t];
      assert t !in init;
      RunCreateTables(c, init, desired, target, keep, mentions);
      var before := keep + ColumnsIn(target.columns, init);
      var c' := c.(tables := WithTables(c.tables, init, desired), columns := Restrict(target.columns, before));
      StillFree(c, init, t, desired, c'.columns);
      CreateTableAccepted(c', t, desired, target, before, mentions);
      assert FlatMap(names, f) == FlatMap(init, f) + [CreateTable(Bare(desired[t]))];
      RunStep(c, FlatMap(init, f), CreateTable(Bare(desired[t])), c', mentions);
      ColumnsInSnoc(target.columns, keep, init, t);
      WithTablesSnoc(c.tables, init, t, desired);
    }
  }

  lemma WithTablesSnoc(tables: map<string, seq<string>>, names: seq<string>, t: string, desired: TableMap)
    requires t in desired && t !in names
    ensures WithTables(tables, names, desired)[t := DdlPrimaryKey(desired[t])] == WithTables(tables, names + [t], desired)
  {
  }

  // ---------- adding columns ----------

  function ColumnKeys(t: string, cols: seq<ColumnIR>): set<Key> {
    set c | c in cols :: (t, c.name)
  }

  lemma RunAddColumn(c: Catalog, t: string, current: TableIR, col: ColumnIR, defaults: Defaults, target: Catalog,
                     keep: set<Key>, mentions: Mentions)
    requires t in c.tables && c.columns == Restrict(target.columns, keep)
    requires (t, col.name) in target.columns && target.columns[(t, col.name)] == StateOf(col)
    requires (t, col.name) in keep <==> col.name in Columns(current)
    ensures Run(c, AddColumnOps(t, current, col, defaults), mentions) ==
            Some(c.(columns := Restrict(target.columns, keep + {(t, col.name)})))
  {
    var k := (t, col.name);
    if k in keep {
      assert keep + {k} == keep;
    } else {
      RestrictSnoc(target.columns, keep, k);
      var default := if !col.nullable && (t, col.name) in defaults then Some(defaults[(t, col.name)]) else None;
      var add := AddColumn(t, col, default);
      RunOne(c, add, mentions);
      var c1 := Effect(c, add, mentions);
      if default.Some? {
        RunStep(c, [add], DropColumnDefault(t, col.name), c1, mentions);
        assert c1.columns[k := StateOf(col)] == c.columns[k := StateOf(col)];
        assert AddColumnOps(t, current, col, defaults) == [add] + [DropColumnDefault(t, col.name)];
      }
    }
  }

  lemma {:induction false} RunAddColumns(c: Catalog, t: string, current: TableIR, cols: seq<ColumnIR>,
                                         defaults: Defaults, target: Catalog, keep: set<Key>, mentions: Mentions)
    requires t in c.tables && c.columns == Restrict(target.columns, keep)
    requires forall i, j :: 0 <= i < j < |cols| ==> cols[i].name != cols[j].name
    requires forall col :: col in cols ==>
                             (t, col.name) in target.columns && target.columns[(t, col.name)] == StateOf(col)
                             && ((t, col.name) in keep <==> col.name in Columns(current))
    ensures Run(c, FlatMap(cols, col => AddColumnOps(t, current, col, defaults)), mentions) ==
            Some(c.(columns := Restrict(target.columns, keep + ColumnKeys(t, cols))))
  {
    var f := col => AddColumnOps(t, current, col, defaults);
    if cols == [] {
      assert keep + ColumnKeys(t, cols) == keep;
    } else {
      var init, col := cols[..|cols| - 1], cols[|cols| - 1];
      assert cols == init + [col];
      RunAddColumns(c, t, current, init, defaults, target, keep, mentions);
      var before := keep + ColumnKeys(t, init);
      var c' := c.(columns := Restrict(target.columns, before));
      assert (t, col.name) !in ColumnKeys(t, init);
      RunAddColumn(c', t, current, col, defaults, target, before, mentions);
      RunConcat(c, FlatMap(init, f), f(col), mentions);
      assert FlatMap(cols, f) == FlatMap(init, f) + f(col);
      assert before + {(t, col.name)} == keep + ColumnKeys(t, cols);
    }
  }

  lemma RunGrowTable(c: Catalog, t: string, desired: TableIR, current: TableIR, defaults: Defaults, target: Catalog,
                     keep: set<Key>, mentions: Mentions)
    requires t in c.tables && c.columns == Restrict(target.columns, keep)
    requires DistinctKeys(desired.columns, ColumnName) && Describes(target.columns, t, desired)
    requires forall n :: (t, n) in target.columns ==> ((t, n) in keep <==> n in Columns(current))
    ensures Run(c, AddColumnsOf(t, desired, current, defaults), mentions) ==
            Some(c.(columns := Restrict(target.columns, keep + ColumnsIn(target.columns, [t]))))
  {
    var cols := SortBy(desired.columns, ColumnName, StrLe);
    DiffMembers.SortedNoDup(desired.columns, ColumnName);
    DictComplete(desired.columns, ColumnName);
    forall i, j | 0 <= i < j < |cols| ensures cols[i].name != cols[j].name {
      assert cols[i] in desired.columns && cols[j] in desired.columns;
    }
    forall col | col in cols
      ensures (t, col.name) in target.columns && target.columns[(t, col.name)] == StateOf(col)
    {
    }
    RunAddColumns(c, t, current, cols, defaults, target, keep, mentions);
    forall k ensures k in ColumnKeys(t, cols) <==> k in ColumnsIn(target.columns, [t]) {
      if k in ColumnsIn(target.columns, [t]) {
        assert k == (t, k.1);
        assert Columns(desired)[k.1] in cols;
      }
    }
    assert ColumnKeys(t, cols) == ColumnsIn(target.columns, [t]);
  }

  lemma {:induction false} RunGrow(c: Catalog, ts: seq<string>, desired: TableMap, current: TableMap,
                                   defaults: Defaults, target: Catalog, keep: set<Key>, mentions: Mentions)
    requires NoDup(ts) && c.columns == Restrict(target.columns, keep)
    requires forall t :: t in ts ==>
                           t in desired && t in current && t in c.tables
                           && DistinctKeys(desired[t].columns, ColumnName) && Describes(target.columns, t, desired[t])
                           && forall n :: (t, n) in target.columns ==> ((t, n) in keep <==> n in Columns(current[t]))
    ensures Run(c, FlatMap(ts, t => GrowOps(desired, current, defaults, t)), mentions) ==
            Some(c.(columns := Restrict(target.columns, keep + ColumnsIn(target.columns, ts))))
  {
    var f := t => GrowOps(desired, current, defaults, t);
    if ts == [] {
      assert keep + ColumnsIn(target.columns, ts) == keep;
    } else {
      var init, t := ts[..|ts| - 1], ts[|ts| - 1];
      assert ts == init + [t];
      assert t !in init;
      RunGrow(c, init, desired, current, defaults, target, keep, mentions);
      var before := keep + ColumnsIn(target.columns, init);
      var c' := c.(columns := Restrict(target.columns, before));
      RunGrowTable(c', t, desired[t], current[t], defaults, target, before, mentions);
      RunConcat(c, FlatMap(init, f), f(t), mentions);
      assert FlatMap(ts, f) == FlatMap(init, f) + f(t);
      ColumnsInSnoc(target.columns, keep, init, t);
    }
  }
}
