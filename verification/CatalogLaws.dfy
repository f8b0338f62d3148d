/** Laws of the catalog that hold for every list of operations, not only for planned ones. */
module CatalogLaws {
  import opened Prelude
  import opened SchemaIR
  import opened Catalog

  // ---------- every accepted statement keeps the catalog consistent ----------

  /** `c'` still has every table (with its primary key), column and index of `c`. */
  ghost predicate Grows(c: Catalog, c': Catalog) {
    && (forall t :: t in c.tables ==> t in c'.tables && c'.tables[t] == c.tables[t])
    && (forall k :: k in c.columns ==> k in c'.columns)
    && (forall k :: k in c.indexes ==> k in c'.indexes && c'.indexes[k] == c.indexes[k])
  }

  lemma KeySurvives(c: Catalog, c': Catalog, fk: ForeignKeyIR)
    requires KeyExists(c, fk)
    requires fk.referencedTable in c'.tables && c'.tables[fk.referencedTable] == c.tables[fk.referencedTable]
    requires forall k :: k in c.indexes && k.0 == fk.referencedTable ==> k in c'.indexes && c'.indexes[k] == c.indexes[k]
    ensures KeyExists(c', fk)
  {
  }

  lemma FksGrow(c: Catalog, c': Catalog)
    requires ForeignKeysConsistent(c) && Grows(c, c')
    requires forall k :: k in c'.fks ==> k in c.fks && c'.fks[k] == c.fks[k] && k !in c'.checks
    ensures ForeignKeysConsistent(c')
  {
  }

  lemma IndexesGrow(c: Catalog, c': Catalog)
    requires IndexesConsistent(c) && Grows(c, c') && c'.indexes == c.indexes
    ensures IndexesConsistent(c')
  {
  }

  lemma ChecksGrow(c: Catalog, c': Catalog, mentions: Mentions)
    requires ChecksConsistent(c, mentions) && Grows(c, c')
    requires forall k :: k in c'.checks ==> k in c.checks && c'.checks[k] == c.checks[k]
    ensures ChecksConsistent(c', mentions)
  {
  }

  lemma CreateTableColumns(c: Catalog, t: TableIR)
    requires ColumnsConsistent(c) && t.name !in c.tables
    ensures ColumnsConsistent(c.(tables := c.tables[t.name := DdlPrimaryKey(t)], columns := c.columns + DdlColumns(t)))
  {
    DictSound(t.columns, ColumnName);
    var columns := c.columns + DdlColumns(t);
    forall n | n in DdlPrimaryKey(t) ensures (t.name, n) in columns && !columns[(t.name, n)].nullable {
      var col :| col in t.columns && t.primaryKey == [col.name];
      assert n == col.name;
      assert (t.name, n) in DdlColumns(t);
    }
  }

  lemma CreateTableNames(c: Catalog, t: TableIR)
    requires RelationNamesConsistent(c) && RelationFree(c, t.name)
    ensures RelationNamesConsistent(c.(tables := c.tables[t.name := DdlPrimaryKey(t)], columns := c.columns + DdlColumns(t)))
  {
  }

  lemma CreateTableGrows(c: Catalog, t: TableIR)
    requires RelationFree(c, t.name)
    ensures Grows(c, c.(tables := c.tables[t.name := DdlPrimaryKey(t)], columns := c.columns + DdlColumns(t)))
  {
  }

  lemma CreateTableKeeps(c: Catalog, t: TableIR, mentions: Mentions)
    requires Consistent(c, mentions) && RelationFree(c, t.name)
    ensures Consistent(c.(tables := c.tables[t.name := DdlPrimaryKey(t)], columns := c.columns + DdlColumns(t)), mentions)
  {
    var c' := c.(tables := c.tables[t.name := DdlPrimaryKey(t)], columns := c.columns + DdlColumns(t));
    CreateTableColumns(c, t);
    CreateTableNames(c, t);
    CreateTableGrows(c, t);
    GrownKeeps(c, c', mentions);
  }

  /** More tables and columns, and nothing else, leave every reference fit. */
  lemma GrownKeeps(c: Catalog, c': Catalog, mentions: Mentions)
    requires Consistent(c, mentions) && Grows(c, c') && ColumnsConsistent(c') && RelationNamesConsistent(c')
    requires c'.fks == c.fks && c'.indexes == c.indexes && c'.checks == c.checks
    ensures Consistent(c', mentions)
  {
    FksGrow(c, c');
    IndexesGrow(c, c');
    ChecksGrow(c, c', mentions);
  }

  lemma DropTableKeepsFks(c: Catalog, t: string)
    requires ForeignKeysConsistent(c)
    ensures ForeignKeysConsistent(RemoveTable(c, t))
  {
    var c' := RemoveTable(c, t);
    forall k | k in c'.fks ensures ForeignKeyFits(c', k.0, c'.fks[k]) && k !in c'.checks {
      assert ForeignKeyFits(c, k.0, c.fks[k]);
      KeySurvives(c, c', c.fks[k]);
    }
  }

  lemma DropTableKeepsIndexes(c: Catalog, t: string)
    requires IndexesConsistent(c)
    ensures IndexesConsistent(RemoveTable(c, t))
  {
  }

  lemma DropTableKeepsChecks(c: Catalog, t: string, mentions: Mentions)
    requires ChecksConsistent(c, mentions)
    ensures ChecksConsistent(RemoveTable(c, t), mentions)
  {
  }

  lemma DropTableKeeps(c: Catalog, t: string, mentions: Mentions)
    requires Consistent(c, mentions)
    ensures Consistent(RemoveTable(c, t), mentions)
  {
    DropTableKeepsFks(c, t);
    DropTableKeepsIndexes(c, t);
    DropTableKeepsChecks(c, t, mentions);
  }

  lemma DropIndexKeeps(c: Catalog, n: string, mentions: Mentions)
    requires Consistent(c, mentions) && IndexUnused(c, n)
    ensures Consistent(c.(indexes := WithoutIndex(c.indexes, n)), mentions)
  {
    var c' := c.(indexes := WithoutIndex(c.indexes, n));
    forall k | k in c'.fks ensures ForeignKeyFits(c', k.0, c'.fks[k]) {
      assert ForeignKeyFits(c, k.0, c.fks[k]);
    }
  }

  lemma AddedIndexFits(c: Catalog, t: string, i: IndexIR)
    requires IndexesConsistent(c) && RelationFree(c, i.name) && IndexFits(c, t, i)
    ensures IndexesConsistent(c.(indexes := c.indexes[(t, i.name) := i]))
  {
  }

  lemma AddedIndexNames(c: Catalog, t: string, i: IndexIR)
    requires RelationNamesConsistent(c) && RelationFree(c, i.name)
    ensures RelationNamesConsistent(c.(indexes := c.indexes[(t, i.name) := i]))
  {
  }

  lemma CreateIndexKeeps(c: Catalog, t: string, i: IndexIR, mentions: Mentions)
    requires Consistent(c, mentions) && RelationFree(c, i.name) && IndexFits(c, t, i)
    ensures Consistent(c.(indexes := c.indexes[(t, i.name) := i]), mentions)
  {
    var c' := c.(indexes := c.indexes[(t, i.name) := i]);
    FksGrow(c, c');
    ChecksGrow(c, c', mentions);
    AddedIndexFits(c, t, i);
    AddedIndexNames(c, t, i);
  }

  /** A change of columns alone is safe when primary keys stay and every used column survives. */
  lemma ColumnsChange(c: Catalog, columns: map<Key, ColumnState>, mentions: Mentions)
    requires Consistent(c, mentions) && ColumnsConsistent(c.(columns := columns))
    requires forall t, n :: (t, n) in c.columns && (t, n) !in columns ==> ColumnUnused(c, t, n, mentions)
    ensures Consistent(c.(columns := columns), mentions)
  {
    var c' := c.(columns := columns);
    forall k | k in c.fks ensures ForeignKeyFits(c', k.0, c.fks[k]) {
      var fk := c.fks[k];
      assert ForeignKeyFits(c, k.0, fk);
      assert HasColumns(c', k.0, fk.columns);
      assert HasColumns(c', fk.referencedTable, fk.referencedColumns);
      assert KeyExists(c', fk);
    }
    forall k | k in c.indexes ensures IndexFits(c', k.0, c.indexes[k]) {
      assert IndexFits(c, k.0, c.indexes[k]);
    }
    forall k | k in c.checks ensures CheckFits(c', k.0, c.checks[k], mentions) {
      assert CheckFits(c, k.0, c.checks[k], mentions);
    }
  }

  lemma SetColumnKeeps(c: Catalog, t: string, n: string, s: ColumnState, mentions: Mentions)
    requires Consistent(c, mentions) && t in c.tables && (n in c.tables[t] ==> !s.nullable)
    ensures Consistent(c.(columns := c.columns[(t, n) := s]), mentions)
  {
    ColumnsChange(c, c.columns[(t, n) := s], mentions);
  }

  lemma DropColumnKeeps(c: Catalog, t: string, n: string, mentions: Mentions)
    requires Consistent(c, mentions) && ColumnUnused(c, t, n, mentions)
    ensures Consistent(c.(columns := c.columns - {(t, n)}), mentions)
  {
    ColumnsChange(c, c.columns - {(t, n)}, mentions);
  }

  lemma AddForeignKeyKeeps(c: Catalog, t: string, fk: ForeignKeyIR, mentions: Mentions)
    requires Consistent(c, mentions) && ConstraintFree(c, (t, fk.name)) && ForeignKeyFits(c, t, fk)
    ensures Consistent(c.(fks := c.fks[(t, fk.name) := fk]), mentions)
  {
    var c' := c.(fks := c.fks[(t, fk.name) := fk]);
    forall k | k in c'.fks ensures ForeignKeyFits(c', k.0, c'.fks[k]) && k !in c'.checks {
      assert ForeignKeyFits(c, k.0, c'.fks[k]);
    }
  }

  lemma AddedCheckFits(c: Catalog, t: string, chk: CheckIR, mentions: Mentions)
    requires ChecksConsistent(c, mentions) && CheckFits(c, t, chk, mentions)
    ensures ChecksConsistent(c.(checks := c.checks[(t, chk.name) := chk]), mentions)
  {
    var c' := c.(checks := c.checks[(t, chk.name) := chk]);
    forall k | k in c'.checks ensures CheckFits(c', k.0, c'.checks[k], mentions) {
      assert CheckFits(c, k.0, c'.checks[k], mentions);
    }
  }

  lemma AddCheckKeeps(c: Catalog, t: string, chk: CheckIR, mentions: Mentions)
    requires Consistent(c, mentions) && ConstraintFree(c, (t, chk.name)) && CheckFits(c, t, chk, mentions)
    ensures Consistent(c.(checks := c.checks[(t, chk.name) := chk]), mentions)
  {
    var c' := c.(checks := c.checks[(t, chk.name) := chk]);
    FksGrow(c, c');
    IndexesGrow(c, c');
    AddedCheckFits(c, t, chk, mentions);
  }

  /** Removing a foreign key or a check, or changing sequences, touches nothing else. */
  lemma FewerConstraintsKeeps(c: Catalog, c': Catalog, mentions: Mentions)
    requires Consistent(c, mentions)
    requires c' == c.(fks := c'.fks, checks := c'.checks, sequences := c'.sequences)
    requires forall k :: k in c'.fks ==> k in c.fks && c'.fks[k] == c.fks[k]
    requires forall k :: k in c'.checks ==> k in c.checks && c'.checks[k] == c.checks[k]
    requires RelationNamesConsistent(c')
    ensures Consistent(c', mentions)
  {
    FksGrow(c, c');
    IndexesGrow(c, c');
    ChecksGrow(c, c', mentions);
  }

  lemma ColumnOpKeeps(c: Catalog, op: Op, mentions: Mentions)
    requires op.AddColumn? || op.DropColumnDefault? || op.DropColumn? || op.AlterColumnType? || op.AlterColumnNullability?
    requires Consistent(c, mentions) && Accepts(c, op, mentions)
    ensures Consistent(Effect(c, op, mentions), mentions)
  {
    match op
    case AddColumn(t, col, d) =>
      SetColumnKeeps(c, t, col.name, ColumnState(col.typeName, col.nullable, d.Some?), mentions);
    case DropColumnDefault(t, n) => SetColumnKeeps(c, t, n, c.columns[(t, n)].(hasDefault := false), mentions);
    case DropColumn(t, n) => DropColumnKeeps(c, t, n, mentions);
    case AlterColumnType(t, n, _, to) => SetColumnKeeps(c, t, n, c.columns[(t, n)].(typeName := to), mentions);
    case AlterColumnNullability(t, n, b) => SetColumnKeeps(c, t, n, c.columns[(t, n)].(nullable := b), mentions);
  }

  lemma DropConstraintKeeps(c: Catalog, k: Key, mentions: Mentions)
    requires Consistent(c, mentions)
    ensures Consistent(c.(fks := c.fks - {k}), mentions)
    ensures Consistent(c.(checks := c.checks - {k}), mentions)
  {
    FewerConstraintsKeeps(c, c.(fks := c.fks - {k}), mentions);
    FewerConstraintsKeeps(c, c.(checks := c.checks - {k}), mentions);
  }

  lemma SequencesKeep(c: Catalog, sequences: map<string, int>, mentions: Mentions)
    requires Consistent(c, mentions) && RelationNamesConsistent(c.(sequences := sequences))
    ensures Consistent(c.(sequences := sequences), mentions)
  {
    FewerConstraintsKeeps(c, c.(sequences := sequences), mentions);
  }

  lemma ApplyKeepsConsistent(c: Catalog, op: Op, mentions: Mentions)
    requires Consistent(c, mentions) && Accepts(c, op, mentions)
    ensures Consistent(Effect(c, op, mentions), mentions)
  {
    match op {
      case CreateTable(t) => CreateTableKeeps(c, t, mentions);
      case DropTable(t) => DropTableKeeps(c, t, mentions);
      case DropIndex(n) => DropIndexKeeps(c, n, mentions);
      case CreateIndex(t, i) => CreateIndexKeeps(c, t, i, mentions);
      case AddForeignKey(t, fk) => AddForeignKeyKeeps(c, t, fk, mentions);
      case AddCheck(t, chk) => AddCheckKeeps(c, t, chk, mentions);
      case DropForeignKey(t, n) => DropConstraintKeeps(c, (t, n), mentions);
      case CreateSequence(s) => SequencesKeep(c, c.sequences[s.name := s.start], mentions);
      case DropSequence(n) => SequencesKeep(c, c.sequences - {n}, mentions);
      case DropCheck(t, n) => DropConstraintKeeps(c, (t, n), mentions);
      case _ => ColumnOpKeeps(c, op, mentions);
    }
  }

  /** Whatever list of operations runs, no dangling reference and no duplicate name can result. */
  lemma {:induction false} RunKeepsConsistent(c: Catalog, ops: seq<Op>, mentions: Mentions)
    requires Consistent(c, mentions) && Run(c, ops, mentions).Some?
    ensures Consistent(Run(c, ops, mentions).value, mentions)
  {
    if ops != [] {
      RunKeepsConsistent(c, ops[..|ops| - 1], mentions);
      ApplyKeepsConsistent(Run(c, ops[..|ops| - 1], mentions).value, ops[|ops| - 1], mentions);
    }
  }

  // ---------- plans without a destructive operation ----------

  /** Nothing is lost: nullability may only loosen, and CHECK constraints alone may disappear. */
  ghost predicate Preserves(c: Catalog, c': Catalog) {
    && (forall t :: t in c.tables ==> t in c'.tables && c'.tables[t] == c.tables[t])
    && (forall k :: k in c.columns ==> k in c'.columns && c'.columns[k].typeName == c.columns[k].typeName
                                       && (c.columns[k].nullable ==> c'.columns[k].nullable))
    && (forall k :: k in c.fks ==> k in c'.fks && c'.fks[k] == c.fks[k])
    && (forall k :: k in c.indexes ==> k in c'.indexes && c'.indexes[k] == c.indexes[k])
    && (forall n :: n in c.sequences ==> n in c'.sequences && c'.sequences[n] == c.sequences[n])
  }

  lemma CreateTablePreserves(c: Catalog, t: TableIR)
    requires ColumnsConsistent(c) && t.name !in c.tables
    ensures Preserves(c, c.(tables := c.tables[t.name := DdlPrimaryKey(t)], columns := c.columns + DdlColumns(t)))
  {
  }

  lemma ColumnStepPreserves(c: Catalog, op: Op, mentions: Mentions)
    requires Accepts(c, op, mentions) && !op.Destructive()
    requires op.AddColumn? || op.AlterColumnNullability? || op.DropColumnDefault?
    ensures Preserves(c, Effect(c, op, mentions))
  {
  }

  lemma NonDestructiveStep(c: Catalog, op: Op, mentions: Mentions)
    requires ColumnsConsistent(c) && Accepts(c, op, mentions) && !op.Destructive()
    ensures Preserves(c, Effect(c, op, mentions))
  {
    match op
    case CreateTable(t) => CreateTablePreserves(c, t);
    case CreateIndex(t, i) => assert (t, i.name) !in c.indexes;
    case CreateSequence(_) =>
    case AddForeignKey(_, _) =>
    case AddCheck(_, _) =>
    case DropCheck(_, _) =>
    case _ => ColumnStepPreserves(c, op, mentions);
  }

  /** The destructive flags are enough: a run of unflagged operations loses nothing. */
  lemma {:induction false} NonDestructiveRunPreserves(c: Catalog, ops: seq<Op>, mentions: Mentions)
    requires Consistent(c, mentions) && Run(c, ops, mentions).Some?
    requires forall op :: op in ops ==> !op.Destructive()
    ensures Preserves(c, Run(c, ops, mentions).value)
  {
    if ops != [] {
      var init := ops[..|ops| - 1];
      NonDestructiveRunPreserves(c, init, mentions);
      RunKeepsConsistent(c, init, mentions);
      NonDestructiveStep(Run(c, init, mentions).value, ops[|ops| - 1], mentions);
    }
  }

  // ---------- and nothing else is flagged ----------

  /** On some catalog the server accepts the statement and something is lost. */
  ghost predicate CanLose(op: Op, mentions: Mentions) {
    exists c :: Consistent(c, mentions) && Accepts(c, op, mentions) && !Preserves(c, Effect(c, op, mentions))
  }

  function OneColumn(t: string, n: string, typeName: string): Catalog {
    Catalog(map[t := []], map[(t, n) := ColumnState(typeName, true, false)], map[], map[], map[], map[])
  }

  /** A table whose foreign key `f` references its own primary key. */
  function SelfReference(t: string, f: string): Catalog {
    Catalog(map[t := ["a"]], map[(t, "a") := ColumnState("text", false, false)],
            map[(t, f) := ForeignKeyIR(f, ["a"], t, ["a"])], map[], map[], map[])
  }

  /** One index, on a table of another name. */
  function OneIndex(n: string): Catalog {
    var t := n + "t";
    OneColumn(t, "a", "text").(indexes := map[(t, n) := IndexIR(n, ["a"], false)])
  }

  function OneSequence(n: string): Catalog {
    Catalog(map[], map[], map[], map[], map[], map[n := 1])
  }

  lemma ColumnCanBeLost(op: Op, c: Catalog, t: string, n: string, mentions: Mentions)
    requires c == OneColumn(t, n, if op.AlterColumnType? then op.fromType else "text")
    requires op == DropColumn(t, n) || op == AlterColumnNullability(t, n, false)
             || (op.AlterColumnType? && op == AlterColumnType(t, n, op.fromType, op.toType) && op.fromType != op.toType)
    ensures CanLose(op, mentions)
  {
    assert Consistent(c, mentions) && Accepts(c, op, mentions);
    assert (t, n) in c.columns;
    assert !Preserves(c, Effect(c, op, mentions));
  }

  lemma TableCanBeLost(t: string, mentions: Mentions)
    ensures CanLose(DropTable(t), mentions)
  {
    var c := OneColumn(t, "a", "text");
    assert Consistent(c, mentions) && Accepts(c, DropTable(t), mentions);
    assert t in c.tables && t !in Effect(c, DropTable(t), mentions).tables;
  }

  lemma ForeignKeyCanBeLost(t: string, f: string, mentions: Mentions)
    ensures CanLose(DropForeignKey(t, f), mentions)
  {
    var c := SelfReference(t, f);
    assert ForeignKeyFits(c, t, c.fks[(t, f)]);
    assert Consistent(c, mentions) && Accepts(c, DropForeignKey(t, f), mentions);
    assert (t, f) in c.fks && (t, f) !in Effect(c, DropForeignKey(t, f), mentions).fks;
  }

  lemma IndexCanBeLost(n: string, mentions: Mentions)
    ensures CanLose(DropIndex(n), mentions)
  {
    var c := OneIndex(n);
    assert |n + "t"| != |n|;
    assert (n + "t", n) in c.indexes;
    assert Consistent(c, mentions) && Accepts(c, DropIndex(n), mentions);
    assert (n + "t", n) !in Effect(c, DropIndex(n), mentions).indexes;
  }

  lemma SequenceCanBeLost(n: string, mentions: Mentions)
    ensures CanLose(DropSequence(n), mentions)
  {
    var c := OneSequence(n);
    assert Consistent(c, mentions) && Accepts(c, DropSequence(n), mentions);
    assert n in c.sequences && n !in Effect(c, DropSequence(n), mentions).sequences;
  }

  /** A statement is flagged destructive if and only if it can lose something on some database. */
  lemma DestructiveExactly(op: Op, mentions: Mentions)
    requires op.AlterColumnType? ==> op.fromType != op.toType
    ensures op.Destructive() <==> CanLose(op, mentions)
  {
    if !op.Destructive() && CanLose(op, mentions) {
      var c :| Consistent(c, mentions) && Accepts(c, op, mentions) && !Preserves(c, Effect(c, op, mentions));
      NonDestructiveStep(c, op, mentions);
    }
    if op.Destructive() {
      match op
      case DropTable(t) => TableCanBeLost(t, mentions);
      case DropForeignKey(t, f) => ForeignKeyCanBeLost(t, f, mentions);
      case DropIndex(n) => IndexCanBeLost(n, mentions);
      case DropSequence(n) => SequenceCanBeLost(n, mentions);
      case DropColumn(t, n) => ColumnCanBeLost(op, OneColumn(t, n, "text"), t, n, mentions);
      case AlterColumnNullability(t, n, _) => ColumnCanBeLost(op, OneColumn(t, n, "text"), t, n, mentions);
      case AlterColumnType(t, n, from, _) => ColumnCanBeLost(op, OneColumn(t, n, from), t, n, mentions);
    }
  }

  // ---------- primary keys never change in place ----------

  /** The operations that give or take the table itself. */
  predicate Recreates(op: Op, t: string) {
    (op.CreateTable? && op.table.name == t) || (op.DropTable? && op.tableName == t)
  }

  lemma PrimaryKeyStep(c: Catalog, op: Op, t: string, mentions: Mentions)
    requires Accepts(c, op, mentions)
    ensures !Recreates(op, t) ==> (t in Effect(c, op, mentions).tables <==> t in c.tables)
    ensures !Recreates(op, t) && t in c.tables ==> Effect(c, op, mentions).tables[t] == c.tables[t]
    ensures op.CreateTable? ==> Effect(c, op, mentions).tables == c.tables[op.table.name := DdlPrimaryKey(op.table)]
  {
    match op
    case CreateTable(_) =>
    case DropTable(_) =>
    case _ => assert Effect(c, op, mentions).tables == c.tables;
  }

  lemma {:induction false} PrimaryKeyFixed(c: Catalog, ops: seq<Op>, t: string, mentions: Mentions)
    requires Run(c, ops, mentions).Some? && t in c.tables
    requires forall op :: op in ops ==> !Recreates(op, t)
    ensures t in Run(c, ops, mentions).value.tables && Run(c, ops, mentions).value.tables[t] == c.tables[t]
  {
    if ops != [] {
      var init, last := ops[..|ops| - 1], ops[|ops| - 1];
      assert last in ops;
      PrimaryKeyFixed(c, init, t, mentions);
      PrimaryKeyStep(Run(c, init, mentions).value, last, t, mentions);
    }
  }

  lemma {:induction false} CreatedPrimaryKey(c: Catalog, ops: seq<Op>, table: TableIR, mentions: Mentions)
    requires Run(c, ops, mentions).Some? && table.name !in c.tables
    requires forall op :: op in ops && Recreates(op, table.name) ==> op == CreateTable(table)
    ensures table.name in Run(c, ops, mentions).value.tables ==>
              Run(c, ops, mentions).value.tables[table.name] == DdlPrimaryKey(table)
  {
    if ops != [] {
      var init, last := ops[..|ops| - 1], ops[|ops| - 1];
      assert last in ops;
      CreatedPrimaryKey(c, init, table, mentions);
      PrimaryKeyStep(Run(c, init, mentions).value, last, table.name, mentions);
    }
  }
}
