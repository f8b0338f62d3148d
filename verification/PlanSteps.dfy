/** What a plan contains, operation by operation, read off the two snapshots (schema/diff.py `diff_schemas`). */
module PlanSteps {
  import opened Prelude
  import opened Ordering
  import opened SchemaIR
  import opened Catalog
  import opened SchemaDiff
  import opened DiffMembers
  import opened DiffCorrect
  import TopoSort

  // ---------- which operations the difference calls for ----------

  ghost predicate HasTable(s: SchemaIR, t: string) {
    exists x :: x in s.tables && x.name == t
  }

  ghost predicate HasColumn(x: TableIR, n: string) {
    exists col :: col in x.columns && col.name == n
  }

  /** A table of both snapshots. */
  ghost predicate Shared(x: TableIR, y: TableIR, d: SchemaIR, c: SchemaIR, t: string) {
    x in d.tables && y in c.tables && x.name == t && y.name == t
  }

  /** A required column takes its create default, if there is one; an optional column takes none. */
  function DefaultFor(t: string, col: ColumnIR, defaults: Defaults): Option<DefaultValue> {
    if col.nullable then None else if (t, col.name) in defaults then Some(defaults[(t, col.name)]) else None
  }

  ghost predicate WantsColumn(d: SchemaIR, c: SchemaIR, t: string, col: ColumnIR) {
    exists x, y :: Shared(x, y, d, c, t) && col in x.columns && !HasColumn(y, col.name)
  }

  /** `want` and `have` describe column `n` of a table of both snapshots. */
  ghost predicate Columns2(d: SchemaIR, c: SchemaIR, t: string, want: ColumnIR, have: ColumnIR) {
    want.name == have.name && exists x, y :: Shared(x, y, d, c, t) && want in x.columns && have in y.columns
  }

  ghost predicate HasMember<V>(s: SchemaIR, t: string, list: TableIR -> seq<V>, m: V) {
    exists x :: x in s.tables && x.name == t && m in list(x)
  }

  /** A member that `a` has and `b` has not, or not in this form. */
  ghost predicate Only<V>(a: SchemaIR, b: SchemaIR, kind: Kind<V>, t: string, m: V) {
    HasMember(a, t, kind.list, m) && !HasMember(b, t, kind.list, m)
  }

  ghost predicate OnlyNamed<V(!new)>(a: SchemaIR, b: SchemaIR, kind: Kind<V>, t: string, n: string) {
    exists m :: kind.key(m) == n && Only(a, b, kind, t, m)
  }

  ghost predicate Wanted(op: Op, d: SchemaIR, c: SchemaIR, defaults: Defaults) {
    match op
    case CreateTable(table) =>
      exists x :: x in d.tables && !HasTable(c, x.name) && table == TableIR(x.name, x.columns, x.primaryKey, [], [], [])
    case DropTable(t) => HasTable(c, t) && !HasTable(d, t)
    case AddColumn(t, col, default) => WantsColumn(d, c, t, col) && default == DefaultFor(t, col, defaults)
    case DropColumnDefault(t, n) =>
      exists col: ColumnIR :: col.name == n && WantsColumn(d, c, t, col) && DefaultFor(t, col, defaults).Some?
    case DropColumn(t, n) => exists x, y :: Shared(x, y, d, c, t) && HasColumn(y, n) && !HasColumn(x, n)
    case AlterColumnType(t, n, from, to) =>
      from != to && exists want, have :: Columns2(d, c, t, want, have) && want.name == n && have.typeName == from && want.typeName == to
    case AlterColumnNullability(t, n, nullable) =>
      exists want, have :: Columns2(d, c, t, want, have) && want.name == n && want.nullable == nullable && have.nullable != nullable
    case AddForeignKey(t, fk) => Only(d, c, FOREIGN_KEYS, t, fk)
    case DropForeignKey(t, n) => OnlyNamed(c, d, FOREIGN_KEYS, t, n)
    case CreateIndex(t, i) => Only(d, c, INDEXES, t, i)
    case DropIndex(n) => exists t :: OnlyNamed(c, d, INDEXES, t, n)
    case AddCheck(t, chk) => Only(d, c, CHECKS, t, chk)
    case DropCheck(t, n) => OnlyNamed(c, d, CHECKS, t, n)
    case CreateSequence(s) => s in d.sequences && forall r :: r in c.sequences ==> r.name != s.name
    case DropSequence(n) => (exists r :: r in c.sequences && r.name == n) && forall s :: s in d.sequences ==> s.name != n
  }

  /** The phase an operation belongs to. */
  function PhaseOf(op: Op): nat {
    match op
    case DropForeignKey(_, _) => 0
    case DropIndex(_) => 1
    case DropCheck(_, _) => 2
    case DropColumn(_, _) => 3
    case AlterColumnType(_, _, _, _) => 3
    case AlterColumnNullability(_, _, _) => 3
    case DropTable(_) => 4
    case DropSequence(_) => 5
    case CreateTable(_) => 6
    case AddColumn(_, _, _) => 7
    case DropColumnDefault(_, _) => 7
    case CreateSequence(_) => 8
    case CreateIndex(_, _) => 9
    case AddForeignKey(_, _) => 10
    case AddCheck(_, _) => 11
  }

  // ---------- names and tables ----------

  lemma TableByName(s: SchemaIR)
    requires UniqueNames(s)
    ensures forall t :: HasTable(s, t) <==> t in Tables(s)
    ensures forall x :: x in s.tables <==> x.name in Tables(s) && Tables(s)[x.name] == x
    ensures forall t :: t in Tables(s) ==> Tables(s)[t].name == t && UniqueMembers(Tables(s)[t])
  {
    DictComplete(s.tables, TableName);
    forall t | HasTable(s, t) ensures t in Tables(s) {
      var x :| x in s.tables && x.name == t;
      assert TableName(x) in Tables(s);
    }
  }

  lemma ColumnByName(x: TableIR)
    requires UniqueMembers(x)
    ensures forall n :: HasColumn(x, n) <==> n in Columns(x)
    ensures forall col :: col in x.columns <==> col.name in Columns(x) && Columns(x)[col.name] == col
    ensures forall n :: n in Columns(x) ==> Columns(x)[n].name == n
  {
    DictComplete(x.columns, ColumnName);
    forall n | HasColumn(x, n) ensures n in Columns(x) {
      var col :| col in x.columns && col.name == n;
      assert ColumnName(col) in Columns(x);
    }
  }

  // ---------- segments ----------

  /** Exactly the wanted operations of the phases from `from` to before `to`, phase by phase. */
  ghost predicate Segment(ops: seq<Op>, from: nat, to: nat, d: SchemaIR, c: SchemaIR, defaults: Defaults) {
    && (forall op :: op in ops <==> from <= PhaseOf(op) < to && Wanted(op, d, c, defaults))
    && forall i, j :: 0 <= i < j < |ops| ==> PhaseOf(ops[i]) <= PhaseOf(ops[j])
  }

  lemma Join(a: seq<Op>, b: seq<Op>, i: nat, j: nat, k: nat, d: SchemaIR, c: SchemaIR, defaults: Defaults)
    requires i <= j <= k && Segment(a, i, j, d, c, defaults) && Segment(b, j, k, d, c, defaults)
    ensures Segment(a + b, i, k, d, c, defaults)
  {
    forall m, n | 0 <= m < n < |a + b| ensures PhaseOf((a + b)[m]) <= PhaseOf((a + b)[n]) {
      if m < |a| {
        assert a[m] in a;
      }
      if n >= |a| {
        assert b[n - |a|] in b;
      }
    }
  }

  lemma OnePhase(ops: seq<Op>, i: nat, d: SchemaIR, c: SchemaIR, defaults: Defaults)
    requires forall op :: op in ops <==> PhaseOf(op) == i && Wanted(op, d, c, defaults)
    ensures Segment(ops, i, i + 1, d, c, defaults)
  {
    forall m, n | 0 <= m < n < |ops| ensures PhaseOf(ops[m]) <= PhaseOf(ops[n]) {
      assert ops[m] in ops && ops[n] in ops;
    }
  }

  // ---------- members ----------

  lemma MemberByName<V(!new)>(s: SchemaIR, kind: Kind<V>, t: string, m: V)
    requires UniqueNames(s) && DistinctMembers(Tables(s), kind)
    ensures HasMember(s, t, kind.list, m) <==> t in Tables(s) && m in kind.list(Tables(s)[t])
    ensures HasMember(s, t, kind.list, m) <==>
            t in Tables(s) && kind.key(m) in kind.View(Tables(s)[t]) && kind.View(Tables(s)[t])[kind.key(m)] == m
  {
    TableByName(s);
    if t in Tables(s) {
      DictComplete(kind.list(Tables(s)[t]), kind.key);
    }
  }

  /** Dropped keys are the names of members that only the current snapshot has. */
  lemma DropKeysWanted<V(!new)>(d: SchemaIR, c: SchemaIR, kind: Kind<V>, k: Key)
    requires UniqueNames(d) && UniqueNames(c) && DistinctMembers(Tables(d), kind) && DistinctMembers(Tables(c), kind)
    ensures k in DropKeys(Tables(d), Tables(c), kind) <==> OnlyNamed(c, d, kind, k.0, k.1)
  {
    var dt, ct := Tables(d), Tables(c);
    DropKeysSelected(dt, ct, kind);
    if k in DropKeys(dt, ct, kind) {
      var m := kind.View(ct[k.0])[k.1];
      DictSound(kind.list(ct[k.0]), kind.key);
      MemberByName(c, kind, k.0, m);
      MemberByName(d, kind, k.0, m);
      assert Only(c, d, kind, k.0, m);
    }
    if OnlyNamed(c, d, kind, k.0, k.1) {
      var m :| kind.key(m) == k.1 && Only(c, d, kind, k.0, m);
      MemberByName(c, kind, k.0, m);
      MemberByName(d, kind, k.0, m);
    }
  }

  lemma AddItemsWanted<V(!new)>(order: seq<string>, d: SchemaIR, c: SchemaIR, kind: Kind<V>, t: string, m: V)
    requires UniqueNames(d) && UniqueNames(c) && DistinctMembers(Tables(d), kind) && DistinctMembers(Tables(c), kind)
    requires NoDup(order) && forall u :: u in order <==> u in Tables(d)
    ensures (t, m) in AddItems(order, Tables(d), Tables(c), kind) <==> Only(d, c, kind, t, m)
  {
    AddItemsSelected(order, Tables(d), Tables(c), kind);
    MemberByName(d, kind, t, m);
    MemberByName(c, kind, t, m);
  }

  lemma KindsDistinct(s: SchemaIR)
    requires UniqueNames(s)
    ensures DistinctMembers(Tables(s), FOREIGN_KEYS) && DistinctMembers(Tables(s), INDEXES) && DistinctMembers(Tables(s), CHECKS)
  {
    TableByName(s);
  }

  lemma KeyedOps(keys: seq<Key>, t: string, n: string)
    ensures DropForeignKey(t, n) in DropForeignKeyOps(keys) <==> (t, n) in keys
    ensures DropCheck(t, n) in DropCheckOps(keys) <==> (t, n) in keys
    ensures DropIndex(n) in DropIndexOps(keys) <==> exists u :: (u, n) in keys
  {
    if (t, n) in keys {
      var i :| 0 <= i < |keys| && keys[i] == (t, n);
      assert DropForeignKeyOps(keys)[i] == DropForeignKey(t, n) && DropCheckOps(keys)[i] == DropCheck(t, n);
    }
    if u :| (u, n) in keys {
      var i :| 0 <= i < |keys| && keys[i] == (u, n);
      assert DropIndexOps(keys)[i] == DropIndex(n);
    }
    if DropForeignKey(t, n) in DropForeignKeyOps(keys) {
      var i :| 0 <= i < |keys| && DropForeignKeyOps(keys)[i] == DropForeignKey(t, n);
      assert keys[i] == (t, n);
    }
    if DropCheck(t, n) in DropCheckOps(keys) {
      var i :| 0 <= i < |keys| && DropCheckOps(keys)[i] == DropCheck(t, n);
      assert keys[i] == (t, n);
    }
    if DropIndex(n) in DropIndexOps(keys) {
      var i :| 0 <= i < |keys| && DropIndexOps(keys)[i] == DropIndex(n);
      assert keys[i] == (keys[i].0, n);
    }
  }

  lemma DropForeignKeysSegment(d: SchemaIR, c: SchemaIR, defaults: Defaults)
    requires UniqueNames(d) && UniqueNames(c)
    ensures Segment(DropForeignKeyOps(DropKeys(Tables(d), Tables(c), FOREIGN_KEYS)), 0, 1, d, c, defaults)
  {
    var keys := DropKeys(Tables(d), Tables(c), FOREIGN_KEYS);
    KindsDistinct(d);
    KindsDistinct(c);
    forall op ensures op in DropForeignKeyOps(keys) <==> PhaseOf(op) == 0 && Wanted(op, d, c, defaults) {
      if op.DropForeignKey? {
        KeyedOps(keys, op.tableName, op.constraintName);
        DropKeysWanted(d, c, FOREIGN_KEYS, (op.tableName, op.constraintName));
      }
    }
    OnePhase(DropForeignKeyOps(keys), 0, d, c, defaults);
  }

  lemma DropIndexWanted(keys: seq<Key>, d: SchemaIR, c: SchemaIR, n: string)
    requires UniqueNames(d) && UniqueNames(c) && keys == DropKeys(Tables(d), Tables(c), INDEXES)
    ensures DropIndex(n) in DropIndexOps(keys) <==> exists t :: OnlyNamed(c, d, INDEXES, t, n)
  {
    KindsDistinct(d);
    KindsDistinct(c);
    KeyedOps(keys, "", n);
    forall t ensures (t, n) in keys <==> OnlyNamed(c, d, INDEXES, t, n) {
      DropKeysWanted(d, c, INDEXES, (t, n));
    }
  }

  lemma DropIndexesSegment(d: SchemaIR, c: SchemaIR, defaults: Defaults)
    requires UniqueNames(d) && UniqueNames(c)
    ensures Segment(DropIndexOps(DropKeys(Tables(d), Tables(c), INDEXES)), 1, 2, d, c, defaults)
  {
    var keys := DropKeys(Tables(d), Tables(c), INDEXES);
    forall op ensures op in DropIndexOps(keys) <==> PhaseOf(op) == 1 && Wanted(op, d, c, defaults) {
      if op.DropIndex? {
        DropIndexWanted(keys, d, c, op.indexName);
      }
    }
    OnePhase(DropIndexOps(keys), 1, d, c, defaults);
  }

  lemma DropChecksSegment(d: SchemaIR, c: SchemaIR, defaults: Defaults)
    requires UniqueNames(d) && UniqueNames(c)
    ensures Segment(DropCheckOps(DropKeys(Tables(d), Tables(c), CHECKS)), 2, 3, d, c, defaults)
  {
    var keys := DropKeys(Tables(d), Tables(c), CHECKS);
    KindsDistinct(d);
    KindsDistinct(c);
    forall op ensures op in DropCheckOps(keys) <==> PhaseOf(op) == 2 && Wanted(op, d, c, defaults) {
      if op.DropCheck? {
        KeyedOps(keys, op.tableName, op.constraintName);
        DropKeysWanted(d, c, CHECKS, (op.tableName, op.constraintName));
      }
    }
    OnePhase(DropCheckOps(keys), 2, d, c, defaults);
  }

  lemma DetachSegment(d: SchemaIR, c: SchemaIR, defaults: Defaults)
    requires UniqueNames(d) && UniqueNames(c)
    ensures Segment(DetachPhase(Tables(d), Tables(c)), 0, 3, d, c, defaults)
  {
    DropForeignKeysSegment(d, c, defaults);
    DropIndexesSegment(d, c, defaults);
    DropChecksSegment(d, c, defaults);
    var fks := DropForeignKeyOps(DropKeys(Tables(d), Tables(c), FOREIGN_KEYS));
    var indexes := DropIndexOps(DropKeys(Tables(d), Tables(c), INDEXES));
    Join(fks, indexes, 0, 1, 2, d, c, defaults);
    Join(fks + indexes, DropCheckOps(DropKeys(Tables(d), Tables(c), CHECKS)), 0, 2, 3, d, c, defaults);
  }

  lemma IndexItems(items: seq<(string, IndexIR)>, t: string, m: IndexIR)
    ensures CreateIndex(t, m) in CreateIndexOps(items) <==> (t, m) in items
  {
    if (t, m) in items {
      var i :| 0 <= i < |items| && items[i] == (t, m);
      assert CreateIndexOps(items)[i] == CreateIndex(t, m);
    }
    if CreateIndex(t, m) in CreateIndexOps(items) {
      var i :| 0 <= i < |items| && CreateIndexOps(items)[i] == CreateIndex(t, m);
      assert items[i] == (t, m);
    }
  }

  lemma ForeignKeyItems(items: seq<(string, ForeignKeyIR)>, t: string, m: ForeignKeyIR)
    ensures AddForeignKey(t, m) in AddForeignKeyOps(items) <==> (t, m) in items
  {
    if (t, m) in items {
      var i :| 0 <= i < |items| && items[i] == (t, m);
      assert AddForeignKeyOps(items)[i] == AddForeignKey(t, m);
    }
    if AddForeignKey(t, m) in AddForeignKeyOps(items) {
      var i :| 0 <= i < |items| && AddForeignKeyOps(items)[i] == AddForeignKey(t, m);
      assert items[i] == (t, m);
    }
  }

  lemma CheckItems(items: seq<(string, CheckIR)>, t: string, m: CheckIR)
    ensures AddCheck(t, m) in AddCheckOps(items) <==> (t, m) in items
  {
    if (t, m) in items {
      var i :| 0 <= i < |items| && items[i] == (t, m);
      assert AddCheckOps(items)[i] == AddCheck(t, m);
    }
    if AddCheck(t, m) in AddCheckOps(items) {
      var i :| 0 <= i < |items| && AddCheckOps(items)[i] == AddCheck(t, m);
      assert items[i] == (t, m);
    }
  }

  lemma AddIndexesSegment(order: seq<string>, d: SchemaIR, c: SchemaIR, defaults: Defaults)
    requires UniqueNames(d) && UniqueNames(c) && NoDup(order) && forall u :: u in order <==> u in Tables(d)
    ensures Segment(CreateIndexOps(AddItems(order, Tables(d), Tables(c), INDEXES)), 9, 10, d, c, defaults)
  {
    var items := AddItems(order, Tables(d), Tables(c), INDEXES);
    KindsDistinct(d);
    KindsDistinct(c);
    forall op ensures op in CreateIndexOps(items) <==> PhaseOf(op) == 9 && Wanted(op, d, c, defaults) {
      if op.CreateIndex? {
        IndexItems(items, op.tableName, op.index);
        AddItemsWanted(order, d, c, INDEXES, op.tableName, op.index);
      }
    }
    OnePhase(CreateIndexOps(items), 9, d, c, defaults);
  }

  lemma AddForeignKeysSegment(order: seq<string>, d: SchemaIR, c: SchemaIR, defaults: Defaults)
    requires UniqueNames(d) && UniqueNames(c) && NoDup(order) && forall u :: u in order <==> u in Tables(d)
    ensures Segment(AddForeignKeyOps(AddItems(order, Tables(d), Tables(c), FOREIGN_KEYS)), 10, 11, d, c, defaults)
  {
    var items := AddItems(order, Tables(d), Tables(c), FOREIGN_KEYS);
    KindsDistinct(d);
    KindsDistinct(c);
    forall op ensures op in AddForeignKeyOps(items) <==> PhaseOf(op) == 10 && Wanted(op, d, c, defaults) {
      if op.AddForeignKey? {
        ForeignKeyItems(items, op.tableName, op.foreignKey);
        AddItemsWanted(order, d, c, FOREIGN_KEYS, op.tableName, op.foreignKey);
      }
    }
    OnePhase(AddForeignKeyOps(items), 10, d, c, defaults);
  }

  lemma AddChecksSegment(order: seq<string>, d: SchemaIR, c: SchemaIR, defaults: Defaults)
    requires UniqueNames(d) && UniqueNames(c) && NoDup(order) && forall u :: u in order <==> u in Tables(d)
    ensures Segment(AddCheckOps(AddItems(order, Tables(d), Tables(c), CHECKS)), 11, 12, d, c, defaults)
  {
    var items := AddItems(order, Tables(d), Tables(c), CHECKS);
    KindsDistinct(d);
    KindsDistinct(c);
    forall op ensures op in AddCheckOps(items) <==> PhaseOf(op) == 11 && Wanted(op, d, c, defaults) {
      if op.AddCheck? {
        CheckItems(items, op.tableName, op.check);
        AddItemsWanted(order, d, c, CHECKS, op.tableName, op.check);
      }
    }
    OnePhase(AddCheckOps(items), 11, d, c, defaults);
  }

  lemma AttachSegment(d: SchemaIR, c: SchemaIR, defaults: Defaults, o: Orders)
    requires UniqueNames(d) && UniqueNames(c) && ValidOrders(o, Tables(d), Tables(c))
    ensures Segment(AttachPhase(Tables(d), Tables(c), o), 9, 12, d, c, defaults)
  {
    var names := SortedNames(Tables(d).Keys);
    SortedNamesNoDup(Tables(d).Keys);
    OrderMembers(Tables(d), Tables(c), o);
    AddIndexesSegment(names, d, c, defaults);
    AddForeignKeysSegment(o.links, d, c, defaults);
    AddChecksSegment(names, d, c, defaults);
    var indexes := CreateIndexOps(AddItems(names, Tables(d), Tables(c), INDEXES));
    var fks := AddForeignKeyOps(AddItems(o.links, Tables(d), Tables(c), FOREIGN_KEYS));
    Join(indexes, fks, 9, 10, 11, d, c, defaults);
    Join(indexes + fks, AddCheckOps(AddItems(names, Tables(d), Tables(c), CHECKS)), 9, 11, 12, d, c, defaults);
  }

  // ---------- tables, sequences and columns ----------

  lemma NamedOps(names: seq<string>, n: string)
    ensures DropTable(n) in DropTableOps(names) <==> n in names
    ensures DropSequence(n) in DropSequenceOps(names) <==> n in names
  {
    if n in names {
      var i :| 0 <= i < |names| && names[i] == n;
      assert DropTableOps(names)[i] == DropTable(n) && DropSequenceOps(names)[i] == DropSequence(n);
    }
  }

  lemma SequenceByName(s: SchemaIR)
    requires UniqueNames(s)
    ensures forall n :: n in Sequences(s) <==> exists r :: r in s.sequences && r.name == n
    ensures forall r :: r in s.sequences <==> r.name in Sequences(s) && Sequences(s)[r.name] == r
  {
    DictComplete(s.sequences, SequenceName);
    forall n | exists r :: r in s.sequences && r.name == n ensures n in Sequences(s) {
      var r :| r in s.sequences && r.name == n;
      assert SequenceName(r) in Sequences(s);
    }
  }

  lemma DropTablesSegment(d: SchemaIR, c: SchemaIR, defaults: Defaults, o: Orders)
    requires UniqueNames(d) && UniqueNames(c) && ValidOrders(o, Tables(d), Tables(c))
    ensures Segment(DropTableOps(o.drops), 4, 5, d, c, defaults)
  {
    OrderMembers(Tables(d), Tables(c), o);
    TableByName(d);
    TableByName(c);
    forall op ensures op in DropTableOps(o.drops) <==> PhaseOf(op) == 4 && Wanted(op, d, c, defaults) {
      if op.DropTable? {
        NamedOps(o.drops, op.tableName);
      }
    }
    OnePhase(DropTableOps(o.drops), 4, d, c, defaults);
  }

  lemma DropSequencesSegment(d: SchemaIR, c: SchemaIR, defaults: Defaults)
    requires UniqueNames(d) && UniqueNames(c)
    ensures Segment(DropSequenceOps(SortedNames(Sequences(c).Keys - Sequences(d).Keys)), 5, 6, d, c, defaults)
  {
    var gone := SortedNames(Sequences(c).Keys - Sequences(d).Keys);
    SequenceByName(d);
    SequenceByName(c);
    forall op ensures op in DropSequenceOps(gone) <==> PhaseOf(op) == 5 && Wanted(op, d, c, defaults) {
      if op.DropSequence? {
        NamedOps(gone, op.sequenceName);
      }
    }
    OnePhase(DropSequenceOps(gone), 5, d, c, defaults);
  }

  lemma CreateTableWanted(creates: seq<string>, d: SchemaIR, c: SchemaIR, op: Op, defaults: Defaults)
    requires UniqueNames(d) && UniqueNames(c)
    requires forall t :: t in creates <==> t in Tables(d) && t !in Tables(c)
    ensures op in FlatMap(creates, t => CreateTableOp(Tables(d), t)) <==> op.CreateTable? && Wanted(op, d, c, defaults)
  {
    var f := t => CreateTableOp(Tables(d), t);
    TableByName(d);
    TableByName(c);
    FlatMapMembers(creates, f, op);
    if op in FlatMap(creates, f) {
      var t :| t in creates && op in f(t);
      assert Tables(d)[t] in d.tables;
    }
    if op.CreateTable? && Wanted(op, d, c, defaults) {
      var x :| x in d.tables && !HasTable(c, x.name) && op.table == TableIR(x.name, x.columns, x.primaryKey, [], [], []);
      assert x.name in creates && op in f(x.name);
    }
  }

  lemma CreateTablesSegment(d: SchemaIR, c: SchemaIR, defaults: Defaults, o: Orders)
    requires UniqueNames(d) && UniqueNames(c) && ValidOrders(o, Tables(d), Tables(c))
    ensures Segment(FlatMap(o.creates, t => CreateTableOp(Tables(d), t)), 6, 7, d, c, defaults)
  {
    OrderMembers(Tables(d), Tables(c), o);
    var ops := FlatMap(o.creates, t => CreateTableOp(Tables(d), t));
    forall op ensures op in ops <==> PhaseOf(op) == 6 && Wanted(op, d, c, defaults) {
      CreateTableWanted(o.creates, d, c, op, defaults);
    }
    OnePhase(ops, 6, d, c, defaults);
  }

  lemma CreateSequencesSegment(d: SchemaIR, c: SchemaIR, defaults: Defaults)
    requires UniqueNames(d) && UniqueNames(c)
    ensures Segment(FlatMap(SortedNames(Sequences(d).Keys - Sequences(c).Keys), n => CreateSequenceOp(Sequences(d), n)), 8, 9, d, c, defaults)
  {
    var missing := SortedNames(Sequences(d).Keys - Sequences(c).Keys);
    var f := n => CreateSequenceOp(Sequences(d), n);
    SequenceByName(d);
    SequenceByName(c);
    forall op ensures op in FlatMap(missing, f) <==> PhaseOf(op) == 8 && Wanted(op, d, c, defaults) {
      FlatMapMembers(missing, f, op);
      if op in FlatMap(missing, f) {
        var n :| n in missing && op in f(n);
        assert Sequences(d)[n] in d.sequences by { DictSound(d.sequences, SequenceName); }
      }
      if op.CreateSequence? && Wanted(op, d, c, defaults) {
        assert op.sequence.name in missing && op in f(op.sequence.name);
      }
    }
    OnePhase(FlatMap(missing, f), 8, d, c, defaults);
  }

  /** What changes in the columns of a shared table. */
  ghost predicate ColumnStep(op: Op, x: TableIR, y: TableIR) {
    match op
    case DropColumn(t, n) => t == x.name && n in Columns(y) && n !in Columns(x)
    case AlterColumnType(t, n, from, to) =>
      t == x.name && n in Columns(x) && n in Columns(y) && from == Columns(y)[n].typeName && to == Columns(x)[n].typeName && from != to
    case AlterColumnNullability(t, n, nullable) =>
      t == x.name && n in Columns(x) && n in Columns(y) && nullable == Columns(x)[n].nullable && nullable != Columns(y)[n].nullable
    case _ => false
  }

  lemma DroppedColumnOps(t: string, names: seq<string>, op: Op)
    ensures op in DropColumnOps(t, names) <==> op.DropColumn? && op.tableName == t && op.columnName in names
  {
    if op.DropColumn? && op.tableName == t && op.columnName in names {
      var i :| 0 <= i < |names| && names[i] == op.columnName;
      assert DropColumnOps(t, names)[i] == op;
    }
  }

  lemma ColumnOpsExact(x: TableIR, y: TableIR, op: Op)
    ensures op in ColumnOps(x, y) <==> ColumnStep(op, x, y)
  {
    var gone, both := SortedNames(Columns(y).Keys - Columns(x).Keys), SortedNames(Columns(x).Keys * Columns(y).Keys);
    var f := n => AlterColumn(x, y, n);
    DroppedColumnOps(x.name, gone, op);
    FlatMapMembers(both, f, op);
    if op in FlatMap(both, f) {
      var n :| n in both && op in f(n);
    }
    if ColumnStep(op, x, y) && !op.DropColumn? {
      assert op.columnName in both && op in f(op.columnName);
    }
  }

  lemma ColumnStepWanted(d: SchemaIR, c: SchemaIR, op: Op, defaults: Defaults)
    requires UniqueNames(d) && UniqueNames(c) && PhaseOf(op) == 3
    ensures Wanted(op, d, c, defaults) <==>
            op.tableName in Tables(d) && op.tableName in Tables(c) && ColumnStep(op, Tables(d)[op.tableName], Tables(c)[op.tableName])
  {
    var t := op.tableName;
    TableByName(d);
    TableByName(c);
    if t in Tables(d) && t in Tables(c) {
      var x, y := Tables(d)[t], Tables(c)[t];
      assert Shared(x, y, d, c, t);
      ColumnByName(x);
      ColumnByName(y);
      if ColumnStep(op, x, y) && !op.DropColumn? {
        assert Columns2(d, c, t, Columns(x)[op.columnName], Columns(y)[op.columnName]);
      }
    }
  }

  lemma ReshapeSegment(d: SchemaIR, c: SchemaIR, defaults: Defaults)
    requires UniqueNames(d) && UniqueNames(c)
    ensures Segment(FlatMap(SortedNames(Tables(d).Keys * Tables(c).Keys), t => ReshapeOps(Tables(d), Tables(c), t)), 3, 4, d, c, defaults)
  {
    var names := SortedNames(Tables(d).Keys * Tables(c).Keys);
    var f := t => ReshapeOps(Tables(d), Tables(c), t);
    forall op ensures op in FlatMap(names, f) <==> PhaseOf(op) == 3 && Wanted(op, d, c, defaults) {
      ReshapeWanted(d, c, op, defaults);
    }
    OnePhase(FlatMap(names, f), 3, d, c, defaults);
  }

  lemma ReshapeWanted(d: SchemaIR, c: SchemaIR, op: Op, defaults: Defaults)
    requires UniqueNames(d) && UniqueNames(c)
    ensures op in FlatMap(SortedNames(Tables(d).Keys * Tables(c).Keys), t => ReshapeOps(Tables(d), Tables(c), t)) <==>
            PhaseOf(op) == 3 && Wanted(op, d, c, defaults)
  {
    var dt, ct := Tables(d), Tables(c);
    var names := SortedNames(dt.Keys * ct.Keys);
    var f := t => ReshapeOps(dt, ct, t);
    TableByName(d);
    FlatMapMembers(names, f, op);
    if op in FlatMap(names, f) {
      var t :| t in names && op in f(t);
      ColumnOpsExact(dt[t], ct[t], op);
      ColumnStepWanted(d, c, op, defaults);
    }
    if PhaseOf(op) == 3 && Wanted(op, d, c, defaults) {
      ColumnStepWanted(d, c, op, defaults);
      ColumnOpsExact(dt[op.tableName], ct[op.tableName], op);
      assert op.tableName in names && op in f(op.tableName);
    }
  }

  // ---------- added columns ----------

  /** The operation adds the column, with its create default, or drops that default again. */
  ghost predicate AddsColumn(op: Op, t: string, col: ColumnIR, defaults: Defaults) {
    op == AddColumn(t, col, DefaultFor(t, col, defaults))
    || (op == DropColumnDefault(t, col.name) && DefaultFor(t, col, defaults).Some?)
  }

  ghost predicate GrowStep(op: Op, t: string, x: TableIR, y: TableIR, defaults: Defaults) {
    exists col :: col in x.columns && !HasColumn(y, col.name) && AddsColumn(op, t, col, defaults)
  }

  lemma AddColumnsExact(t: string, x: TableIR, y: TableIR, defaults: Defaults, op: Op)
    requires UniqueMembers(x) && UniqueMembers(y)
    ensures op in AddColumnsOf(t, x, y, defaults) <==> GrowStep(op, t, x, y, defaults)
  {
    var f := (col: ColumnIR) => AddColumnOps(t, y, col, defaults);
    SortedNoDup(x.columns, ColumnName);
    ColumnByName(y);
    FlatMapMembers(SortBy(x.columns, ColumnName, StrLe), f, op);
    forall col ensures op in f(col) <==> !HasColumn(y, col.name) && AddsColumn(op, t, col, defaults) {
    }
  }

  lemma WantsColumnExact(d: SchemaIR, c: SchemaIR, t: string, col: ColumnIR)
    requires UniqueNames(d) && UniqueNames(c)
    ensures WantsColumn(d, c, t, col) <==>
            t in Tables(d) && t in Tables(c) && col in Tables(d)[t].columns && !HasColumn(Tables(c)[t], col.name)
  {
    TableByName(d);
    TableByName(c);
    if t in Tables(d) && t in Tables(c) {
      assert Shared(Tables(d)[t], Tables(c)[t], d, c, t);
    }
  }

  lemma AddsWanted(d: SchemaIR, c: SchemaIR, op: Op, defaults: Defaults)
    requires UniqueNames(d) && UniqueNames(c) && PhaseOf(op) == 7
    ensures Wanted(op, d, c, defaults) <==>
            op.tableName in Tables(d) && op.tableName in Tables(c)
            && GrowStep(op, op.tableName, Tables(d)[op.tableName], Tables(c)[op.tableName], defaults)
  {
    forall col ensures WantsColumn(d, c, op.tableName, col) <==>
      op.tableName in Tables(d) && op.tableName in Tables(c)
      && col in Tables(d)[op.tableName].columns && !HasColumn(Tables(c)[op.tableName], col.name)
    {
      WantsColumnExact(d, c, op.tableName, col);
    }
  }

  lemma GrowOpsExact(d: SchemaIR, c: SchemaIR, t: string, op: Op, defaults: Defaults)
    requires UniqueNames(d) && UniqueNames(c)
    ensures op in GrowOps(Tables(d), Tables(c), defaults, t) <==>
            t in Tables(d) && t in Tables(c) && GrowStep(op, t, Tables(d)[t], Tables(c)[t], defaults)
    ensures op in GrowOps(Tables(d), Tables(c), defaults, t) ==> PhaseOf(op) == 7 && op.tableName == t
  {
    TableByName(d);
    TableByName(c);
    if t in Tables(d) && t in Tables(c) {
      AddColumnsExact(t, Tables(d)[t], Tables(c)[t], defaults, op);
    }
  }

  lemma GrowWanted(d: SchemaIR, c: SchemaIR, op: Op, defaults: Defaults)
    requires UniqueNames(d) && UniqueNames(c)
    ensures op in FlatMap(SortedNames(Tables(d).Keys * Tables(c).Keys), t => GrowOps(Tables(d), Tables(c), defaults, t)) <==>
            PhaseOf(op) == 7 && Wanted(op, d, c, defaults)
  {
    var names := SortedNames(Tables(d).Keys * Tables(c).Keys);
    var f := t => GrowOps(Tables(d), Tables(c), defaults, t);
    FlatMapMembers(names, f, op);
    if op in FlatMap(names, f) {
      var t :| t in names && op in f(t);
      GrowOpsExact(d, c, t, op, defaults);
      AddsWanted(d, c, op, defaults);
    } else if PhaseOf(op) == 7 {
      GrowOpsExact(d, c, op.tableName, op, defaults);
      AddsWanted(d, c, op, defaults);
      assert op.tableName in Tables(d) && op.tableName in Tables(c) ==> op.tableName in names && op !in f(op.tableName);
    }
  }

  lemma GrowSegment(d: SchemaIR, c: SchemaIR, defaults: Defaults)
    requires UniqueNames(d) && UniqueNames(c)
    ensures Segment(FlatMap(SortedNames(Tables(d).Keys * Tables(c).Keys), t => GrowOps(Tables(d), Tables(c), defaults, t)), 7, 8, d, c, defaults)
  {
    var ops := FlatMap(SortedNames(Tables(d).Keys * Tables(c).Keys), t => GrowOps(Tables(d), Tables(c), defaults, t));
    forall op ensures op in ops <==> PhaseOf(op) == 7 && Wanted(op, d, c, defaults) {
      GrowWanted(d, c, op, defaults);
    }
    OnePhase(ops, 7, d, c, defaults);
  }

  // ---------- the whole plan ----------

  lemma ShapeSegment(d: SchemaIR, c: SchemaIR, defaults: Defaults, o: Orders)
    requires UniqueNames(d) && UniqueNames(c) && ValidOrders(o, Tables(d), Tables(c))
    ensures Segment(ShapePhase(d, c, defaults, o), 3, 9, d, c, defaults)
  {
    var dt, ct := Tables(d), Tables(c);
    var shared := SortedNames(dt.Keys * ct.Keys);
    var p3 := FlatMap(shared, t => ReshapeOps(dt, ct, t));
    var p4 := DropTableOps(o.drops);
    var p5 := DropSequenceOps(SortedNames(Sequences(c).Keys - Sequences(d).Keys));
    var p6 := FlatMap(o.creates, t => CreateTableOp(dt, t));
    var p7 := FlatMap(shared, t => GrowOps(dt, ct, defaults, t));
    var p8 := FlatMap(SortedNames(Sequences(d).Keys - Sequences(c).Keys), n => CreateSequenceOp(Sequences(d), n));
    ReshapeSegment(d, c, defaults);
    DropTablesSegment(d, c, defaults, o);
    DropSequencesSegment(d, c, defaults);
    CreateTablesSegment(d, c, defaults, o);
    GrowSegment(d, c, defaults);
    CreateSequencesSegment(d, c, defaults);
    Join(p3, p4, 3, 4, 5, d, c, defaults);
    Join(p3 + p4, p5, 3, 5, 6, d, c, defaults);
    Join(p3 + p4 + p5, p6, 3, 6, 7, d, c, defaults);
    Join(p3 + p4 + p5 + p6, p7, 3, 7, 8, d, c, defaults);
    Join(p3 + p4 + p5 + p6 + p7, p8, 3, 8, 9, d, c, defaults);
  }

  /**
   A plan holds exactly the operations that the difference between the snapshots calls for, no more and
   no fewer, and goes through them phase by phase.
   */
  lemma PlanIsTheDifference(d: SchemaIR, c: SchemaIR, defaults: Defaults, ops: seq<Op>)
    requires UniqueNames(d) && UniqueNames(c) && IsPlan(d, c, defaults, ops)
    ensures forall op :: op in ops <==> Wanted(op, d, c, defaults)
    ensures forall i, j :: 0 <= i < j < |ops| ==> PhaseOf(ops[i]) <= PhaseOf(ops[j])
  {
    var o :| ValidOrders(o, Tables(d), Tables(c)) && ops == Plan(d, c, defaults, o);
    DetachSegment(d, c, defaults);
    ShapeSegment(d, c, defaults, o);
    AttachSegment(d, c, defaults, o);
    Join(DetachPhase(Tables(d), Tables(c)), ShapePhase(d, c, defaults, o), 0, 3, 9, d, c, defaults);
    Join(DetachPhase(Tables(d), Tables(c)) + ShapePhase(d, c, defaults, o), AttachPhase(Tables(d), Tables(c), o), 0, 9, 12, d, c, defaults);
    assert forall op :: PhaseOf(op) < 12;
  }

  // ---------- tables in the order of their references ----------

  /** The plan around the tables it drops and creates. */
  lemma AroundTables(d: SchemaIR, c: SchemaIR, defaults: Defaults, o: Orders) returns (before: seq<Op>, between: seq<Op>, after: seq<Op>)
    requires UniqueNames(d) && UniqueNames(c) && ValidOrders(o, Tables(d), Tables(c))
    ensures Plan(d, c, defaults, o) ==
            before + DropTableOps(o.drops) + between + FlatMap(o.creates, t => CreateTableOp(Tables(d), t)) + after
    ensures Segment(before, 0, 4, d, c, defaults) && Segment(between, 5, 6, d, c, defaults) && Segment(after, 7, 12, d, c, defaults)
  {
    var dt, ct := Tables(d), Tables(c);
    var shared := SortedNames(dt.Keys * ct.Keys);
    var p3 := FlatMap(shared, t => ReshapeOps(dt, ct, t));
    var p7 := FlatMap(shared, t => GrowOps(dt, ct, defaults, t));
    var p8 := FlatMap(SortedNames(Sequences(d).Keys - Sequences(c).Keys), n => CreateSequenceOp(Sequences(d), n));
    before := DetachPhase(dt, ct) + p3;
    between := DropSequenceOps(SortedNames(Sequences(c).Keys - Sequences(d).Keys));
    after := p7 + p8 + AttachPhase(dt, ct, o);
    DetachSegment(d, c, defaults);
    ReshapeSegment(d, c, defaults);
    Join(DetachPhase(dt, ct), p3, 0, 3, 4, d, c, defaults);
    DropSequencesSegment(d, c, defaults);
    GrowSegment(d, c, defaults);
    CreateSequencesSegment(d, c, defaults);
    AttachSegment(d, c, defaults, o);
    Join(p7, p8, 7, 8, 9, d, c, defaults);
    Join(p7 + p8, AttachPhase(dt, ct, o), 7, 9, 12, d, c, defaults);
    RegroupTables(DetachPhase(dt, ct), p3, DropTableOps(o.drops), between, FlatMap(o.creates, t => CreateTableOp(dt, t)), p7, p8,
                  AttachPhase(dt, ct, o));
  }

  lemma RegroupTables(a: seq<Op>, p3: seq<Op>, p4: seq<Op>, p5: seq<Op>, p6: seq<Op>, p7: seq<Op>, p8: seq<Op>, z: seq<Op>)
    ensures a + (p3 + p4 + p5 + p6 + p7 + p8) + z == (a + p3) + p4 + p5 + p6 + (p7 + p8 + z)
  {
    var x, y := a + p3, p7 + p8 + z;
    assert a + (p3 + p4 + p5 + p6 + p7 + p8) + z == x + p4 + p5 + p6 + p7 + p8 + z;
    assert x + p4 + p5 + p6 + p7 + p8 + z == x + p4 + p5 + p6 + y;
  }

  lemma {:induction false} CreatesAt(creates: seq<string>, tables: TableMap)
    requires forall t :: t in creates ==> t in tables
    ensures var ops := FlatMap(creates, t => CreateTableOp(tables, t));
            |ops| == |creates| && forall k :: 0 <= k < |creates| ==> ops[k] == CreateTable(Bare(tables[creates[k]]))
  {
    if creates != [] {
      CreatesAt(creates[..|creates| - 1], tables);
      assert creates[|creates| - 1] in creates;
    }
  }

  /** Where an operation of a phase stands, when the rest of the list belongs to other phases. */
  lemma InMiddle(before: seq<Op>, middle: seq<Op>, after: seq<Op>, i: nat, phase: nat)
    requires i < |before + middle + after| && PhaseOf((before + middle + after)[i]) == phase
    requires (forall op :: op in before ==> PhaseOf(op) != phase) && (forall op :: op in after ==> PhaseOf(op) != phase)
    ensures |before| <= i < |before| + |middle| && (before + middle + after)[i] == middle[i - |before|]
  {
    forall k | 0 <= k < |before| ensures PhaseOf(before[k]) != phase {
      assert before[k] in before;
    }
    forall k | 0 <= k < |after| ensures PhaseOf(after[k]) != phase {
      assert after[k] in after;
    }
  }

  ghost predicate CreatesFollow(ops: seq<Op>, names: set<string>, tables: TableMap) {
    forall i, j | 0 <= i < |ops| && 0 <= j < |ops| && ops[i].CreateTable? && ops[j].CreateTable? ::
      TopoSort.RefersTo(names, tables, ops[i].table.name, ops[j].table.name) ==> j < i
  }

  ghost predicate DropsFollow(ops: seq<Op>, names: set<string>, tables: TableMap) {
    forall i, j | 0 <= i < |ops| && 0 <= j < |ops| && ops[i].DropTable? && ops[j].DropTable? ::
      TopoSort.RefersTo(names, tables, ops[i].tableName, ops[j].tableName) ==> i < j
  }

  lemma CreatesInOrder(before: seq<Op>, creates: seq<string>, after: seq<Op>, names: set<string>, tables: TableMap)
    requires (forall t :: t in creates ==> t in tables) && forall t :: t in tables ==> tables[t].name == t
    requires (forall op :: op in before ==> PhaseOf(op) != 6) && (forall op :: op in after ==> PhaseOf(op) != 6)
    requires TopoSort.InReferenceOrder(names, tables, false, creates) && !exists p :: TopoSort.IsLoop(names, tables, p)
    ensures CreatesFollow(before + FlatMap(creates, t => CreateTableOp(tables, t)) + after, names, tables)
  {
    var middle := FlatMap(creates, t => CreateTableOp(tables, t));
    var ops := before + middle + after;
    CreatesAt(creates, tables);
    forall i, j | 0 <= i < |ops| && 0 <= j < |ops| && ops[i].CreateTable? && ops[j].CreateTable?
                  && TopoSort.RefersTo(names, tables, ops[i].table.name, ops[j].table.name)
      ensures j < i
    {
      InMiddle(before, middle, after, i, 6);
      InMiddle(before, middle, after, j, 6);
      assert creates[i - |before|] in creates && creates[j - |before|] in creates;
    }
  }

  lemma DropsInOrder(before: seq<Op>, drops: seq<string>, after: seq<Op>, names: set<string>, tables: TableMap)
    requires (forall op :: op in before ==> PhaseOf(op) != 4) && (forall op :: op in after ==> PhaseOf(op) != 4)
    requires TopoSort.InReferenceOrder(names, tables, true, drops) && !exists p :: TopoSort.IsLoop(names, tables, p)
    ensures DropsFollow(before + DropTableOps(drops) + after, names, tables)
  {
    var ops := before + DropTableOps(drops) + after;
    forall i, j | 0 <= i < |ops| && 0 <= j < |ops| && ops[i].DropTable? && ops[j].DropTable?
                  && TopoSort.RefersTo(names, tables, ops[i].tableName, ops[j].tableName)
      ensures i < j
    {
      InMiddle(before, DropTableOps(drops), after, i, 4);
      InMiddle(before, DropTableOps(drops), after, j, 4);
    }
  }

  lemma OrdersFollow(d: SchemaIR, c: SchemaIR, o: Orders)
    requires UniqueNames(d) && ValidOrders(o, Tables(d), Tables(c))
    ensures forall t :: t in o.creates ==> t in Tables(d)
    ensures TopoSort.InReferenceOrder(Tables(d).Keys - Tables(c).Keys, Tables(d), false, o.creates)
    ensures TopoSort.InReferenceOrder(Tables(c).Keys - Tables(d).Keys, Tables(c), true, o.drops)
  {
    OrderMembers(Tables(d), Tables(c), o);
    TopoSort.TopoOrderFollowsReferences(Tables(d).Keys - Tables(c).Keys, Tables(d), false, o.creates);
    TopoSort.TopoOrderFollowsReferences(Tables(c).Keys - Tables(d).Keys, Tables(c), true, o.drops);
  }

  /**
   A referenced table is created before and dropped after the tables that reference it, as long as the
   references among the created (or dropped) tables do not run in a loop.
   */
  lemma PlanFollowsReferences(d: SchemaIR, c: SchemaIR, defaults: Defaults, ops: seq<Op>)
    requires UniqueNames(d) && UniqueNames(c) && IsPlan(d, c, defaults, ops)
    ensures var names := Tables(d).Keys - Tables(c).Keys;
            (exists p :: TopoSort.IsLoop(names, Tables(d), p)) || CreatesFollow(ops, names, Tables(d))
    ensures var names := Tables(c).Keys - Tables(d).Keys;
            (exists p :: TopoSort.IsLoop(names, Tables(c), p)) || DropsFollow(ops, names, Tables(c))
  {
    var o :| ValidOrders(o, Tables(d), Tables(c)) && ops == Plan(d, c, defaults, o);
    OrdersFollow(d, c, o);
    TableByName(d);
    var before, between, after := AroundTables(d, c, defaults, o);
    var drops, creates := DropTableOps(o.drops), FlatMap(o.creates, t => CreateTableOp(Tables(d), t));
    DropTablesSegment(d, c, defaults, o);
    CreateTablesSegment(d, c, defaults, o);
    Placed(before, drops, between, creates, after, d, c, defaults);
    RegroupFive(before, drops, between, creates, after);
    if !exists p :: TopoSort.IsLoop(Tables(d).Keys - Tables(c).Keys, Tables(d), p) {
      CreatesInOrder(before + drops + between, o.creates, after, Tables(d).Keys - Tables(c).Keys, Tables(d));
    }
    if !exists p :: TopoSort.IsLoop(Tables(c).Keys - Tables(d).Keys, Tables(c), p) {
      DropsInOrder(before, o.drops, between + creates + after, Tables(c).Keys - Tables(d).Keys, Tables(c));
    }
  }

  lemma Placed(before: seq<Op>, drops: seq<Op>, between: seq<Op>, creates: seq<Op>, after: seq<Op>, d: SchemaIR, c: SchemaIR,
               defaults: Defaults)
    requires Segment(before, 0, 4, d, c, defaults) && Segment(drops, 4, 5, d, c, defaults)
    requires Segment(between, 5, 6, d, c, defaults) && Segment(creates, 6, 7, d, c, defaults) && Segment(after, 7, 12, d, c, defaults)
    ensures forall op :: op in before + drops + between ==> PhaseOf(op) != 6
    ensures forall op :: op in between + creates + after ==> PhaseOf(op) != 4
    ensures (forall op :: op in after ==> PhaseOf(op) != 6) && forall op :: op in before ==> PhaseOf(op) != 4
  {
  }

  lemma RegroupFive(a: seq<Op>, b: seq<Op>, c: seq<Op>, e: seq<Op>, f: seq<Op>)
    ensures a + b + c + e + f == a + b + (c + e + f)
  {
  }
}
