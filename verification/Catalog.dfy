/**
 The database catalog as the generated DDL sees it (schema/ddl.py). Each statement either succeeds
 with an effect or is refused by the server; a plan runs only if every statement succeeds.

 Members are keyed by (table, name). `mentions` gives the columns a CHECK expression reads; the SQL
 text itself is opaque. Data-dependent refusals (existing NULLs, failed casts) are not catalog facts.
 */
module Catalog {
  import opened Prelude
  import opened SchemaIR

  type Key = (string, string)

  type Mentions = string -> set<string>

  datatype ColumnState = ColumnState(typeName: string, nullable: bool, hasDefault: bool)

  datatype Catalog = Catalog(
    tables: map<string, seq<string>>,        // table -> its primary key columns
    columns: map<Key, ColumnState>,
    fks: map<Key, ForeignKeyIR>,
    indexes: map<Key, IndexIR>,
    checks: map<Key, CheckIR>,
    sequences: map<string, int>)             // sequence -> START value

  function PartKeys<V>(tables: map<string, TableIR>, view: TableIR -> map<string, V>): set<Key> {
    set t, n | t in tables && n in view(tables[t]) :: (t, n)
  }

  /** The members of one kind over all tables. */
  function Parts<V>(tables: map<string, TableIR>, view: TableIR -> map<string, V>): map<Key, V> {
    map k | k in PartKeys(tables, view) :: view(tables[k.0])[k.1]
  }

  function StateOf(c: ColumnIR): ColumnState { ColumnState(c.typeName, c.nullable, false) }

  /** The catalog that a snapshot describes. */
  function CatalogOf(s: SchemaIR): Catalog {
    var tables := Tables(s);
    Catalog(
      map t | t in tables :: tables[t].primaryKey,
      map k | k in PartKeys(tables, Columns) :: StateOf(Columns(tables[k.0])[k.1]),
      Parts(tables, ForeignKeys), Parts(tables, Indexes), Parts(tables, Checks),
      map n | n in Sequences(s) :: Sequences(s)[n].start)
  }

  // ---------- what the server demands ----------

  /** Tables, indexes and sequences share one namespace. */
  predicate RelationFree(c: Catalog, name: string) {
    && name !in c.tables
    && name !in c.sequences
    && forall k :: k in c.indexes ==> k.1 != name
  }

  predicate ConstraintFree(c: Catalog, k: Key) { k !in c.fks && k !in c.checks }

  predicate HasColumns(c: Catalog, t: string, names: seq<string>) {
    forall n :: n in names ==> (t, n) in c.columns
  }

  /** A foreign key may only reference columns that are the primary key or a unique index, in any order. */
  predicate SameColumns(a: seq<string>, b: seq<string>) {
    |a| == |b| && (forall n :: n in a ==> n in b) && (forall n :: n in b ==> n in a)
  }

  predicate HasKey(primaryKey: seq<string>, indexes: map<Key, IndexIR>, t: string, names: seq<string>) {
    || SameColumns(primaryKey, names)
    || exists k :: k in indexes && k.0 == t && indexes[k].unique && SameColumns(indexes[k].columns, names)
  }

  predicate KeyExists(c: Catalog, fk: ForeignKeyIR) {
    fk.referencedTable in c.tables
    && HasKey(c.tables[fk.referencedTable], c.indexes, fk.referencedTable, fk.referencedColumns)
  }

  predicate ForeignKeyFits(c: Catalog, t: string, fk: ForeignKeyIR) {
    && t in c.tables
    && 0 < |fk.columns| == |fk.referencedColumns|
    && HasColumns(c, t, fk.columns)
    && HasColumns(c, fk.referencedTable, fk.referencedColumns)
    && KeyExists(c, fk)
  }

  predicate IndexFits(c: Catalog, t: string, i: IndexIR) {
    t in c.tables && i.columns != [] && HasColumns(c, t, i.columns)
  }

  predicate CheckFits(c: Catalog, t: string, chk: CheckIR, mentions: Mentions) {
    t in c.tables && forall n :: n in mentions(chk.expression) ==> (t, n) in c.columns
  }

  /** No primary key, foreign key (from either side), index or check uses the column. */
  predicate ColumnUnused(c: Catalog, t: string, n: string, mentions: Mentions) {
    && (t in c.tables ==> n !in c.tables[t])
    && (forall k :: k in c.fks && k.0 == t ==> n !in c.fks[k].columns)
    && (forall k :: k in c.fks && c.fks[k].referencedTable == t ==> n !in c.fks[k].referencedColumns)
    && (forall k :: k in c.indexes && k.0 == t ==> n !in c.indexes[k].columns)
    && (forall k :: k in c.checks && k.0 == t ==> n !in mentions(c.checks[k].expression))
  }

  function WithoutIndex(indexes: map<Key, IndexIR>, name: string): map<Key, IndexIR> {
    map k | k in indexes && k.1 != name :: indexes[k]
  }

  /** Without this index every foreign key still has a key to reference. */
  predicate IndexUnused(c: Catalog, name: string) {
    forall k :: k in c.fks ==> KeyExists(c.(indexes := WithoutIndex(c.indexes, name)), c.fks[k])
  }

  /** The emitted CREATE TABLE declares a primary key only when it is exactly one of the columns. */
  function DdlPrimaryKey(t: TableIR): seq<string> {
    if exists c :: c in t.columns && t.primaryKey == [c.name] then t.primaryKey else []
  }

  function DdlColumn(t: TableIR, c: ColumnIR): ColumnState {
    ColumnState(c.typeName, t.primaryKey != [c.name] && c.nullable, false)
  }

  function DdlColumns(t: TableIR): map<Key, ColumnState> {
    map k | k in PartKeys(map[t.name := t], Columns) :: DdlColumn(t, Columns(t)[k.1])
  }

  function RemoveTable(c: Catalog, t: string): Catalog {
    Catalog(
      c.tables - {t},
      map k | k in c.columns && k.0 != t :: c.columns[k],
      map k | k in c.fks && k.0 != t && c.fks[k].referencedTable != t :: c.fks[k],
      map k | k in c.indexes && k.0 != t :: c.indexes[k],
      map k | k in c.checks && k.0 != t :: c.checks[k],
      c.sequences)
  }

  // ---------- one statement ----------

  predicate Accepts(c: Catalog, op: Op, mentions: Mentions) {
    match op
    case CreateTable(t) => RelationFree(c, t.name) && DistinctKeys(t.columns, ColumnName)
    case DropTable(t) => t in c.tables
    case AddColumn(t, col, _) => t in c.tables && (t, col.name) !in c.columns
    case DropColumnDefault(t, n) => (t, n) in c.columns
    case DropColumn(t, n) => (t, n) in c.columns && ColumnUnused(c, t, n, mentions)
    case AlterColumnType(t, n, from, _) => (t, n) in c.columns && c.columns[(t, n)].typeName == from
    case AlterColumnNullability(t, n, nullable) =>
      (t, n) in c.columns && t in c.tables && (nullable ==> n !in c.tables[t])
    case AddForeignKey(t, fk) => ConstraintFree(c, (t, fk.name)) && ForeignKeyFits(c, t, fk)
    case DropForeignKey(t, n) => (t, n) in c.fks
    case CreateIndex(t, i) => RelationFree(c, i.name) && IndexFits(c, t, i)
    case DropIndex(n) => (exists k :: k in c.indexes && k.1 == n) && IndexUnused(c, n)
    case CreateSequence(s) => RelationFree(c, s.name)
    case DropSequence(n) => n in c.sequences
    case AddCheck(t, chk) => ConstraintFree(c, (t, chk.name)) && CheckFits(c, t, chk, mentions)
    case DropCheck(t, n) => (t, n) in c.checks
  }

  function Effect(c: Catalog, op: Op, mentions: Mentions): Catalog
    requires Accepts(c, op, mentions)
  {
    match op
    case CreateTable(t) => c.(tables := c.tables[t.name := DdlPrimaryKey(t)], columns := c.columns + DdlColumns(t))
    case DropTable(t) => RemoveTable(c, t)
    case AddColumn(t, col, default) =>
      c.(columns := c.columns[(t, col.name) := ColumnState(col.typeName, col.nullable, default.Some?)])
    case DropColumnDefault(t, n) => c.(columns := c.columns[(t, n) := c.columns[(t, n)].(hasDefault := false)])
    case DropColumn(t, n) => c.(columns := c.columns - {(t, n)})
    case AlterColumnType(t, n, _, to) => c.(columns := c.columns[(t, n) := c.columns[(t, n)].(typeName := to)])
    case AlterColumnNullability(t, n, nullable) =>
      c.(columns := c.columns[(t, n) := c.columns[(t, n)].(nullable := nullable)])
    case AddForeignKey(t, fk) => c.(fks := c.fks[(t, fk.name) := fk])
    case DropForeignKey(t, n) => c.(fks := c.fks - {(t, n)})
    case CreateIndex(t, i) => c.(indexes := c.indexes[(t, i.name) := i])
    case DropIndex(n) => c.(indexes := WithoutIndex(c.indexes, n))
    case CreateSequence(s) => c.(sequences := c.sequences[s.name := s.start])
    case DropSequence(n) => c.(sequences := c.sequences - {n})
    case AddCheck(t, chk) => c.(checks := c.checks[(t, chk.name) := chk])
    case DropCheck(t, n) => c.(checks := c.checks - {(t, n)})
  }

  function Apply(c: Catalog, op: Op, mentions: Mentions): Option<Catalog> {
    if Accepts(c, op, mentions) then Some(Effect(c, op, mentions)) else None
  }

  /** All statements in order; `None` as soon as one is refused. */
  function Run(c: Catalog, ops: seq<Op>, mentions: Mentions): Option<Catalog> {
    if ops == [] then Some(c)
    else match Run(c, ops[..|ops| - 1], mentions)
      case None => None
      case Some(c') => Apply(c', ops[|ops| - 1], mentions)
  }

  lemma RunSnoc(c: Catalog, ops: seq<Op>, op: Op, mentions: Mentions)
    ensures Run(c, ops + [op], mentions) ==
            match Run(c, ops, mentions) case None => None case Some(c') => Apply(c', op, mentions)
  {
    assert (ops + [op])[..|ops|] == ops;
  }

  lemma {:induction false} RunConcat(c: Catalog, a: seq<Op>, b: seq<Op>, mentions: Mentions)
    ensures Run(c, a + b, mentions) ==
            match Run(c, a, mentions) case None => None case Some(c') => Run(c', b, mentions)
  {
    if b == [] {
      assert a + b == a;
    } else {
      var init, last := b[..|b| - 1], b[|b| - 1];
      RunConcat(c, a, init, mentions);
      assert a + b == (a + init) + [last];
      RunSnoc(c, a + init, last, mentions);
    }
  }

  // ---------- what every catalog keeps ----------

  /** Columns belong to tables; primary key columns exist and are not nullable. */
  ghost predicate ColumnsConsistent(c: Catalog) {
    && (forall k :: k in c.columns ==> k.0 in c.tables)
    && (forall t, n :: t in c.tables && n in c.tables[t] ==> (t, n) in c.columns && !c.columns[(t, n)].nullable)
  }

  ghost predicate ForeignKeysConsistent(c: Catalog) {
    forall k :: k in c.fks ==> ForeignKeyFits(c, k.0, c.fks[k]) && c.fks[k].name == k.1 && k !in c.checks
  }

  ghost predicate ChecksConsistent(c: Catalog, mentions: Mentions) {
    forall k :: k in c.checks ==> CheckFits(c, k.0, c.checks[k], mentions) && c.checks[k].name == k.1
  }

  ghost predicate IndexesConsistent(c: Catalog) {
    && (forall k :: k in c.indexes ==> IndexFits(c, k.0, c.indexes[k]) && c.indexes[k].name == k.1)
    && (forall k, l :: k in c.indexes && l in c.indexes && k.1 == l.1 ==> k == l)
  }

  /** Tables, indexes and sequences have different names. */
  ghost predicate RelationNamesConsistent(c: Catalog) {
    && (forall k :: k in c.indexes ==> k.1 !in c.tables && k.1 !in c.sequences)
    && (forall t :: t in c.tables ==> t !in c.sequences)
  }

  /** Every reference in the catalog resolves and every name is used once. */
  ghost predicate Consistent(c: Catalog, mentions: Mentions) {
    && ColumnsConsistent(c)
    && ForeignKeysConsistent(c)
    && IndexesConsistent(c)
    && RelationNamesConsistent(c)
    && ChecksConsistent(c, mentions)
  }
}
