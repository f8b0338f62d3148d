/** Schema snapshots and migration operations (schema/ir.py, schema/plan.py). */
module SchemaIR {
  import opened Prelude

  datatype ColumnIR = ColumnIR(name: string, typeName: string, nullable: bool)

  datatype ForeignKeyIR = ForeignKeyIR(name: string, columns: seq<string>,
                                       referencedTable: string, referencedColumns: seq<string>)

  datatype IndexIR = IndexIR(name: string, columns: seq<string>, unique: bool)

  datatype CheckIR = CheckIR(name: string, expression: string)

  datatype TableIR = TableIR(name: string, columns: seq<ColumnIR>, primaryKey: seq<string>,
                             foreignKeys: seq<ForeignKeyIR>, indexes: seq<IndexIR>, checks: seq<CheckIR>)

  datatype SequenceIR = SequenceIR(name: string, start: int, tableName: string, columnName: string,
                                   prefix: string, resolveStartFromData: bool)

  datatype SchemaIR = SchemaIR(tables: seq<TableIR>, sequences: seq<SequenceIR>)

  /** A YAML create-default scalar; a float is kept as its text. */
  datatype DefaultValue = StrDefault(s: string) | IntDefault(i: int) | FloatDefault(text: string) | BoolDefault(b: bool)

  datatype Op =
    | CreateTable(table: TableIR)
    | DropTable(tableName: string)
    | AddColumn(tableName: string, column: ColumnIR, addDefault: Option<DefaultValue>)
    | DropColumnDefault(tableName: string, columnName: string)
    | DropColumn(tableName: string, columnName: string)
    | AlterColumnType(tableName: string, columnName: string, fromType: string, toType: string)
    | AlterColumnNullability(tableName: string, columnName: string, nullable: bool)
    | AddForeignKey(tableName: string, foreignKey: ForeignKeyIR)
    | DropForeignKey(tableName: string, constraintName: string)
    | CreateIndex(tableName: string, index: IndexIR)
    | DropIndex(indexName: string)
    | CreateSequence(sequence: SequenceIR)
    | DropSequence(sequenceName: string)
    | AddCheck(tableName: string, check: CheckIR)
    | DropCheck(tableName: string, constraintName: string)
  {
    /** What the safety gate refuses without permission. */
    predicate Destructive() {
      match this
      case DropTable(_) | DropColumn(_, _) | AlterColumnType(_, _, _, _) => true
      case DropForeignKey(_, _) | DropIndex(_) | DropSequence(_) => true
      case AlterColumnNullability(_, _, nullable) => !nullable
      case _ => false
    }
  }

  function TableName(t: TableIR): string { t.name }
  function ColumnName(c: ColumnIR): string { c.name }
  function ForeignKeyName(f: ForeignKeyIR): string { f.name }
  function IndexName(i: IndexIR): string { i.name }
  function CheckName(c: CheckIR): string { c.name }
  function SequenceName(s: SequenceIR): string { s.name }

  function Tables(s: SchemaIR): map<string, TableIR> { Dict(s.tables, TableName) }
  function Sequences(s: SchemaIR): map<string, SequenceIR> { Dict(s.sequences, SequenceName) }
  function Columns(t: TableIR): map<string, ColumnIR> { Dict(t.columns, ColumnName) }
  function ForeignKeys(t: TableIR): map<string, ForeignKeyIR> { Dict(t.foreignKeys, ForeignKeyName) }
  function Indexes(t: TableIR): map<string, IndexIR> { Dict(t.indexes, IndexName) }
  function Checks(t: TableIR): map<string, CheckIR> { Dict(t.checks, CheckName) }

  /** Names are unique among siblings of one kind; the differ itself never checks this. */
  ghost predicate UniqueNames(s: SchemaIR) {
    && DistinctKeys(s.tables, TableName)
    && DistinctKeys(s.sequences, SequenceName)
    && forall t :: t in s.tables ==> UniqueMembers(t)
  }

  ghost predicate UniqueMembers(t: TableIR) {
    && DistinctKeys(t.columns, ColumnName)
    && DistinctKeys(t.foreignKeys, ForeignKeyName)
    && DistinctKeys(t.indexes, IndexName)
    && DistinctKeys(t.checks, CheckName)
  }
}
