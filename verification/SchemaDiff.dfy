/** The migration planner (schema/diff.py): desired and current snapshots to an ordered operation list. */
module SchemaDiff {
  import opened Prelude
  import opened Ordering
  import opened SchemaIR
  import opened Catalog
  import TopoSort

  type Defaults = map<Key, DefaultValue>

  type TableMap = map<string, TableIR>

  // ---------- which members go and which come ----------

  /** Members of a shared table to drop: the ones not desired, then the changed ones. */
  function Stale<V(==,!new)>(desired: map<string, V>, current: map<string, V>): seq<string> {
    SortedNames(current.Keys - desired.Keys)
    + Filter(SortedNames(desired.Keys * current.Keys), n => n in desired && n in current && desired[n] != current[n])
  }

  /** Members to add: missing or changed, in name order. */
  function Fresh<V(==,!new)>(items: seq<V>, key: V -> string, current: map<string, V>): seq<V> {
    Filter(SortBy(items, key, StrLe), x => !(key(x) in current && current[key(x)] == x))
  }

  function Tagged<V>(t: string, items: seq<V>): seq<(string, V)> {
    seq(|items|, i requires 0 <= i < |items| => (t, items[i]))
  }

  /** What `DropKeys` and `AddItems` need to know of one kind of member. */
  datatype Kind<!V> = Kind(list: TableIR -> seq<V>, key: V -> string) {
    function View(t: TableIR): map<string, V> { Dict(list(t), key) }
  }

  function StaleKeys<V(==,!new)>(desired: TableMap, current: TableMap, kind: Kind<V>, t: string): seq<Key> {
    if t in desired && t in current then Tagged(t, Stale(kind.View(desired[t]), kind.View(current[t]))) else []
  }

  function AllKeys<V>(current: TableMap, kind: Kind<V>, t: string): seq<Key> {
    if t in current then Tagged(t, NamesOf(kind.list(current[t]), kind.key)) else []
  }

  /** Members to drop: stale ones of shared tables, then all of the dropped tables. */
  function DropKeys<V(==,!new)>(desired: TableMap, current: TableMap, kind: Kind<V>): seq<Key> {
    FlatMap(SortedNames(desired.Keys * current.Keys), t => StaleKeys(desired, current, kind, t))
    + FlatMap(SortedNames(current.Keys - desired.Keys), t => AllKeys(current, kind, t))
  }

  function FreshItems<V(==,!new)>(desired: TableMap, current: TableMap, kind: Kind<V>, t: string): seq<(string, V)> {
    if t in desired
    then Tagged(t, Fresh(kind.list(desired[t]), kind.key, if t in current then kind.View(current[t]) else map[]))
    else []
  }

  /** Members to add on new tables and on shared tables, table by table. */
  function AddItems<V(==,!new)>(order: seq<string>, desired: TableMap, current: TableMap, kind: Kind<V>)
    : seq<(string, V)>
  {
    FlatMap(order, t => FreshItems(desired, current, kind, t))
  }

  const FOREIGN_KEYS: Kind<ForeignKeyIR> := Kind((t: TableIR) => t.foreignKeys, ForeignKeyName)
  const INDEXES: Kind<IndexIR> := Kind((t: TableIR) => t.indexes, IndexName)
  const CHECKS: Kind<CheckIR> := Kind((t: TableIR) => t.checks, CheckName)

  // ---------- columns ----------

  function AlterOps(t: string, n: string, want: ColumnIR, have: ColumnIR): seq<Op> {
    (if want.typeName != have.typeName then [AlterColumnType(t, n, have.typeName, want.typeName)] else [])
    + if want.nullable != have.nullable then [AlterColumnNullability(t, n, want.nullable)] else []
  }

  function AlterColumn(desired: TableIR, current: TableIR, n: string): seq<Op> {
    if n in Columns(desired) && n in Columns(current)
    then AlterOps(desired.name, n, Columns(desired)[n], Columns(current)[n])
    else []
  }

  function DropColumnOps(t: string, names: seq<string>): seq<Op> {
    seq(|names|, i requires 0 <= i < |names| => DropColumn(t, names[i]))
  }

  function ColumnOps(desired: TableIR, current: TableIR): seq<Op> {
    DropColumnOps(desired.name, SortedNames(Columns(current).Keys - Columns(desired).Keys))
    + FlatMap(SortedNames(Columns(desired).Keys * Columns(current).Keys), n => AlterColumn(desired, current, n))
  }

  function AddColumnOps(t: string, current: TableIR, col: ColumnIR, defaults: Defaults): seq<Op> {
    if col.name in Columns(current) then []
    else
      var default := if !col.nullable && (t, col.name) in defaults then Some(defaults[(t, col.name)]) else None;
      [AddColumn(t, col, default)] + if default.Some? then [DropColumnDefault(t, col.name)] else []
  }

  function AddColumnsOf(t: string, desired: TableIR, current: TableIR, defaults: Defaults): seq<Op> {
    FlatMap(SortBy(desired.columns, ColumnName, StrLe), c => AddColumnOps(t, current, c, defaults))
  }

  // ---------- the phases ----------

  function DropForeignKeyOps(keys: seq<Key>): seq<Op> {
    seq(|keys|, i requires 0 <= i < |keys| => DropForeignKey(keys[i].0, keys[i].1))
  }
  function DropIndexOps(keys: seq<Key>): seq<Op> {
    seq(|keys|, i requires 0 <= i < |keys| => DropIndex(keys[i].1))
  }
  function DropCheckOps(keys: seq<Key>): seq<Op> {
    seq(|keys|, i requires 0 <= i < |keys| => DropCheck(keys[i].0, keys[i].1))
  }
  function DropTableOps(names: seq<string>): seq<Op> {
    seq(|names|, i requires 0 <= i < |names| => DropTable(names[i]))
  }
  function DropSequenceOps(names: seq<string>): seq<Op> {
    seq(|names|, i requires 0 <= i < |names| => DropSequence(names[i]))
  }

  function Bare(t: TableIR): TableIR { t.(foreignKeys := [], indexes := [], checks := []) }

  function CreateTableOp(desired: TableMap, t: string): seq<Op> {
    if t in desired then [CreateTable(Bare(desired[t]))] else []
  }
  function ReshapeOps(desired: TableMap, current: TableMap, t: string): seq<Op> {
    if t in desired && t in current then ColumnOps(desired[t], current[t]) else []
  }
  function GrowOps(desired: TableMap, current: TableMap, defaults: Defaults, t: string): seq<Op> {
    if t in desired && t in current then AddColumnsOf(t, desired[t], current[t], defaults) else []
  }
  function CreateSequenceOp(sequences: map<string, SequenceIR>, n: string): seq<Op> {
    if n in sequences then [CreateSequence(sequences[n])] else []
  }

  function CreateIndexOps(items: seq<(string, IndexIR)>): seq<Op> {
    seq(|items|, i requires 0 <= i < |items| => CreateIndex(items[i].0, items[i].1))
  }
  function AddForeignKeyOps(items: seq<(string, ForeignKeyIR)>): seq<Op> {
    seq(|items|, i requires 0 <= i < |items| => AddForeignKey(items[i].0, items[i].1))
  }
  function AddCheckOps(items: seq<(string, CheckIR)>): seq<Op> {
    seq(|items|, i requires 0 <= i < |items| => AddCheck(items[i].0, items[i].1))
  }

  /** The orders the planner takes from `TopoSort`. */
  datatype Orders = Orders(drops: seq<string>, creates: seq<string>, links: seq<string>)

  ghost predicate ValidOrders(o: Orders, desired: TableMap, current: TableMap) {
    && TopoSort.IsTopoOrder(TopoSort.DepsFor(current.Keys - desired.Keys, current, true), o.drops)
    && TopoSort.IsTopoOrder(TopoSort.DepsFor(desired.Keys - current.Keys, desired, false), o.creates)
    && TopoSort.IsTopoOrder(TopoSort.DepsFor(desired.Keys, desired, false), o.links)
  }

  /** Phases 1 to 1c: constraints and indexes out of the way. */
  function DetachPhase(desired: TableMap, current: TableMap): seq<Op> {
    DropForeignKeyOps(DropKeys(desired, current, FOREIGN_KEYS))
    + DropIndexOps(DropKeys(desired, current, INDEXES))
    + DropCheckOps(DropKeys(desired, current, CHECKS))
  }

  /** Phases 2 to 5b: columns, tables and sequences. */
  function ShapePhase(desired: SchemaIR, current: SchemaIR, defaults: Defaults, o: Orders): seq<Op> {
    var d, c := Tables(desired), Tables(current);
    FlatMap(SortedNames(d.Keys * c.Keys), t => ReshapeOps(d, c, t))
    + DropTableOps(o.drops)
    + DropSequenceOps(SortedNames(Sequences(current).Keys - Sequences(desired).Keys))
    + FlatMap(o.creates, t => CreateTableOp(d, t))
    + FlatMap(SortedNames(d.Keys * c.Keys), t => GrowOps(d, c, defaults, t))
    + FlatMap(SortedNames(Sequences(desired).Keys - Sequences(current).Keys),
              n => CreateSequenceOp(Sequences(desired), n))
  }

  /** Phases 6 to 8: indexes, then foreign keys, then checks. */
  function AttachPhase(desired: TableMap, current: TableMap, o: Orders): seq<Op> {
    CreateIndexOps(AddItems(SortedNames(desired.Keys), desired, current, INDEXES))
    + AddForeignKeyOps(AddItems(o.links, desired, current, FOREIGN_KEYS))
    + AddCheckOps(AddItems(SortedNames(desired.Keys), desired, current, CHECKS))
  }

  function Plan(desired: SchemaIR, current: SchemaIR, defaults: Defaults, o: Orders): seq<Op> {
    DetachPhase(Tables(desired), Tables(current))
    + ShapePhase(desired, current, defaults, o)
    + AttachPhase(Tables(desired), Tables(current), o)
  }

  ghost predicate IsPlan(desired: SchemaIR, current: SchemaIR, defaults: Defaults, ops: seq<Op>) {
    exists o :: ValidOrders(o, Tables(desired), Tables(current)) && ops == Plan(desired, current, defaults, o)
  }

  // ---------- the planner itself ----------

  /** The two inner loops that select stale members of one shared table. */
  method StaleNames<V(==,!new)>(desired: map<string, V>, current: map<string, V>) returns (names: seq<string>)
    ensures names == Stale(desired, current)
  {
    var shared := SortedNames(desired.Keys * current.Keys);
    ghost var differs := (n: string) => n in desired && n in current && desired[n] != current[n];
    var changed: seq<string> := [];
    for i := 0 to |shared|
      invariant changed == Filter(shared[..i], differs)
    {
      var n := shared[i];
      SortedNamesMember(desired.Keys * current.Keys, i);
      assert shared[..i + 1] == shared[..i] + [n];
      FilterSnoc(shared[..i], n, differs);
      if desired[n] != current[n] {
        changed := changed + [n];
      }
    }
    assert shared[..|shared|] == shared;
    names := SortedNames(current.Keys - desired.Keys) + changed;
  }

  /** The inner loop that selects missing or changed members of one desired table. */
  method FreshMembers<V(==,!new)>(items: seq<V>, key: V -> string, current: map<string, V>) returns (r: seq<V>)
    ensures r == Fresh(items, key, current)
  {
    var sorted := SortBy(items, key, StrLe);
    ghost var missing := (x: V) => !(key(x) in current && current[key(x)] == x);
    r := [];
    for i := 0 to |sorted|
      invariant r == Filter(sorted[..i], missing)
    {
      var x := sorted[i];
      assert sorted[..i + 1] == sorted[..i] + [x];
      FilterSnoc(sorted[..i], x, missing);
      if !(key(x) in current && current[key(x)] == x) {
        r := r + [x];
      }
    }
    assert sorted[..|sorted|] == sorted;
  }

  method DiffColumns(desired: TableIR, current: TableIR) returns (ops: seq<Op>)
    ensures ops == ColumnOps(desired, current)
  {
    var desiredCols, currentCols := Columns(desired), Columns(current);
    var shared := SortedNames(desiredCols.Keys * currentCols.Keys);
    ghost var alter := (n: string) => AlterColumn(desired, current, n);
    var alters: seq<Op> := [];
    for i := 0 to |shared|
      invariant alters == FlatMap(shared[..i], alter)
    {
      var n := shared[i];
      SortedNamesMember(desiredCols.Keys * currentCols.Keys, i);
      FlatMapNext(shared, i, alter);
      var want, have := desiredCols[n], currentCols[n];
      var changes: seq<Op> := [];
      if want.typeName != have.typeName {
        changes := [AlterColumnType(desired.name, n, have.typeName, want.typeName)];
      }
      if want.nullable != have.nullable {
        changes := changes + [AlterColumnNullability(desired.name, n, want.nullable)];
      }
      assert changes == AlterOps(desired.name, n, want, have);
      alters := alters + changes;
    }
    assert shared[..|shared|] == shared;
    ops := DropColumnOps(desired.name, SortedNames(currentCols.Keys - desiredCols.Keys)) + alters;
  }

  method CollectStale<V(==,!new)>(desired: TableMap, current: TableMap, kind: Kind<V>) returns (keys: seq<Key>)
    ensures keys == FlatMap(SortedNames(desired.Keys * current.Keys), t => StaleKeys(desired, current, kind, t))
  {
    keys := [];
    var shared := SortedNames(desired.Keys * current.Keys);
    ghost var stale := (t: string) => StaleKeys(desired, current, kind, t);
    for i := 0 to |shared|
      invariant keys == FlatMap(shared[..i], stale)
    {
      var t := shared[i];
      SortedNamesMember(desired.Keys * current.Keys, i);
      FlatMapNext(shared, i, stale);
      var names := StaleNames(kind.View(desired[t]), kind.View(current[t]));
      keys := keys + Tagged(t, names);
    }
    assert shared[..|shared|] == shared;
  }

  method CollectDropped<V>(desired: TableMap, current: TableMap, kind: Kind<V>) returns (keys: seq<Key>)
    ensures keys == FlatMap(SortedNames(current.Keys - desired.Keys), t => AllKeys(current, kind, t))
  {
    keys := [];
    var dropped := SortedNames(current.Keys - desired.Keys);
    ghost var every := (t: string) => AllKeys(current, kind, t);
    for i := 0 to |dropped|
      invariant keys == FlatMap(dropped[..i], every)
    {
      var t := dropped[i];
      SortedNamesMember(current.Keys - desired.Keys, i);
      FlatMapNext(dropped, i, every);
      keys := keys + Tagged(t, NamesOf(kind.list(current[t]), kind.key));
    }
    assert dropped[..|dropped|] == dropped;
  }

  method CollectDrops<V(==,!new)>(desired: TableMap, current: TableMap, kind: Kind<V>) returns (keys: seq<Key>)
    ensures keys == DropKeys(desired, current, kind)
  {
    var stale := CollectStale(desired, current, kind);
    var dropped := CollectDropped(desired, current, kind);
    keys := stale + dropped;
  }

  method CollectAdds<V(==,!new)>(order: seq<string>, desired: TableMap, current: TableMap, kind: Kind<V>)
    returns (items: seq<(string, V)>)
    ensures items == AddItems(order, desired, current, kind)
  {
    items := [];
    ghost var missing := (t: string) => FreshItems(desired, current, kind, t);
    for i := 0 to |order|
      invariant items == FlatMap(order[..i], missing)
    {
      var t := order[i];
      FlatMapNext(order, i, missing);
      if t in desired {
        var members := FreshMembers(kind.list(desired[t]), kind.key, if t in current then kind.View(current[t]) else map[]);
        items := items + Tagged(t, members);
      }
    }
    assert order[..|order|] == order;
  }

  method ReshapeTables(desired: TableMap, current: TableMap) returns (ops: seq<Op>)
    ensures ops == FlatMap(SortedNames(desired.Keys * current.Keys), t => ReshapeOps(desired, current, t))
  {
    var shared := SortedNames(desired.Keys * current.Keys);
    ghost var reshape := (t: string) => ReshapeOps(desired, current, t);
    ops := [];
    for i := 0 to |shared|
      invariant ops == FlatMap(shared[..i], reshape)
    {
      var t := shared[i];
      SortedNamesMember(desired.Keys * current.Keys, i);
      FlatMapNext(shared, i, reshape);
      var columnOps := DiffColumns(desired[t], current[t]);
      ops := ops + columnOps;
    }
    assert shared[..|shared|] == shared;
  }

  method CreateTables(desired: TableMap, order: seq<string>) returns (ops: seq<Op>)
    ensures ops == FlatMap(order, t => CreateTableOp(desired, t))
  {
    ghost var create := (t: string) => CreateTableOp(desired, t);
    ops := [];
    for i := 0 to |order|
      invariant ops == FlatMap(order[..i], create)
    {
      assert order[..i + 1] == order[..i] + [order[i]];
      FlatMapSnoc(order[..i], order[i], create);
      ops := ops + CreateTableOp(desired, order[i]);
    }
    assert order[..|order|] == order;
  }

  method GrowTables(desired: TableMap, current: TableMap, defaults: Defaults) returns (ops: seq<Op>)
    ensures ops == FlatMap(SortedNames(desired.Keys * current.Keys), t => GrowOps(desired, current, defaults, t))
  {
    var shared := SortedNames(desired.Keys * current.Keys);
    ghost var grow := (t: string) => GrowOps(desired, current, defaults, t);
    ops := [];
    for i := 0 to |shared|
      invariant ops == FlatMap(shared[..i], grow)
    {
      var t := shared[i];
      SortedNamesMember(desired.Keys * current.Keys, i);
      FlatMapNext(shared, i, grow);
      var adds := AddColumns(t, desired[t], current[t], defaults);
      ops := ops + adds;
    }
    assert shared[..|shared|] == shared;
  }

  method CreateSequences(desired: map<string, SequenceIR>, current: map<string, SequenceIR>) returns (ops: seq<Op>)
    ensures ops == FlatMap(SortedNames(desired.Keys - current.Keys), n => CreateSequenceOp(desired, n))
  {
    var missing := SortedNames(desired.Keys - current.Keys);
    ghost var create := (n: string) => CreateSequenceOp(desired, n);
    ops := [];
    for i := 0 to |missing|
      invariant ops == FlatMap(missing[..i], create)
    {
      var n := missing[i];
      SortedNamesMember(desired.Keys - current.Keys, i);
      FlatMapNext(missing, i, create);
      ops := ops + [CreateSequence(desired[n])];
    }
    assert missing[..|missing|] == missing;
  }

  method AddColumns(t: string, desired: TableIR, current: TableIR, defaults: Defaults) returns (ops: seq<Op>)
    ensures ops == AddColumnsOf(t, desired, current, defaults)
  {
    var currentCols := Columns(current);
    var sorted := SortBy(desired.columns, ColumnName, StrLe);
    ghost var add := (c: ColumnIR) => AddColumnOps(t, current, c, defaults);
    ops := [];
    for i := 0 to |sorted|
      invariant ops == FlatMap(sorted[..i], add)
    {
      var col := sorted[i];
      FlatMapNext(sorted, i, add);
      if col.name !in currentCols {
        var addDefault: Option<DefaultValue> := None;
        if !col.nullable && (t, col.name) in defaults {
          addDefault := Some(defaults[(t, col.name)]);
        }
        var adds := [AddColumn(t, col, addDefault)];
        if addDefault.Some? {
          adds := adds + [DropColumnDefault(t, col.name)];
        }
        ops := ops + adds;
      }
    }
    assert sorted[..|sorted|] == sorted;
  }

  method DiffSchemas(desired: SchemaIR, current: SchemaIR, defaults: Defaults) returns (ops: seq<Op>)
    ensures IsPlan(desired, current, defaults, ops)
  {
    var d, c := Tables(desired), Tables(current);
    var drops := TopoSort.TopoSort(c.Keys - d.Keys, c, true);
    var creates := TopoSort.TopoSort(d.Keys - c.Keys, d, false);
    var links := TopoSort.TopoSort(d.Keys, d, false);
    var o := Orders(drops, creates, links);
    var dropFks := CollectDrops(d, c, FOREIGN_KEYS);
    var dropIndexes := CollectDrops(d, c, INDEXES);
    var dropChecks := CollectDrops(d, c, CHECKS);
    var reshape := ReshapeTables(d, c);
    var dropSequences := SortedNames(Sequences(current).Keys - Sequences(desired).Keys);
    var created := CreateTables(d, creates);
    var grow := GrowTables(d, c, defaults);
    var createSequences := CreateSequences(Sequences(desired), Sequences(current));
    var addIndexes := CollectAdds(SortedNames(d.Keys), d, c, INDEXES);
    var addFks := CollectAdds(links, d, c, FOREIGN_KEYS);
    var addChecks := CollectAdds(SortedNames(d.Keys), d, c, CHECKS);
    var detach := DropForeignKeyOps(dropFks) + DropIndexOps(dropIndexes) + DropCheckOps(dropChecks);
    var shape := reshape + DropTableOps(drops) + DropSequenceOps(dropSequences) + created + grow + createSequences;
    var attach := CreateIndexOps(addIndexes) + AddForeignKeyOps(addFks) + AddCheckOps(addChecks);
    ops := detach + shape + attach;
    assert ValidOrders(o, d, c) && ops == Plan(desired, current, defaults, o);
  }
}
