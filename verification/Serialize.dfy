/** The canonical form that schema hashes are taken of (schema/serialize.py), before JSON encoding. */
module Serialize {
  import opened Prelude
  import opened Ordering
  import opened SchemaIR

  datatype CanonicalTable = CanonicalTable(name: string, columns: seq<ColumnIR>, primaryKey: seq<string>,
                                           foreignKeys: seq<ForeignKeyIR>, indexes: seq<IndexIR>, checks: seq<CheckIR>)

  datatype CanonicalSchema = CanonicalSchema(sequences: seq<string>, tables: seq<CanonicalTable>)

  function ForeignKeyKey(f: ForeignKeyIR): seq<seq<string>> {
    [[f.name], f.columns, [f.referencedTable], f.referencedColumns]
  }

  /** Python orders `False` before `True`. */
  function IndexKey(i: IndexIR): seq<seq<string>> {
    [[i.name], i.columns, [if i.unique then "1" else "0"]]
  }

  function CheckKey(c: CheckIR): seq<seq<string>> {
    [[c.name], [c.expression]]
  }

  function TableDict(t: TableIR): CanonicalTable {
    CanonicalTable(t.name,
                   SortBy(t.columns, ColumnName, StrLe),
                   t.primaryKey,
                   SortBy(t.foreignKeys, ForeignKeyKey, TupleLe),
                   SortBy(t.indexes, IndexKey, TupleLe),
                   SortBy(t.checks, CheckKey, TupleLe))
  }

  function TableDicts(tables: seq<TableIR>): seq<CanonicalTable> {
    seq(|tables|, i requires 0 <= i < |tables| => TableDict(tables[i]))
  }

  function CanonicalDict(s: SchemaIR): CanonicalSchema {
    CanonicalSchema(NamesOf(SortBy(s.sequences, SequenceName, StrLe), SequenceName),
                    TableDicts(SortBy(s.tables, TableName, StrLe)))
  }

  // ---------- the order of members does not matter ----------

  /** The same table with its members listed in another order. */
  ghost predicate Reordered(a: TableIR, b: TableIR) {
    && a.name == b.name && a.primaryKey == b.primaryKey
    && multiset(a.columns) == multiset(b.columns)
    && multiset(a.foreignKeys) == multiset(b.foreignKeys)
    && multiset(a.indexes) == multiset(b.indexes)
    && multiset(a.checks) == multiset(b.checks)
  }

  lemma KeysInjective()
    ensures forall a, b :: ForeignKeyKey(a) == ForeignKeyKey(b) ==> a == b
    ensures forall a, b :: IndexKey(a) == IndexKey(b) ==> a == b
    ensures forall a, b :: CheckKey(a) == CheckKey(b) ==> a == b
  {
  }

  /** Constraints need no unique names for this: they are sorted by their whole content. */
  lemma TableDictOrderFree(a: TableIR, b: TableIR)
    requires Reordered(a, b) && DistinctKeys(a.columns, ColumnName)
    ensures TableDict(a) == TableDict(b)
  {
    StrOrder();
    TupleOrder();
    KeysInjective();
    DictComplete(a.columns, ColumnName);
    SortPermutation(a.columns, b.columns, ColumnName, StrLe);
    SortPermutation(a.foreignKeys, b.foreignKeys, ForeignKeyKey, TupleLe);
    SortPermutation(a.indexes, b.indexes, IndexKey, TupleLe);
    SortPermutation(a.checks, b.checks, CheckKey, TupleLe);
  }

  lemma DictsCons(x: TableIR, s: seq<TableIR>)
    ensures TableDicts([x] + s) == [TableDict(x)] + TableDicts(s)
  {
  }

  lemma DictsSplit(s: seq<TableIR>, t: seq<TableIR>)
    requires TableDicts(s) == TableDicts(t)
    ensures |s| == |t|
    ensures s != [] ==> TableDict(s[0]) == TableDict(t[0]) && TableDicts(s[1..]) == TableDicts(t[1..])
  {
    assert |s| == |TableDicts(s)| == |t|;
    if s != [] {
      assert TableDicts(s)[0] == TableDicts(t)[0];
      assert TableDicts(s[1..]) == TableDicts(s)[1..] && TableDicts(t[1..]) == TableDicts(t)[1..];
    }
  }

  lemma {:induction false} InsertSameDicts(x: TableIR, y: TableIR, s: seq<TableIR>, t: seq<TableIR>)
    requires TableDict(x) == TableDict(y) && TableDicts(s) == TableDicts(t)
    ensures TableDicts(Insert(x, s, TableName, StrLe)) == TableDicts(Insert(y, t, TableName, StrLe))
  {
    DictsSplit(s, t);
    if s == [] || StrLe(x.name, s[0].name) {
      DictsCons(x, s);
      DictsCons(y, t);
    } else {
      InsertSameDicts(x, y, s[1..], t[1..]);
      DictsCons(s[0], Insert(x, s[1..], TableName, StrLe));
      DictsCons(t[0], Insert(y, t[1..], TableName, StrLe));
    }
  }

  /** Sorting sees a table only through its name. */
  lemma {:induction false} SortSameDicts(s: seq<TableIR>, t: seq<TableIR>)
    requires TableDicts(s) == TableDicts(t)
    ensures TableDicts(SortBy(s, TableName, StrLe)) == TableDicts(SortBy(t, TableName, StrLe))
  {
    DictsSplit(s, t);
    if s != [] {
      SortSameDicts(s[1..], t[1..]);
      InsertSameDicts(s[0], t[0], SortBy(s[1..], TableName, StrLe), SortBy(t[1..], TableName, StrLe));
    }
  }

  /** The tables of `b` are those of `a` in another order, each with its members in another order. */
  ghost predicate TablesReordered(a: seq<TableIR>, b: seq<TableIR>) {
    exists middle :: TableByTable(a, middle) && multiset(middle) == multiset(b)
  }

  ghost predicate TableByTable(a: seq<TableIR>, b: seq<TableIR>) {
    |a| == |b| && forall i :: 0 <= i < |a| ==> Reordered(a[i], b[i])
  }

  /** Listing tables, sequences, columns, foreign keys, indexes and checks in another order gives the same canonical form. */
  lemma CanonicalOrderFree(a: SchemaIR, b: SchemaIR)
    requires UniqueNames(a)
    requires TablesReordered(a.tables, b.tables) && multiset(a.sequences) == multiset(b.sequences)
    ensures CanonicalDict(a) == CanonicalDict(b)
  {
    var middle :| TableByTable(a.tables, middle) && multiset(middle) == multiset(b.tables);
    ReorderedDicts(a, middle);
    SortSameDicts(a.tables, middle);
    StrOrder();
    DictComplete(middle, TableName);
    DictComplete(a.sequences, SequenceName);
    SortPermutation(middle, b.tables, TableName, StrLe);
    SortPermutation(a.sequences, b.sequences, SequenceName, StrLe);
  }

  lemma ReorderedDicts(a: SchemaIR, middle: seq<TableIR>)
    requires UniqueNames(a) && TableByTable(a.tables, middle)
    ensures TableDicts(a.tables) == TableDicts(middle) && DistinctKeys(middle, TableName)
  {
    forall i | 0 <= i < |middle|
      ensures TableDict(a.tables[i]) == TableDict(middle[i]) && TableName(middle[i]) == TableName(a.tables[i])
    {
      assert a.tables[i] in a.tables;
      TableDictOrderFree(a.tables[i], middle[i]);
    }
  }

  // ---------- the canonical form identifies the content ----------

  /** Same members by name, whatever their order. */
  ghost predicate SameTable(a: TableIR, b: TableIR) {
    && a.name == b.name && a.primaryKey == b.primaryKey
    && Columns(a) == Columns(b) && ForeignKeys(a) == ForeignKeys(b)
    && Indexes(a) == Indexes(b) && Checks(a) == Checks(b)
  }

  lemma DictsMultiset<T(!new)>(a: seq<T>, b: seq<T>, key: T -> string)
    requires DistinctKeys(a, key) && DistinctKeys(b, key) && Dict(a, key) == Dict(b, key)
    ensures multiset(a) == multiset(b)
  {
    DictComplete(a, key);
    DictComplete(b, key);
    SameElements(a, b);
  }

  lemma MultisetDicts<T(!new)>(a: seq<T>, b: seq<T>, key: T -> string)
    requires DistinctKeys(a, key) && DistinctKeys(b, key) && multiset(a) == multiset(b)
    ensures Dict(a, key) == Dict(b, key)
  {
    DictComplete(a, key);
    DictComplete(b, key);
    forall x ensures x in a <==> x in b {
      assert x in a <==> x in multiset(a);
      assert x in b <==> x in multiset(b);
    }
  }

  lemma SortMultisets<T(!new), K(!new)>(a: seq<T>, b: seq<T>, key: T -> K, le: (K, K) -> bool)
    requires TotalOrder(le) && SortBy(a, key, le) == SortBy(b, key, le)
    ensures multiset(a) == multiset(b)
  {
    SortCorrect(a, key, le);
    SortCorrect(b, key, le);
  }

  lemma TableDictFaithful(a: TableIR, b: TableIR)
    requires UniqueMembers(a) && UniqueMembers(b)
    ensures TableDict(a) == TableDict(b) <==> SameTable(a, b)
  {
    StrOrder();
    TupleOrder();
    if TableDict(a) == TableDict(b) {
      SortMultisets(a.columns, b.columns, ColumnName, StrLe);
      SortMultisets(a.foreignKeys, b.foreignKeys, ForeignKeyKey, TupleLe);
      SortMultisets(a.indexes, b.indexes, IndexKey, TupleLe);
      SortMultisets(a.checks, b.checks, CheckKey, TupleLe);
      MultisetDicts(a.columns, b.columns, ColumnName);
      MultisetDicts(a.foreignKeys, b.foreignKeys, ForeignKeyName);
      MultisetDicts(a.indexes, b.indexes, IndexName);
      MultisetDicts(a.checks, b.checks, CheckName);
    }
    if SameTable(a, b) {
      DictsMultiset(a.columns, b.columns, ColumnName);
      DictsMultiset(a.foreignKeys, b.foreignKeys, ForeignKeyName);
      DictsMultiset(a.indexes, b.indexes, IndexName);
      DictsMultiset(a.checks, b.checks, CheckName);
      TableDictOrderFree(a, b);
    }
  }

  /** Same tables and sequence names; sequence starts are not part of the identity. */
  ghost predicate SameSchema(a: SchemaIR, b: SchemaIR) {
    && Tables(a).Keys == Tables(b).Keys
    && (forall t :: t in Tables(a) ==> SameTable(Tables(a)[t], Tables(b)[t]))
    && Sequences(a).Keys == Sequences(b).Keys
  }

  /** A list sorted by distinct names is determined by those names. */
  lemma SortedByNames<T(!new)>(a: seq<T>, b: seq<T>, key: T -> string, le: (string, string) -> bool)
    requires TotalOrder(le) && SortedBy(a, key, le) && SortedBy(b, key, le)
    requires DistinctKeys(a, key) && DistinctKeys(b, key) && Dict(a, key).Keys == Dict(b, key).Keys
    ensures NamesOf(a, key) == NamesOf(b, key)
  {
    NamesOfDict(a, key);
    NamesOfDict(b, key);
    SameElements(NamesOf(a, key), NamesOf(b, key));
    SortedUnique(NamesOf(a, key), NamesOf(b, key), (n: string) => n, le);
  }

  lemma SortKeepsDict<T(!new)>(s: seq<T>, key: T -> string)
    requires DistinctKeys(s, key)
    ensures DistinctKeys(SortBy(s, key, StrLe), key) && Dict(SortBy(s, key, StrLe), key) == Dict(s, key)
    ensures SortedBy(SortBy(s, key, StrLe), key, StrLe)
  {
    StrOrder();
    SortCorrect(s, key, StrLe);
    DictComplete(s, key);
    var r := SortBy(s, key, StrLe);
    MultisetNoDup(s, r);
    forall i, j | 0 <= i < j < |r| ensures key(r[i]) != key(r[j]) {
      assert r[i] in s && r[j] in s;
    }
    MultisetDicts(s, r, key);
  }

  lemma EqualCanonicalSame(a: SchemaIR, b: SchemaIR)
    requires UniqueNames(a) && UniqueNames(b) && CanonicalDict(a) == CanonicalDict(b)
    ensures SameSchema(a, b)
  {
    SortKeepsDict(a.sequences, SequenceName);
    SortKeepsDict(b.sequences, SequenceName);
    EqualDictsSame(a, b, SortBy(a.tables, TableName, StrLe), SortBy(b.tables, TableName, StrLe));
    NamesSame(SortBy(a.sequences, SequenceName, StrLe), SortBy(b.sequences, SequenceName, StrLe));
  }

  lemma SameEqualCanonical(a: SchemaIR, b: SchemaIR)
    requires UniqueNames(a) && UniqueNames(b) && SameSchema(a, b)
    ensures CanonicalDict(a) == CanonicalDict(b)
  {
    SortKeepsDict(a.tables, TableName);
    SortKeepsDict(b.tables, TableName);
    SortKeepsDict(a.sequences, SequenceName);
    SortKeepsDict(b.sequences, SequenceName);
    var ta, tb := SortBy(a.tables, TableName, StrLe), SortBy(b.tables, TableName, StrLe);
    var sa, sb := SortBy(a.sequences, SequenceName, StrLe), SortBy(b.sequences, SequenceName, StrLe);
    StrOrder();
    SortedByNames(sa, sb, SequenceName, StrLe);
    SortedByNames(ta, tb, TableName, StrLe);
    SameDictsEqual(a, b, ta, tb);
  }

  lemma CanonicalFaithful(a: SchemaIR, b: SchemaIR)
    requires UniqueNames(a) && UniqueNames(b)
    ensures CanonicalDict(a) == CanonicalDict(b) <==> SameSchema(a, b)
  {
    if CanonicalDict(a) == CanonicalDict(b) {
      EqualCanonicalSame(a, b);
    }
    if SameSchema(a, b) {
      SameEqualCanonical(a, b);
    }
  }

  lemma SortedMember(s: SchemaIR, r: seq<TableIR>, i: int)
    requires UniqueNames(s) && r == SortBy(s.tables, TableName, StrLe) && 0 <= i < |r|
    ensures r[i].name in Tables(s) && Tables(s)[r[i].name] == r[i] && UniqueMembers(r[i])
  {
    SortKeepsDict(s.tables, TableName);
    DictComplete(r, TableName);
    DictComplete(s.tables, TableName);
    assert r[i] in r;
  }

  lemma SortedIndex(s: SchemaIR, r: seq<TableIR>, t: string) returns (i: int)
    requires UniqueNames(s) && r == SortBy(s.tables, TableName, StrLe) && t in Tables(s)
    ensures 0 <= i < |r| && r[i] == Tables(s)[t]
  {
    SortKeepsDict(s.tables, TableName);
    DictComplete(r, TableName);
    i :| 0 <= i < |r| && r[i] == Tables(s)[t];
  }

  lemma EqualDictsSame(a: SchemaIR, b: SchemaIR, ta: seq<TableIR>, tb: seq<TableIR>)
    requires UniqueNames(a) && UniqueNames(b)
    requires ta == SortBy(a.tables, TableName, StrLe) && tb == SortBy(b.tables, TableName, StrLe)
    requires TableDicts(ta) == TableDicts(tb)
    ensures Tables(a).Keys == Tables(b).Keys
    ensures forall t :: t in Tables(a) ==> SameTable(Tables(a)[t], Tables(b)[t])
  {
    assert |ta| == |TableDicts(ta)| == |tb|;
    forall i | 0 <= i < |ta| ensures SameTable(ta[i], tb[i]) {
      assert TableDicts(ta)[i] == TableDicts(tb)[i];
      SortedMember(a, ta, i);
      SortedMember(b, tb, i);
      TableDictFaithful(ta[i], tb[i]);
    }
    forall t | t in Tables(a) ensures t in Tables(b) && SameTable(Tables(a)[t], Tables(b)[t]) {
      var i := SortedIndex(a, ta, t);
      SortedMember(a, ta, i);
      SortedMember(b, tb, i);
      DictSound(a.tables, TableName);
    }
    forall t | t in Tables(b) ensures t in Tables(a) {
      var i := SortedIndex(b, tb, t);
      SortedMember(a, ta, i);
      DictSound(b.tables, TableName);
    }
  }

  lemma SameDictsEqual(a: SchemaIR, b: SchemaIR, ta: seq<TableIR>, tb: seq<TableIR>)
    requires UniqueNames(a) && UniqueNames(b) && SameSchema(a, b)
    requires ta == SortBy(a.tables, TableName, StrLe) && tb == SortBy(b.tables, TableName, StrLe)
    requires NamesOf(ta, TableName) == NamesOf(tb, TableName)
    ensures TableDicts(ta) == TableDicts(tb)
  {
    assert |ta| == |NamesOf(ta, TableName)| == |tb|;
    forall i | 0 <= i < |ta| ensures TableDict(ta[i]) == TableDict(tb[i]) {
      assert NamesOf(ta, TableName)[i] == NamesOf(tb, TableName)[i];
      SortedMember(a, ta, i);
      SortedMember(b, tb, i);
      TableDictFaithful(ta[i], tb[i]);
    }
  }

  lemma NamesSame(sa: seq<SequenceIR>, sb: seq<SequenceIR>)
    requires NamesOf(sa, SequenceName) == NamesOf(sb, SequenceName)
    ensures Dict(sa, SequenceName).Keys == Dict(sb, SequenceName).Keys
  {
    assert |sa| == |NamesOf(sa, SequenceName)| == |sb|;
    forall i | 0 <= i < |sa| ensures sa[i].name == sb[i].name {
      assert NamesOf(sa, SequenceName)[i] == NamesOf(sb, SequenceName)[i];
      assert SequenceName(sa[i]) == SequenceName(sb[i]);
    }
    DictSound(sa, SequenceName);
    DictSound(sb, SequenceName);
    forall n ensures n in Dict(sa, SequenceName) <==> n in Dict(sb, SequenceName) {
      if n in Dict(sa, SequenceName) {
        var i :| 0 <= i < |sa| && sa[i] == Dict(sa, SequenceName)[n];
        assert sb[i] in sb;
      }
      if n in Dict(sb, SequenceName) {
        var i :| 0 <= i < |sb| && sb[i] == Dict(sb, SequenceName)[n];
        assert sa[i] in sa;
      }
    }
  }
}
