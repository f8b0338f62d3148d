/** Running each phase of a plan: what the server demands holds and the phase has the expected effect. */
module DiffRuns {
  import opened Prelude
  import opened SchemaIR
  import opened Catalog
  import opened SchemaDiff

  function Restrict<K, V>(m: map<K, V>, keep: set<K>): map<K, V> {
    map k | k in m && k in keep :: m[k]
  }

  lemma ElementsSnoc<T>(s: seq<T>, x: T)
    ensures Elements(s + [x]) == Elements(s) + {x}
  {
  }

  /** One more statement after a list that runs. */
  lemma RunStep(c: Catalog, ops: seq<Op>, op: Op, c1: Catalog, mentions: Mentions)
    requires Run(c, ops, mentions) == Some(c1) && Accepts(c1, op, mentions)
    ensures Run(c, ops + [op], mentions) == Some(Effect(c1, op, mentions))
  {
    RunSnoc(c, ops, op, mentions);
  }

  /** Four lists that run one after the other. */
  lemma RunFour(c: Catalog, a: seq<Op>, b: seq<Op>, e: seq<Op>, f: seq<Op>, c1: Catalog, c2: Catalog, c3: Catalog,
                c4: Catalog, mentions: Mentions)
    requires Run(c, a, mentions) == Some(c1) && Run(c1, b, mentions) == Some(c2)
    requires Run(c2, e, mentions) == Some(c3) && Run(c3, f, mentions) == Some(c4)
    ensures Run(c, a + b + e + f, mentions) == Some(c4)
  {
    RunConcat(c, a, b, mentions);
    RunConcat(c, a + b, e, mentions);
    RunConcat(c, a + b + e, f, mentions);
  }

  // ---------- detaching ----------

  lemma WithoutSnoc<V>(m: map<Key, V>, init: seq<Key>, k: Key)
    ensures (m - Elements(init)) - {k} == m - Elements(init + [k])
  {
  }

  lemma DropFkStep(c: Catalog, init: seq<Key>, k: Key, mentions: Mentions)
    requires k in c.fks && k !in init
    ensures var c' := c.(fks := c.fks - Elements(init));
            Accepts(c', DropForeignKey(k.0, k.1), mentions)
            && Effect(c', DropForeignKey(k.0, k.1), mentions) == c.(fks := c.fks - Elements(init + [k]))
  {
    WithoutSnoc(c.fks, init, k);
  }

  lemma DropFkOpsSnoc(init: seq<Key>, k: Key)
    ensures DropForeignKeyOps(init + [k]) == DropForeignKeyOps(init) + [DropForeignKey(k.0, k.1)]
  {
  }

  lemma {:induction false} RunDropFks(c: Catalog, keys: seq<Key>, mentions: Mentions)
    requires NoDup(keys) && forall k :: k in keys ==> k in c.fks
    ensures Run(c, DropForeignKeyOps(keys), mentions) == Some(c.(fks := c.fks - Elements(keys)))
  {
    if keys == [] {
      assert c.fks - Elements(keys) == c.fks;
    } else {
      var init, k := keys[..|keys| - 1], keys[|keys| - 1];
      RunDropFks(c, init, mentions);
      assert keys == init + [k];
      DropFkOpsSnoc(init, k);
      DropFkStep(c, init, k, mentions);
      RunStep(c, DropForeignKeyOps(init), DropForeignKey(k.0, k.1), c.(fks := c.fks - Elements(init)), mentions);
    }
  }

  lemma DropCheckStep(c: Catalog, init: seq<Key>, k: Key, mentions: Mentions)
    requires k in c.checks && k !in init
    ensures var c' := c.(checks := c.checks - Elements(init));
            Accepts(c', DropCheck(k.0, k.1), mentions)
            && Effect(c', DropCheck(k.0, k.1), mentions) == c.(checks := c.checks - Elements(init + [k]))
  {
    WithoutSnoc(c.checks, init, k);
  }

  lemma DropCheckOpsSnoc(init: seq<Key>, k: Key)
    ensures DropCheckOps(init + [k]) == DropCheckOps(init) + [DropCheck(k.0, k.1)]
  {
  }

  lemma {:induction false} RunDropChecks(c: Catalog, keys: seq<Key>, mentions: Mentions)
    requires NoDup(keys) && forall k :: k in keys ==> k in c.checks
    ensures Run(c, DropCheckOps(keys), mentions) == Some(c.(checks := c.checks - Elements(keys)))
  {
    if keys == [] {
      assert c.checks - Elements(keys) == c.checks;
    } else {
      var init, k := keys[..|keys| - 1], keys[|keys| - 1];
      RunDropChecks(c, init, mentions);
      assert keys == init + [k];
      DropCheckOpsSnoc(init, k);
      DropCheckStep(c, init, k, mentions);
      RunStep(c, DropCheckOps(init), DropCheck(k.0, k.1), c.(checks := c.checks - Elements(init)), mentions);
    }
  }

  ghost predicate UniqueIndexNames(c: Catalog) {
    forall k, l :: k in c.indexes && l in c.indexes && k.1 == l.1 ==> k == l
  }

  /** Every foreign key has a key to reference even when only the indexes in `kept` remain. */
  ghost predicate KeysAmong(c: Catalog, kept: map<Key, IndexIR>) {
    forall k :: k in c.fks ==> KeyExists(c.(indexes := kept), c.fks[k])
  }

  lemma KeysAmongMore(c: Catalog, kept: map<Key, IndexIR>, more: map<Key, IndexIR>)
    requires KeysAmong(c, kept)
    requires forall k :: k in kept ==> k in more && more[k] == kept[k]
    ensures KeysAmong(c, more)
  {
  }

  lemma DropIndexOpsSnoc(init: seq<Key>, k: Key)
    ensures DropIndexOps(init + [k]) == DropIndexOps(init) + [DropIndex(k.1)]
  {
  }

  lemma WithoutOne(m: map<Key, IndexIR>, gone: set<Key>, k: Key)
    requires forall a, b :: a in m && b in m && a.1 == b.1 ==> a == b
    requires k in m
    ensures WithoutIndex(m - gone, k.1) == m - (gone + {k})
  {
  }

  lemma {:induction false} RunDropIndexes(c: Catalog, keys: seq<Key>, mentions: Mentions)
    requires NoDup(keys) && forall k :: k in keys ==> k in c.indexes
    requires UniqueIndexNames(c) && KeysAmong(c, c.indexes - Elements(keys))
    ensures Run(c, DropIndexOps(keys), mentions) == Some(c.(indexes := c.indexes - Elements(keys)))
  {
    if keys == [] {
      assert c.indexes - Elements(keys) == c.indexes;
    } else {
      var init, k := keys[..|keys| - 1], keys[|keys| - 1];
      assert keys == init + [k];
      ElementsSnoc(init, k);
      KeysAmongMore(c, c.indexes - Elements(keys), c.indexes - Elements(init));
      RunDropIndexes(c, init, mentions);
      DropIndexOpsSnoc(init, k);
      RunSnoc(c, DropIndexOps(init), DropIndex(k.1), mentions);
      assert k !in init;
      WithoutOne(c.indexes, Elements(init), k);
      DropIndexAccepted(c.(indexes := c.indexes - Elements(init)), k, mentions);
    }
  }

  lemma DropIndexAccepted(c: Catalog, k: Key, mentions: Mentions)
    requires k in c.indexes && KeysAmong(c, WithoutIndex(c.indexes, k.1))
    ensures Accepts(c, DropIndex(k.1), mentions)
  {
  }

  /** Whether or not the server accepts them, index drops that run remove exactly those indexes. */
  lemma {:induction false} DroppedIndexes(c: Catalog, keys: seq<Key>, mentions: Mentions)
    requires forall k :: k in keys ==> k in c.indexes
    requires UniqueIndexNames(c) && Run(c, DropIndexOps(keys), mentions).Some?
    ensures Run(c, DropIndexOps(keys), mentions) == Some(c.(indexes := c.indexes - Elements(keys)))
  {
    if keys == [] {
      assert c.indexes - Elements(keys) == c.indexes;
    } else {
      var init, k := keys[..|keys| - 1], keys[|keys| - 1];
      assert keys == init + [k];
      DropIndexOpsSnoc(init, k);
      RunSnoc(c, DropIndexOps(init), DropIndex(k.1), mentions);
      DroppedIndexes(c, init, mentions);
      ElementsSnoc(init, k);
      WithoutOne(c.indexes, Elements(init), k);
    }
  }

  // ---------- attaching ----------

  function ItemKeys<V(==)>(items: seq<(string, V)>, key: V -> string): set<Key> {
    set p | p in items :: (p.0, key(p.1))
  }

  /** Every item is the member of `target` under its own key. */
  ghost predicate ItemsOf<V(!new)>(items: seq<(string, V)>, key: V -> string, target: map<Key, V>) {
    forall p :: p in items ==> (p.0, key(p.1)) in target && target[(p.0, key(p.1))] == p.1
  }

  lemma ItemKeysSnoc<V>(items: seq<(string, V)>, p: (string, V), key: V -> string)
    ensures ItemKeys(items + [p], key) == ItemKeys(items, key) + {(p.0, key(p.1))}
  {
  }

  lemma ItemKeyNew<V(!new)>(items: seq<(string, V)>, p: (string, V), key: V -> string, target: map<Key, V>)
    requires ItemsOf(items + [p], key, target) && p !in items
    ensures (p.0, key(p.1)) !in ItemKeys(items, key)
  {
  }

  lemma RestrictSnoc<V>(target: map<Key, V>, keep: set<Key>, k: Key)
    requires k in target
    ensures Restrict(target, keep)[k := target[k]] == Restrict(target, keep + {k})
  {
  }

  lemma {:induction false} RunCreateIndexes(c: Catalog, items: seq<(string, IndexIR)>, target: Catalog,
                                            keep: set<Key>, mentions: Mentions)
    requires NoDup(items) && ItemsOf(items, IndexName, target.indexes)
    requires IndexesConsistent(target) && RelationNamesConsistent(target)
    requires c.tables == target.tables && c.columns == target.columns && c.sequences.Keys == target.sequences.Keys
    requires c.indexes == Restrict(target.indexes, keep)
    requires ItemKeys(items, IndexName) !! keep
    ensures Run(c, CreateIndexOps(items), mentions) ==
            Some(c.(indexes := Restrict(target.indexes, keep + ItemKeys(items, IndexName))))
  {
    if items == [] {
      assert keep + ItemKeys(items, IndexName) == keep;
    } else {
      var init, p := items[..|items| - 1], items[|items| - 1];
      assert items == init + [p];
      SplitItems(init, p, IndexName, target.indexes, keep);
      RunCreateIndexes(c, init, target, keep, mentions);
      CreateIndexOpsSnoc(init, p);
      var before := keep + ItemKeys(init, IndexName);
      var c' := c.(indexes := Restrict(target.indexes, before));
      CreateIndexAccepted(c', p.0, p.1, target, before, mentions);
      RunStep(c, CreateIndexOps(init), CreateIndex(p.0, p.1), c', mentions);
    }
  }

  lemma CreateIndexAccepted(c: Catalog, t: string, i: IndexIR, target: Catalog, keep: set<Key>, mentions: Mentions)
    requires (t, i.name) in target.indexes && target.indexes[(t, i.name)] == i && (t, i.name) !in keep
    requires IndexesConsistent(target) && RelationNamesConsistent(target)
    requires c.tables == target.tables && c.columns == target.columns && c.sequences.Keys == target.sequences.Keys
    requires c.indexes == Restrict(target.indexes, keep)
    ensures Accepts(c, CreateIndex(t, i), mentions)
    ensures Effect(c, CreateIndex(t, i), mentions) ==
            c.(indexes := Restrict(target.indexes, keep + {(t, i.name)}))
  {
    RestrictSnoc(target.indexes, keep, (t, i.name));
    assert IndexFits(target, t, i);
    assert RelationFree(c, i.name);
  }

  lemma {:induction false} RunAddFks(c: Catalog, items: seq<(string, ForeignKeyIR)>, target: Catalog,
                                     keep: set<Key>, mentions: Mentions)
    requires NoDup(items) && ItemsOf(items, ForeignKeyName, target.fks)
    requires ForeignKeysConsistent(target)
    requires c.tables == target.tables && c.columns == target.columns && c.indexes == target.indexes
    requires forall k :: k in c.checks ==> k in target.checks
    requires c.fks == Restrict(target.fks, keep)
    requires ItemKeys(items, ForeignKeyName) !! keep
    ensures Run(c, AddForeignKeyOps(items), mentions) ==
            Some(c.(fks := Restrict(target.fks, keep + ItemKeys(items, ForeignKeyName))))
  {
    if items == [] {
      assert keep + ItemKeys(items, ForeignKeyName) == keep;
    } else {
      var init, p := items[..|items| - 1], items[|items| - 1];
      assert items == init + [p];
      SplitItems(init, p, ForeignKeyName, target.fks, keep);
      RunAddFks(c, init, target, keep, mentions);
      AddFkOpsSnoc(init, p);
      var before := keep + ItemKeys(init, ForeignKeyName);
      var c' := c.(fks := Restrict(target.fks, before));
      AddFkAccepted(c', p.0, p.1, target, before, mentions);
      RunStep(c, AddForeignKeyOps(init), AddForeignKey(p.0, p.1), c', mentions);
    }
  }

  /** The last item of a list is new, and adding its key completes the keys. */
  lemma SplitItems<V(!new)>(init: seq<(string, V)>, p: (string, V), key: V -> string, target: map<Key, V>, keep: set<Key>)
    requires NoDup(init + [p]) && ItemsOf(init + [p], key, target) && ItemKeys(init + [p], key) !! keep
    ensures NoDup(init) && ItemsOf(init, key, target) && ItemKeys(init, key) !! keep
    ensures (p.0, key(p.1)) in target && target[(p.0, key(p.1))] == p.1
    ensures (p.0, key(p.1)) !in keep + ItemKeys(init, key)
    ensures keep + ItemKeys(init, key) + {(p.0, key(p.1))} == keep + ItemKeys(init + [p], key)
  {
    var items := init + [p];
    assert items[|init|] == p;
    assert p !in init by {
      assert forall i :: 0 <= i < |init| ==> items[i] == init[i] && items[i] != items[|init|];
    }
    assert forall q :: q in init ==> q in items;
    assert NoDup(init) by {
      assert forall i :: 0 <= i < |init| ==> items[i] == init[i];
    }
    ItemKeysSnoc(init, p, key);
    ItemKeyNew(init, p, key, target);
  }

  lemma CreateIndexOpsSnoc(init: seq<(string, IndexIR)>, p: (string, IndexIR))
    ensures CreateIndexOps(init + [p]) == CreateIndexOps(init) + [CreateIndex(p.0, p.1)]
  {
  }

  lemma AddFkOpsSnoc(init: seq<(string, ForeignKeyIR)>, p: (string, ForeignKeyIR))
    ensures AddForeignKeyOps(init + [p]) == AddForeignKeyOps(init) + [AddForeignKey(p.0, p.1)]
  {
  }

  lemma AddCheckOpsSnoc(init: seq<(string, CheckIR)>, p: (string, CheckIR))
    ensures AddCheckOps(init + [p]) == AddCheckOps(init) + [AddCheck(p.0, p.1)]
  {
  }

  lemma AddFkAccepted(c: Catalog, t: string, fk: ForeignKeyIR, target: Catalog, keep: set<Key>, mentions: Mentions)
    requires (t, fk.name) in target.fks && target.fks[(t, fk.name)] == fk && (t, fk.name) !in keep
    requires ForeignKeysConsistent(target)
    requires c.tables == target.tables && c.columns == target.columns && c.indexes == target.indexes
    requires forall k :: k in c.checks ==> k in target.checks
    requires c.fks == Restrict(target.fks, keep)
    ensures Accepts(c, AddForeignKey(t, fk), mentions)
    ensures Effect(c, AddForeignKey(t, fk), mentions) == c.(fks := Restrict(target.fks, keep + {(t, fk.name)}))
  {
    RestrictSnoc(target.fks, keep, (t, fk.name));
    assert ForeignKeyFits(target, t, fk);
    assert KeyExists(c, fk);
  }

  lemma {:induction false} RunAddChecks(c: Catalog, items: seq<(string, CheckIR)>, target: Catalog,
                                        keep: set<Key>, mentions: Mentions)
    requires NoDup(items) && ItemsOf(items, CheckName, target.checks)
    requires ForeignKeysConsistent(target) && ChecksConsistent(target, mentions)
    requires c.tables == target.tables && c.columns == target.columns && c.fks == target.fks
    requires c.checks == Restrict(target.checks, keep)
    requires ItemKeys(items, CheckName) !! keep
    ensures Run(c, AddCheckOps(items), mentions) ==
            Some(c.(checks := Restrict(target.checks, keep + ItemKeys(items, CheckName))))
  {
    if items == [] {
      assert keep + ItemKeys(items, CheckName) == keep;
    } else {
      var init, p := items[..|items| - 1], items[|items| - 1];
      assert items == init + [p];
      SplitItems(init, p, CheckName, target.checks, keep);
      RunAddChecks(c, init, target, keep, mentions);
      AddCheckOpsSnoc(init, p);
      var before := keep + ItemKeys(init, CheckName);
      var c' := c.(checks := Restrict(target.checks, before));
      AddCheckAccepted(c', p.0, p.1, target, before, mentions);
      RunStep(c, AddCheckOps(init), AddCheck(p.0, p.1), c', mentions);
    }
  }

  lemma AddCheckAccepted(c: Catalog, t: string, chk: CheckIR, target: Catalog, keep: set<Key>, mentions: Mentions)
    requires (t, chk.name) in target.checks && target.checks[(t, chk.name)] == chk && (t, chk.name) !in keep
    requires ForeignKeysConsistent(target) && ChecksConsistent(target, mentions)
    requires c.tables == target.tables && c.columns == target.columns && c.fks == target.fks
    requires c.checks == Restrict(target.checks, keep)
    ensures Accepts(c, AddCheck(t, chk), mentions)
    ensures Effect(c, AddCheck(t, chk), mentions) == c.(checks := Restrict(target.checks, keep + {(t, chk.name)}))
  {
    RestrictSnoc(target.checks, keep, (t, chk.name));
    assert CheckFits(target, t, chk, mentions);
  }

  // ---------- sequences ----------

  lemma {:induction false} RunDropSequences(c: Catalog, names: seq<string>, mentions: Mentions)
    requires NoDup(names) && forall n :: n in names ==> n in c.sequences
    ensures Run(c, DropSequenceOps(names), mentions) == Some(c.(sequences := c.sequences - Elements(names)))
  {
    if names == [] {
      assert c.sequences - Elements(names) == c.sequences;
    } else {
      var init, n := names[..|names| - 1], names[|names| - 1];
      RunDropSequences(c, init, mentions);
      assert names == init + [n];
      assert DropSequenceOps(names) == DropSequenceOps(init) + [DropSequence(n)];
      assert n !in init;
      var c' := c.(sequences := c.sequences - Elements(init));
      RunStep(c, DropSequenceOps(init), DropSequence(n), c', mentions);
      ElementsSnoc(init, n);
      assert c'.sequences - {n} == c.sequences - Elements(names);
    }
  }

  /** Sequence starts after creating `names`; other sequences keep theirs. */
  function WithSequences(starts: map<string, int>, names: seq<string>, sequences: map<string, SequenceIR>): map<string, int> {
    map n | n in starts.Keys + Elements(names) && (n in starts || n in sequences) ::
      if n in starts then starts[n] else sequences[n].start
  }

  lemma CreateSequenceAccepted(c: Catalog, names: seq<string>, n: string, sequences: map<string, SequenceIR>,
                               mentions: Mentions)
    requires n !in names && n in sequences && sequences[n].name == n && RelationFree(c, n)
    ensures var c' := c.(sequences := WithSequences(c.sequences, names, sequences));
            Accepts(c', CreateSequence(sequences[n]), mentions)
            && Effect(c', CreateSequence(sequences[n]), mentions) ==
               c.(sequences := WithSequences(c.sequences, names + [n], sequences))
  {
    ElementsSnoc(names, n);
    assert WithSequences(c.sequences, names, sequences)[n := sequences[n].start]
        == WithSequences(c.sequences, names + [n], sequences);
  }

  lemma {:induction false} RunCreateSequences(c: Catalog, names: seq<string>, sequences: map<string, SequenceIR>,
                                              mentions: Mentions)
    requires NoDup(names)
    requires forall n :: n in names ==> n in sequences && sequences[n].name == n && RelationFree(c, n)
    ensures Run(c, FlatMap(names, n => CreateSequenceOp(sequences, n)), mentions) ==
            Some(c.(sequences := WithSequences(c.sequences, names, sequences)))
  {
    if names == [] {
      assert WithSequences(c.sequences, names, sequences) == c.sequences;
    } else {
      var init, n := names[..|names| - 1], names[|names| - 1];
      assert names == init + [n];
      RunCreateSequences(c, init, sequences, mentions);
      assert n !in init;
      var f := m => CreateSequenceOp(sequences, m);
      var c' := c.(sequences := WithSequences(c.sequences, init, sequences));
      CreateSequenceAccepted(c, init, n, sequences, mentions);
      RunStep(c, FlatMap(init, f), CreateSequence(sequences[n]), c', mentions);
      assert FlatMap(names, f) == FlatMap(init, f) + [CreateSequence(sequences[n])];
    }
  }
}
