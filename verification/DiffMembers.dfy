/** What the selection loops of the planner select, for snapshots whose names are unique. */
module DiffMembers {
  import opened Prelude
  import opened Ordering
  import opened SchemaIR
  import opened Catalog
  import opened SchemaDiff

  lemma StaleMembers<V(!new)>(desired: map<string, V>, current: map<string, V>)
    ensures NoDup(Stale(desired, current))
    ensures forall n :: n in Stale(desired, current) <==> n in current && !(n in desired && desired[n] == current[n])
  {
    var differs := (n: string) => n in desired && n in current && desired[n] != current[n];
    SortedNamesNoDup(current.Keys - desired.Keys);
    SortedNamesNoDup(desired.Keys * current.Keys);
    FilterNoDup(SortedNames(desired.Keys * current.Keys), differs);
    NoDupConcat(SortedNames(current.Keys - desired.Keys), Filter(SortedNames(desired.Keys * current.Keys), differs));
  }

  lemma SortedNoDup<V(!new)>(items: seq<V>, key: V -> string)
    requires DistinctKeys(items, key)
    ensures NoDup(SortBy(items, key, StrLe))
    ensures forall x :: x in SortBy(items, key, StrLe) <==> x in items
  {
    StrOrder();
    SortCorrect(items, key, StrLe);
    DictComplete(items, key);
    MultisetNoDup(items, SortBy(items, key, StrLe));
  }

  lemma FreshSelected<V(!new)>(items: seq<V>, key: V -> string, current: map<string, V>)
    requires DistinctKeys(items, key)
    ensures NoDup(Fresh(items, key, current))
    ensures forall x :: x in Fresh(items, key, current) <==> x in items && !(key(x) in current && current[key(x)] == x)
  {
    SortedNoDup(items, key);
    FilterNoDup(SortBy(items, key, StrLe), x => !(key(x) in current && current[key(x)] == x));
  }

  lemma TaggedMembers<V(!new)>(t: string, items: seq<V>)
    ensures forall p :: p in Tagged(t, items) <==> p.0 == t && p.1 in items
    ensures NoDup(items) ==> NoDup(Tagged(t, items))
  {
    forall p: (string, V) | p.0 == t && p.1 in items ensures p in Tagged(t, items) {
      var i :| 0 <= i < |items| && items[i] == p.1;
      assert Tagged(t, items)[i] == p;
    }
  }

  ghost predicate DistinctMembers<V(!new)>(tables: TableMap, kind: Kind<V>) {
    forall t :: t in tables ==> DistinctKeys(kind.list(tables[t]), kind.key)
  }

  /** The member `k` of `a` is the same in `b`. */
  ghost predicate Same<V(!new)>(a: TableMap, b: TableMap, kind: Kind<V>, k: Key) {
    && k.0 in a && k.0 in b && k.1 in kind.View(a[k.0]) && k.1 in kind.View(b[k.0])
    && kind.View(a[k.0])[k.1] == kind.View(b[k.0])[k.1]
  }

  lemma StaleKeysMembers<V(!new)>(desired: TableMap, current: TableMap, kind: Kind<V>, t: string)
    ensures NoDup(StaleKeys(desired, current, kind, t))
    ensures forall k :: k in StaleKeys(desired, current, kind, t) <==>
                        k.0 == t && t in desired && t in current && k.1 in kind.View(current[t])
                        && !Same(current, desired, kind, k)
  {
    if t in desired && t in current {
      StaleMembers(kind.View(desired[t]), kind.View(current[t]));
      TaggedMembers(t, Stale(kind.View(desired[t]), kind.View(current[t])));
    }
  }

  lemma AllKeysMembers<V(!new)>(current: TableMap, kind: Kind<V>, t: string)
    requires DistinctMembers(current, kind)
    ensures NoDup(AllKeys(current, kind, t))
    ensures forall k :: k in AllKeys(current, kind, t) <==> k.0 == t && t in current && k.1 in kind.View(current[t])
  {
    if t in current {
      NamesOfDict(kind.list(current[t]), kind.key);
      TaggedMembers(t, NamesOf(kind.list(current[t]), kind.key));
    }
  }

  lemma StalePhase<V(!new)>(desired: TableMap, current: TableMap, kind: Kind<V>)
    ensures var r := FlatMap(SortedNames(desired.Keys * current.Keys), t => StaleKeys(desired, current, kind, t));
            NoDup(r)
            && forall k :: k in r <==> k.0 in desired && k.0 in current && k.1 in kind.View(current[k.0])
                                       && !Same(current, desired, kind, k)
  {
    var f := t => StaleKeys(desired, current, kind, t);
    var xs := SortedNames(desired.Keys * current.Keys);
    SortedNamesNoDup(desired.Keys * current.Keys);
    forall t: string { StaleKeysMembers(desired, current, kind, t); }
    FlatMapNoDup(xs, f);
    forall k: Key
      ensures k in FlatMap(xs, f) <==> k.0 in desired && k.0 in current && k.1 in kind.View(current[k.0])
                                       && !Same(current, desired, kind, k)
    {
      FlatMapMembers(xs, f, k);
      StaleKeysMembers(desired, current, kind, k.0);
      if k.0 in desired && k.0 in current && k.1 in kind.View(current[k.0]) && !Same(current, desired, kind, k) {
        assert k.0 in xs && k in f(k.0);
      }
    }
  }

  lemma AllPhase<V(!new)>(desired: TableMap, current: TableMap, kind: Kind<V>)
    requires DistinctMembers(current, kind)
    ensures var r := FlatMap(SortedNames(current.Keys - desired.Keys), t => AllKeys(current, kind, t));
            NoDup(r)
            && forall k :: k in r <==> k.0 !in desired && k.0 in current && k.1 in kind.View(current[k.0])
  {
    var f := t => AllKeys(current, kind, t);
    var xs := SortedNames(current.Keys - desired.Keys);
    SortedNamesNoDup(current.Keys - desired.Keys);
    forall t: string { AllKeysMembers(current, kind, t); }
    FlatMapNoDup(xs, f);
    forall k: Key
      ensures k in FlatMap(xs, f) <==> k.0 !in desired && k.0 in current && k.1 in kind.View(current[k.0])
    {
      FlatMapMembers(xs, f, k);
      AllKeysMembers(current, kind, k.0);
      if k.0 !in desired && k.0 in current && k.1 in kind.View(current[k.0]) {
        assert k.0 in xs && k in f(k.0);
      }
    }
  }

  /** Dropped are exactly the current members that the desired snapshot does not have unchanged. */
  lemma DropKeysSelected<V(!new)>(desired: TableMap, current: TableMap, kind: Kind<V>)
    requires DistinctMembers(current, kind)
    ensures NoDup(DropKeys(desired, current, kind))
    ensures forall k :: k in DropKeys(desired, current, kind) <==>
                        k.0 in current && k.1 in kind.View(current[k.0]) && !Same(current, desired, kind, k)
  {
    StalePhase(desired, current, kind);
    AllPhase(desired, current, kind);
    NoDupConcat(FlatMap(SortedNames(desired.Keys * current.Keys), t => StaleKeys(desired, current, kind, t)),
                FlatMap(SortedNames(current.Keys - desired.Keys), t => AllKeys(current, kind, t)));
  }

  lemma FreshItemsMembers<V(!new)>(desired: TableMap, current: TableMap, kind: Kind<V>, t: string)
    requires DistinctMembers(desired, kind)
    ensures NoDup(FreshItems(desired, current, kind, t))
    ensures forall p :: p in FreshItems(desired, current, kind, t) <==>
                        p.0 == t && t in desired && p.1 in kind.list(desired[t])
                        && !Same(desired, current, kind, (t, kind.key(p.1)))
  {
    if t in desired {
      var have := if t in current then kind.View(current[t]) else map[];
      FreshSelected(kind.list(desired[t]), kind.key, have);
      TaggedMembers(t, Fresh(kind.list(desired[t]), kind.key, have));
      DictComplete(kind.list(desired[t]), kind.key);
    }
  }

  /** Added are exactly the desired members that the current snapshot does not have unchanged. */
  lemma AddItemsSelected<V(!new)>(order: seq<string>, desired: TableMap, current: TableMap, kind: Kind<V>)
    requires DistinctMembers(desired, kind) && NoDup(order) && forall t :: t in order <==> t in desired
    ensures NoDup(AddItems(order, desired, current, kind))
    ensures forall p :: p in AddItems(order, desired, current, kind) <==>
                        p.0 in desired && p.1 in kind.list(desired[p.0])
                        && !Same(desired, current, kind, (p.0, kind.key(p.1)))
  {
    var f := t => FreshItems(desired, current, kind, t);
    forall t: string { FreshItemsMembers(desired, current, kind, t); }
    FlatMapNoDup(order, f);
    forall p: (string, V)
      ensures p in FlatMap(order, f) <==> p.0 in desired && p.1 in kind.list(desired[p.0])
                                          && !Same(desired, current, kind, (p.0, kind.key(p.1)))
    {
      FlatMapMembers(order, f, p);
      FreshItemsMembers(desired, current, kind, p.0);
      if p.0 in desired && p in f(p.0) {
        assert p.0 in order;
      }
    }
  }
}
