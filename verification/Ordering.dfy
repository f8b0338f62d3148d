/**
 Lexicographic order and stable sorting, as Python's `sorted` uses them: strings by code point,
 tuples by their first differing component.
 */
module Ordering {
  import opened Prelude

  /** Total, but different elements may tie. */
  ghost predicate Preorder<T(!new)>(le: (T, T) -> bool) {
    && (forall a :: le(a, a))
    && (forall a, b :: le(a, b) || le(b, a))
    && (forall a, b, c :: le(a, b) && le(b, c) ==> le(a, c))
  }

  ghost predicate TotalOrder<T(!new)>(le: (T, T) -> bool) {
    Preorder(le) && forall a, b :: le(a, b) && le(b, a) ==> a == b
  }

  predicate LexLe<T(==)>(le: (T, T) -> bool, a: seq<T>, b: seq<T>)
    decreases |a|
  {
    a == [] || (b != [] && if a[0] == b[0] then LexLe(le, a[1..], b[1..]) else le(a[0], b[0]))
  }

  lemma {:induction false} LexTotal<T(!new)>(le: (T, T) -> bool, a: seq<T>, b: seq<T>)
    requires TotalOrder(le)
    ensures LexLe(le, a, b) || LexLe(le, b, a)
    ensures LexLe(le, a, b) && LexLe(le, b, a) ==> a == b
    decreases |a|
  {
    if a != [] && b != [] && a[0] == b[0] {
      LexTotal(le, a[1..], b[1..]);
      assert a == [a[0]] + a[1..] && b == [b[0]] + b[1..];
    }
  }

  lemma {:induction false} LexTransitive<T(!new)>(le: (T, T) -> bool, a: seq<T>, b: seq<T>, c: seq<T>)
    requires TotalOrder(le)
    requires LexLe(le, a, b) && LexLe(le, b, c)
    ensures LexLe(le, a, c)
    decreases |a|
  {
    if a != [] && a[0] == b[0] == c[0] {
      LexTransitive(le, a[1..], b[1..], c[1..]);
    }
  }

  lemma {:induction false} LexReflexive<T(!new)>(le: (T, T) -> bool, a: seq<T>)
    ensures LexLe(le, a, a)
    decreases |a|
  {
    if a != [] {
      LexReflexive(le, a[1..]);
    }
  }

  /** Component by component, where a later component decides between those that tie. */
  predicate TieLex<T>(le: (T, T) -> bool, a: seq<T>, b: seq<T>)
    decreases |a|
  {
    a == [] || (b != [] && le(a[0], b[0]) && (le(b[0], a[0]) ==> TieLex(le, a[1..], b[1..])))
  }

  lemma {:induction false} TieLexTotal<T(!new)>(le: (T, T) -> bool, a: seq<T>, b: seq<T>)
    requires Preorder(le)
    ensures TieLex(le, a, b) || TieLex(le, b, a)
    decreases |a|
  {
    if a != [] && b != [] {
      TieLexTotal(le, a[1..], b[1..]);
    }
  }

  lemma {:induction false} TieLexTransitive<T(!new)>(le: (T, T) -> bool, a: seq<T>, b: seq<T>, c: seq<T>)
    requires Preorder(le) && TieLex(le, a, b) && TieLex(le, b, c)
    ensures TieLex(le, a, c)
    decreases |a|
  {
    if a != [] && le(c[0], a[0]) {
      TieLexTransitive(le, a[1..], b[1..], c[1..]);
    }
  }

  lemma TieLexPreorder<T(!new)>(le: (T, T) -> bool)
    requires Preorder(le)
    ensures Preorder((a: seq<T>, b: seq<T>) => TieLex(le, a, b))
  {
    forall a: seq<T>, b: seq<T> ensures TieLex(le, a, a) && (TieLex(le, a, b) || TieLex(le, b, a)) {
      TieLexTotal(le, a, a);
      TieLexTotal(le, a, b);
    }
    forall a: seq<T>, b: seq<T>, c: seq<T> | TieLex(le, a, b) && TieLex(le, b, c) ensures TieLex(le, a, c) {
      TieLexTransitive(le, a, b, c);
    }
  }

  /** After equal components the next one is in order. */
  lemma {:induction false} TieLexAt<T(!new)>(le: (T, T) -> bool, a: seq<T>, b: seq<T>, k: nat)
    requires Preorder(le) && k < |a| == |b| && TieLex(le, a, b) && forall i :: 0 <= i < k ==> a[i] == b[i]
    ensures le(a[k], b[k])
    decreases |a|
  {
    if k > 0 {
      TieLexAt(le, a[1..], b[1..], k - 1);
    }
  }

  /** Lists of one length that tie, tie in every component. */
  lemma {:induction false} TieLexComponents<T(!new)>(le: (T, T) -> bool, a: seq<T>, b: seq<T>, i: nat)
    requires |a| == |b| && i < |a| && TieLex(le, a, b) && TieLex(le, b, a)
    ensures le(a[i], b[i]) && le(b[i], a[i])
    decreases |a|
  {
    if i > 0 {
      TieLexComponents(le, a[1..], b[1..], i - 1);
    }
  }

  predicate CharLe(a: char, b: char) { a <= b }

  /** Python's order on `str`. */
  predicate StrLe(a: string, b: string) { LexLe(CharLe, a, b) }

  /** Python's order on tuples of `str`. */
  predicate NamesLe(a: seq<string>, b: seq<string>) { LexLe(StrLe, a, b) }

  /** Python's order on tuples whose components are tuples of `str`. */
  predicate TupleLe(a: seq<seq<string>>, b: seq<seq<string>>) { LexLe(NamesLe, a, b) }

  lemma StrOrder()
    ensures TotalOrder(StrLe)
  {
    assert TotalOrder(CharLe);
    forall a: string, b: string ensures StrLe(a, a) && (StrLe(a, b) || StrLe(b, a))
      ensures StrLe(a, b) && StrLe(b, a) ==> a == b {
      LexReflexive(CharLe, a);
      LexTotal(CharLe, a, b);
    }
    forall a: string, b: string, c: string | StrLe(a, b) && StrLe(b, c) ensures StrLe(a, c) {
      LexTransitive(CharLe, a, b, c);
    }
  }

  lemma TupleOrder()
    ensures TotalOrder(TupleLe)
  {
    StrOrder();
    forall a: seq<string>, b: seq<string> ensures NamesLe(a, a) && (NamesLe(a, b) || NamesLe(b, a))
      ensures NamesLe(a, b) && NamesLe(b, a) ==> a == b {
      LexReflexive(StrLe, a);
      LexTotal(StrLe, a, b);
    }
    forall a: seq<string>, b: seq<string>, c: seq<string> | NamesLe(a, b) && NamesLe(b, c) ensures NamesLe(a, c) {
      LexTransitive(StrLe, a, b, c);
    }
    assert TotalOrder(NamesLe);
    forall a: seq<seq<string>>, b: seq<seq<string>> ensures TupleLe(a, a) && (TupleLe(a, b) || TupleLe(b, a))
      ensures TupleLe(a, b) && TupleLe(b, a) ==> a == b {
      LexReflexive(NamesLe, a);
      LexTotal(NamesLe, a, b);
    }
    forall a: seq<seq<string>>, b: seq<seq<string>>, c: seq<seq<string>> | TupleLe(a, b) && TupleLe(b, c)
      ensures TupleLe(a, c) {
      LexTransitive(NamesLe, a, b, c);
    }
  }

  // ---------- stable sort of a list by key ----------

  function Insert<T, K>(x: T, s: seq<T>, key: T -> K, le: (K, K) -> bool): seq<T> {
    if s == [] || le(key(x), key(s[0])) then [x] + s else [s[0]] + Insert(x, s[1..], key, le)
  }

  /** Python's `sorted(s, key=key)`: equal keys keep their order. */
  function SortBy<T, K>(s: seq<T>, key: T -> K, le: (K, K) -> bool): seq<T> {
    if s == [] then [] else Insert(s[0], SortBy(s[1..], key, le), key, le)
  }

  ghost predicate SortedBy<T(!new), K(!new)>(s: seq<T>, key: T -> K, le: (K, K) -> bool) {
    forall i, j :: 0 <= i < j < |s| ==> le(key(s[i]), key(s[j]))
  }

  lemma {:induction false} InsertCorrect<T(!new), K(!new)>(x: T, s: seq<T>, key: T -> K, le: (K, K) -> bool)
    requires Preorder(le) && SortedBy(s, key, le)
    ensures multiset(Insert(x, s, key, le)) == multiset(s) + multiset{x}
    ensures SortedBy(Insert(x, s, key, le), key, le)
  {
    if s == [] || le(key(x), key(s[0])) {
    } else {
      InsertCorrect(x, s[1..], key, le);
      var r := Insert(x, s[1..], key, le);
      assert s == [s[0]] + s[1..];
      forall i | 0 <= i < |r| ensures le(key(s[0]), key(r[i])) {
        assert r[i] in multiset(r);
        assert r[i] == x || r[i] in s[1..];
      }
    }
  }

  lemma {:induction false} SortCorrect<T(!new), K(!new)>(s: seq<T>, key: T -> K, le: (K, K) -> bool)
    requires Preorder(le)
    ensures multiset(SortBy(s, key, le)) == multiset(s)
    ensures SortedBy(SortBy(s, key, le), key, le)
    ensures forall x :: x in SortBy(s, key, le) <==> x in s
  {
    if s != [] {
      SortCorrect(s[1..], key, le);
      InsertCorrect(s[0], SortBy(s[1..], key, le), key, le);
      assert s == [s[0]] + s[1..];
    }
    forall x ensures x in SortBy(s, key, le) <==> x in s {
      assert x in SortBy(s, key, le) <==> x in multiset(SortBy(s, key, le));
    }
  }

  lemma SortedHead<T(!new), K(!new)>(a: seq<T>, b: seq<T>, key: T -> K, le: (K, K) -> bool)
    requires Preorder(le) && SortedBy(a, key, le) && SortedBy(b, key, le)
    requires a != [] && b != [] && a[0] in b && b[0] in a
    ensures le(key(a[0]), key(b[0])) && le(key(b[0]), key(a[0]))
  {
  }

  lemma MultisetTail<T(!new)>(a: seq<T>)
    requires a != []
    ensures multiset(a[1..]) == multiset(a) - multiset{a[0]}
  {
    assert a == [a[0]] + a[1..];
  }

  lemma SortedTail<T(!new), K(!new)>(a: seq<T>, key: T -> K, le: (K, K) -> bool)
    requires a != [] && SortedBy(a, key, le)
    ensures SortedBy(a[1..], key, le) && forall x :: x in a[1..] ==> x in a
  {
  }

  lemma SameMultiset<T(!new)>(a: seq<T>, b: seq<T>)
    requires multiset(a) == multiset(b)
    ensures |a| == |b| && forall x :: x in a <==> x in b
  {
    assert |a| == |multiset(a)| == |multiset(b)| == |b|;
    forall x ensures x in a <==> x in b {
      assert x in a <==> x in multiset(a);
      assert x in b <==> x in multiset(b);
    }
  }

  /** Equal elements alone tie. */
  ghost predicate TiesEqual<T(!new), K(!new)>(a: seq<T>, key: T -> K, le: (K, K) -> bool) {
    forall x, y :: x in a && y in a && le(key(x), key(y)) && le(key(y), key(x)) ==> x == y
  }

  lemma SameHeads<T(!new), K(!new)>(a: seq<T>, b: seq<T>, key: T -> K, le: (K, K) -> bool)
    requires Preorder(le) && SortedBy(a, key, le) && SortedBy(b, key, le) && TiesEqual(a, key, le)
    requires multiset(a) == multiset(b) && a != []
    ensures b != [] && a[0] == b[0] && multiset(a[1..]) == multiset(b[1..])
  {
    SameMultiset(a, b);
    SortedHead(a, b, key, le);
    MultisetTail(a);
    MultisetTail(b);
  }

  lemma TailTies<T(!new), K(!new)>(a: seq<T>, key: T -> K, le: (K, K) -> bool)
    requires a != [] && SortedBy(a, key, le) && TiesEqual(a, key, le)
    ensures SortedBy(a[1..], key, le) && TiesEqual(a[1..], key, le)
  {
    SortedTail(a, key, le);
  }

  /** A sorted list is determined by its contents when only equal elements tie. */
  lemma {:induction false} SortedUnique<T(!new), K(!new)>(a: seq<T>, b: seq<T>, key: T -> K, le: (K, K) -> bool)
    requires Preorder(le) && SortedBy(a, key, le) && SortedBy(b, key, le)
    requires multiset(a) == multiset(b) && TiesEqual(a, key, le)
    ensures a == b
  {
    if a == [] {
      SameMultiset(a, b);
    } else {
      SameHeads(a, b, key, le);
      TailTies(a, key, le);
      SortedTail(b, key, le);
      SortedUnique(a[1..], b[1..], key, le);
      assert a == [a[0]] + a[1..] && b == [b[0]] + b[1..];
    }
  }

  /** Sorting forgets the order of the list when equal keys mean equal elements. */
  lemma SortPermutation<T(!new), K(!new)>(s: seq<T>, t: seq<T>, key: T -> K, le: (K, K) -> bool)
    requires TotalOrder(le) && multiset(s) == multiset(t)
    requires forall x, y :: x in s && y in s && key(x) == key(y) ==> x == y
    ensures SortBy(s, key, le) == SortBy(t, key, le)
  {
    SortCorrect(s, key, le);
    SortCorrect(t, key, le);
    SortedUnique(SortBy(s, key, le), SortBy(t, key, le), key, le);
  }

  lemma {:induction false} MultisetNoDup<T(!new)>(s: seq<T>, t: seq<T>)
    requires multiset(s) == multiset(t) && NoDup(s)
    ensures NoDup(t)
  {
    forall i, j | 0 <= i < j < |t| && t[i] == t[j] ensures false {
      assert t == t[..i] + [t[i]] + t[i + 1..j] + [t[j]] + t[j + 1..];
      assert multiset(t)[t[i]] >= 2;
      CountNoDup(s, t[i]);
    }
  }

  lemma {:induction false} CountNoDup<T(!new)>(s: seq<T>, x: T)
    requires NoDup(s)
    ensures multiset(s)[x] <= 1
  {
    if s != [] {
      CountNoDup(s[1..], x);
      assert s == [s[0]] + s[1..];
      if s[0] == x {
        assert x !in s[1..];
      }
    }
  }

  /** Two duplicate-free lists with the same elements have the same multiset. */
  lemma {:induction false} SameElements<T(!new)>(s: seq<T>, t: seq<T>)
    requires NoDup(s) && NoDup(t)
    requires forall x :: x in s <==> x in t
    ensures multiset(s) == multiset(t)
  {
    forall x ensures multiset(s)[x] == multiset(t)[x] {
      CountNoDup(s, x);
      CountNoDup(t, x);
      assert x in multiset(s) <==> x in s;
      assert x in multiset(t) <==> x in t;
    }
  }

  // ---------- sorted names of a set ----------

  /** A lower bound of the rest and a new element bound the whole by the smaller one. */
  lemma LeastOfTwo(x: string, m: string, y: string)
    requires StrLe(m, y) || y == x
    ensures StrLe(if StrLe(x, m) then x else m, y)
  {
    StrOrder();
  }

  ghost predicate IsLeast(x: string, s: set<string>) {
    x in s && forall y :: y in s ==> StrLe(x, y)
  }

  lemma LeastOfMore(s: set<string>, x: string, m: string)
    requires x in s && IsLeast(m, s - {x})
    ensures IsLeast(if StrLe(x, m) then x else m, s)
  {
    forall y | y in s ensures StrLe(if StrLe(x, m) then x else m, y) {
      assert y == x || y in s - {x};
      LeastOfTwo(x, m, y);
    }
  }

  lemma {:induction false} MinExists(s: set<string>)
    requires s != {}
    ensures exists x :: IsLeast(x, s)
  {
    var x :| x in s;
    if s == {x} {
      LeastOfTwo(x, x, x);
      assert IsLeast(x, s);
    } else {
      MinExists(s - {x});
      var m :| IsLeast(m, s - {x});
      LeastOfMore(s, x, m);
    }
  }

  function MinName(s: set<string>): (x: string)
    requires s != {}
    ensures x in s && forall y :: y in s ==> StrLe(x, y)
  {
    MinExists(s);
    assert exists x :: IsLeast(x, s);
    assert forall x, y :: StrLe(x, y) && StrLe(y, x) ==> x == y by { StrOrder(); }
    var x :| x in s && forall y | y in s :: StrLe(x, y);
    x
  }

  /** Python's `sorted(s)` for a set of names. */
  function SortedNames(s: set<string>): (r: seq<string>)
    ensures forall x :: x in r <==> x in s
  {
    if s == {} then [] else [MinName(s)] + SortedNames(s - {MinName(s)})
  }

  lemma SortedNamesNoDup(s: set<string>)
    ensures NoDup(SortedNames(s)) && |SortedNames(s)| == |s|
  {
    SortedNamesIncreasing(s);
  }

  lemma SortedNamesMember(s: set<string>, i: int)
    requires 0 <= i < |SortedNames(s)|
    ensures SortedNames(s)[i] in s
  {
  }

  /** Each name once, in increasing order. */
  lemma {:induction false} SortedNamesIncreasing(s: set<string>)
    ensures |SortedNames(s)| == |s|
    ensures NoDup(SortedNames(s))
    ensures forall i, j :: 0 <= i < j < |s| ==> StrLe(SortedNames(s)[i], SortedNames(s)[j])
  {
    if s != {} {
      var m := MinName(s);
      SortedNamesIncreasing(s - {m});
      var rest := SortedNames(s - {m});
      forall i | 0 <= i < |rest| ensures rest[i] in s && rest[i] != m {
        assert rest[i] in rest;
      }
    }
  }
}
