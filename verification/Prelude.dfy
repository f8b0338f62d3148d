/** Small shared vocabulary: optional values, outcomes and duplicate-free sequences. */
module Prelude {

  datatype Option<+T> = None | Some(value: T)

  datatype Result<+T, +E> = Ok(value: T) | Err(error: E)

  ghost predicate NoDup<T(!new)>(s: seq<T>) {
    forall i, j :: 0 <= i < j < |s| ==> s[i] != s[j]
  }

  function Elements<T>(s: seq<T>): set<T> {
    set x | x in s
  }

  lemma ConcatAssoc<T>(a: seq<T>, b: seq<T>, c: seq<T>)
    ensures a + b + c == a + (b + c)
  {
  }

  /** Concatenation of `f(x)` over `xs`, in order: the result of an append loop. */
  function FlatMap<A, B>(xs: seq<A>, f: A -> seq<B>): seq<B> {
    if xs == [] then [] else FlatMap(xs[..|xs| - 1], f) + f(xs[|xs| - 1])
  }

  lemma FlatMapSnoc<A, B>(xs: seq<A>, x: A, f: A -> seq<B>)
    ensures FlatMap(xs + [x], f) == FlatMap(xs, f) + f(x)
  {
  }

  /** One more element of `xs`, as an append loop takes it. */
  lemma FlatMapNext<A, B>(xs: seq<A>, i: nat, f: A -> seq<B>)
    requires i < |xs|
    ensures FlatMap(xs[..i + 1], f) == FlatMap(xs[..i], f) + f(xs[i])
  {
    assert xs[..i + 1] == xs[..i] + [xs[i]];
    FlatMapSnoc(xs[..i], xs[i], f);
  }

  lemma {:induction false} FlatMapMembers<A, B>(xs: seq<A>, f: A -> seq<B>, y: B)
    ensures y in FlatMap(xs, f) <==> exists x :: x in xs && y in f(x)
  {
    if xs == [] {
    } else {
      var init, last := xs[..|xs| - 1], xs[|xs| - 1];
      FlatMapMembers(init, f, y);
      assert xs == init + [last];
      assert forall x :: x in xs <==> x in init || x == last;
    }
  }

  lemma {:induction false} FlatMapNoDup<A(!new), B(!new)>(xs: seq<A>, f: A -> seq<B>)
    requires NoDup(xs)
    requires forall x :: x in xs ==> NoDup(f(x))
    requires forall x, y, z :: x in xs && y in xs && z in f(x) && z in f(y) ==> x == y
    ensures NoDup(FlatMap(xs, f))
  {
    if xs == [] {
    } else {
      var init, last := xs[..|xs| - 1], xs[|xs| - 1];
      FlatMapNoDup(init, f);
      forall z | z in FlatMap(init, f) ensures z !in f(last) {
        FlatMapMembers(init, f, z);
      }
      NoDupConcat(FlatMap(init, f), f(last));
    }
  }

  lemma NoDupConcat<T(!new)>(a: seq<T>, b: seq<T>)
    requires NoDup(a) && NoDup(b)
    requires forall x :: x in a ==> x !in b
    ensures NoDup(a + b)
  {
    forall i, j | 0 <= i < j < |a + b| ensures (a + b)[i] != (a + b)[j] {
      if i < |a| <= j {
        assert (a + b)[i] in a && (a + b)[j] in b;
      }
    }
  }

  /** Elements of `s` that satisfy `p`, in order. */
  function Filter<T(!new)>(s: seq<T>, p: T -> bool): (r: seq<T>)
    ensures forall x :: x in r <==> x in s && p(x)
  {
    if s == [] then []
    else Filter(s[..|s| - 1], p) + if p(s[|s| - 1]) then [s[|s| - 1]] else []
  }

  lemma FilterSnoc<T(!new)>(s: seq<T>, x: T, p: T -> bool)
    ensures Filter(s + [x], p) == Filter(s, p) + if p(x) then [x] else []
  {
  }

  lemma {:induction false} FilterNoDup<T(!new)>(s: seq<T>, p: T -> bool)
    requires NoDup(s)
    ensures NoDup(Filter(s, p))
  {
    if s != [] {
      FilterNoDup(s[..|s| - 1], p);
      NoDupConcat(Filter(s[..|s| - 1], p), if p(s[|s| - 1]) then [s[|s| - 1]] else []);
    }
  }

  /** Python's `{key(x): x for x in s}`: a later element wins. */
  function Dict<T>(s: seq<T>, key: T -> string): map<string, T> {
    if s == [] then map[]
    else Dict(s[..|s| - 1], key)[key(s[|s| - 1]) := s[|s| - 1]]
  }

  function NamesOf<T>(s: seq<T>, key: T -> string): seq<string> {
    seq(|s|, i requires 0 <= i < |s| => key(s[i]))
  }

  predicate DistinctKeys<T(!new)>(s: seq<T>, key: T -> string) {
    forall i, j :: 0 <= i < j < |s| ==> key(s[i]) != key(s[j])
  }

  lemma {:induction false} DictSound<T>(s: seq<T>, key: T -> string)
    ensures forall n :: n in Dict(s, key) ==> Dict(s, key)[n] in s && key(Dict(s, key)[n]) == n
    ensures forall x :: x in s ==> key(x) in Dict(s, key)
  {
    if s != [] {
      DictSound(s[..|s| - 1], key);
      assert s == s[..|s| - 1] + [s[|s| - 1]];
    }
  }

  lemma {:induction false} DictComplete<T(!new)>(s: seq<T>, key: T -> string)
    requires DistinctKeys(s, key)
    ensures forall x :: x in s ==> key(x) in Dict(s, key) && Dict(s, key)[key(x)] == x
    ensures forall n :: n in Dict(s, key) ==> Dict(s, key)[n] in s && key(Dict(s, key)[n]) == n
    ensures NoDup(s)
  {
    DictSound(s, key);
    forall x | x in s ensures Dict(s, key)[key(x)] == x {
      var y := Dict(s, key)[key(x)];
      var i :| 0 <= i < |s| && s[i] == x;
      var j :| 0 <= j < |s| && s[j] == y;
      assert key(s[i]) == key(s[j]);
      assert !(i < j) && !(j < i);
    }
  }

  lemma NamesOfDict<T(!new)>(s: seq<T>, key: T -> string)
    requires DistinctKeys(s, key)
    ensures NoDup(NamesOf(s, key))
    ensures forall n :: n in NamesOf(s, key) <==> n in Dict(s, key)
  {
    DictComplete(s, key);
    forall n | n in Dict(s, key) ensures n in NamesOf(s, key) {
      var i :| 0 <= i < |s| && s[i] == Dict(s, key)[n];
      assert NamesOf(s, key)[i] == n;
    }
  }
}
