/** Foreign-key dependency order by Kahn's algorithm (schema/diff.py, `_topo_sort`). */
module TopoSort {
  import opened Prelude
  import opened Ordering
  import opened SchemaIR

  /** For each table, the tables that must come before it. */
  type Deps = map<string, set<string>>

  function Parents(t: TableIR, subset: set<string>, name: string): set<string> {
    set fk | fk in t.foreignKeys && fk.referencedTable in subset && fk.referencedTable != name :: fk.referencedTable
  }

  /** Foreign-key edges inside `names`; self references are ignored. */
  function ForwardDeps(names: set<string>, tables: map<string, TableIR>): Deps {
    var subset := names * tables.Keys;
    map n | n in subset :: Parents(tables[n], subset, n)
  }

  function Inverted(deps: Deps): Deps {
    map p | p in deps :: set n | n in deps && p in deps[n]
  }

  function DepsFor(names: set<string>, tables: map<string, TableIR>, reverse: bool): Deps {
    if reverse then Inverted(ForwardDeps(names, tables)) else ForwardDeps(names, tables)
  }

  /** Dependencies stay inside the graph. */
  ghost predicate Closed(deps: Deps) {
    forall n :: n in deps ==> deps[n] <= deps.Keys
  }

  /** A walk along dependency edges that returns to its start. */
  ghost predicate IsCycle(deps: Deps, p: seq<string>) {
    && |p| >= 2 && p[0] == p[|p| - 1]
    && forall i :: 0 <= i < |p| - 1 ==> p[i] in deps && p[i + 1] in deps[p[i]]
  }

  ghost predicate Cyclic(deps: Deps) {
    exists p :: IsCycle(deps, p)
  }

  /** Everything an element waits for stands before it. */
  ghost predicate Respects(deps: Deps, r: seq<string>) {
    forall i, d :: 0 <= i < |r| && r[i] in deps && d in deps[r[i]] ==> Before(r, d, i)
  }

  ghost predicate Before(r: seq<string>, d: string, i: int) {
    exists j :: 0 <= j < i && j < |r| && r[j] == d
  }

  /** The promise of the sort: every table once, in dependency order unless that is impossible. */
  ghost predicate IsTopoOrder(deps: Deps, r: seq<string>) {
    && NoDup(r)
    && Elements(r) == deps.Keys
    && (if Cyclic(deps) then r == SortedNames(deps.Keys) else Respects(deps, r))
  }

  // ---------- cycles ----------

  lemma {:induction false} NoDupSize(s: seq<string>, bound: set<string>)
    requires NoDup(s) && forall x :: x in s ==> x in bound
    ensures |s| <= |bound|
  {
    if s != [] {
      var x := s[|s| - 1];
      NoDupSize(s[..|s| - 1], bound - {x});
    }
  }

  lemma {:induction false} NoDupCovers(s: seq<string>, all: set<string>)
    requires NoDup(s) && (forall x :: x in s ==> x in all) && |s| == |all|
    ensures Elements(s) == all
  {
    forall x | x in all ensures x in s {
      if x !in s {
        NoDupSize(s, all - {x});
      }
    }
  }

  /** A walk of `k` further edges inside `live`. */
  ghost function Walk(deps: Deps, live: set<string>, start: string, k: nat): (w: seq<string>)
    requires start in live && live <= deps.Keys
    requires forall n :: n in live ==> deps[n] * live != {}
    ensures |w| == k + 1 && w[0] == start
    ensures forall i :: 0 <= i < |w| ==> w[i] in live
    ensures forall i :: 0 <= i < |w| - 1 ==> w[i + 1] in deps[w[i]]
    decreases k
  {
    if k == 0 then [start]
    else
      var w' := Walk(deps, live, start, k - 1);
      var next :| next in deps[w'[k - 1]] * live;
      w' + [next]
  }

  /** If every remaining node waits for a remaining node, the graph has a cycle. */
  lemma StuckMeansCyclic(deps: Deps, live: set<string>)
    requires live != {} && live <= deps.Keys
    requires forall n :: n in live ==> deps[n] * live != {}
    ensures Cyclic(deps)
  {
    var start :| start in live;
    var w := Walk(deps, live, start, |live|);
    if NoDup(w) {
      NoDupSize(w, live);
    }
    var i, j :| 0 <= i < j < |w| && w[i] == w[j];
    var p := w[i..j + 1];
    assert forall k :: 0 <= k < |p| ==> p[k] == w[i + k];
    assert IsCycle(deps, p);
  }

  lemma {:induction false} PositionsFall(deps: Deps, r: seq<string>, p: seq<string>, k: nat, i: nat)
    requires Respects(deps, r) && Elements(r) == deps.Keys
    requires k < |p| && forall m :: 0 <= m < |p| - 1 ==> p[m] in deps && p[m + 1] in deps[p[m]]
    requires i < |r| && r[i] == p[0]
    ensures exists j :: 0 <= j < |r| && r[j] == p[k] && j + k <= i
  {
    if k == 0 {
    } else {
      PositionsFall(deps, r, p, k - 1, i);
      var j :| 0 <= j < |r| && r[j] == p[k - 1] && j + (k - 1) <= i;
      assert p[(k - 1) + 1] in deps[p[k - 1]];
      assert Before(r, p[k], j);
      var m :| 0 <= m < j && r[m] == p[k];
    }
  }

  lemma RespectsMeansAcyclic(deps: Deps, r: seq<string>)
    requires NoDup(r) && Respects(deps, r) && Elements(r) == deps.Keys
    ensures !Cyclic(deps)
  {
    if p :| IsCycle(deps, p) {
      assert p[0] in Elements(r);
      var i :| 0 <= i < |r| && r[i] == p[0];
      PositionsFall(deps, r, p, |p| - 1, i);
    }
  }

  /** Dropping in reverse order meets a cycle exactly when creating does. */
  lemma InvertedCycle(deps: Deps, p: seq<string>)
    requires Closed(deps) && IsCycle(deps, p)
    ensures Cyclic(Inverted(deps))
  {
    var q := seq(|p|, i requires 0 <= i < |p| => p[|p| - 1 - i]);
    forall i | 0 <= i < |q| - 1 ensures q[i] in Inverted(deps) && q[i + 1] in Inverted(deps)[q[i]] {
      var k := |p| - 2 - i;
      assert p[k] in deps && p[k + 1] in deps[p[k]];
      assert q[i] == p[k + 1] && q[i + 1] == p[k];
    }
    assert IsCycle(Inverted(deps), q);
  }

  lemma InvertedTwice(deps: Deps)
    requires Closed(deps)
    ensures Closed(Inverted(deps)) && Inverted(Inverted(deps)) == deps
  {
    assert Inverted(deps).Keys == deps.Keys;
    forall n | n in deps ensures Inverted(Inverted(deps))[n] == deps[n] {
      forall p ensures p in Inverted(Inverted(deps))[n] <==> p in deps[n] {
      }
    }
  }

  lemma DirectionIrrelevantForCycles(names: set<string>, tables: map<string, TableIR>)
    ensures Cyclic(DepsFor(names, tables, true)) <==> Cyclic(DepsFor(names, tables, false))
  {
    var deps := ForwardDeps(names, tables);
    assert Closed(deps);
    InvertedTwice(deps);
    if p :| IsCycle(deps, p) {
      InvertedCycle(deps, p);
    }
    if p :| IsCycle(Inverted(deps), p) {
      InvertedCycle(Inverted(deps), p);
    }
  }

  // ---------- the same in terms of foreign keys ----------

  /** Table `a` has a foreign key to the other table `b`, both among the named ones. */
  ghost predicate RefersTo(names: set<string>, tables: map<string, TableIR>, a: string, b: string) {
    && a in names && a in tables && b in names && b in tables && a != b
    && exists fk :: fk in tables[a].foreignKeys && fk.referencedTable == b
  }

  ghost predicate IsLoop(names: set<string>, tables: map<string, TableIR>, p: seq<string>) {
    && |p| >= 2 && p[0] == p[|p| - 1]
    && forall i :: 0 <= i < |p| - 1 ==> RefersTo(names, tables, p[i], p[i + 1])
  }

  /** Referenced tables first when creating, last when dropping; sorted names when references loop. */
  ghost predicate InReferenceOrder(names: set<string>, tables: map<string, TableIR>, reverse: bool, r: seq<string>) {
    if exists p :: IsLoop(names, tables, p) then r == SortedNames(names * tables.Keys)
    else forall i, j :: 0 <= i < |r| && 0 <= j < |r| && RefersTo(names, tables, r[i], r[j]) ==> if reverse then i < j else j < i
  }

  lemma EdgesAreReferences(names: set<string>, tables: map<string, TableIR>)
    ensures var deps := ForwardDeps(names, tables);
            forall a, b :: (a in deps && b in deps[a]) <==> RefersTo(names, tables, a, b)
  {
  }

  lemma LoopsAreCycles(names: set<string>, tables: map<string, TableIR>, reverse: bool)
    ensures Cyclic(DepsFor(names, tables, reverse)) <==> exists p :: IsLoop(names, tables, p)
  {
    EdgesAreReferences(names, tables);
    DirectionIrrelevantForCycles(names, tables);
    var deps := ForwardDeps(names, tables);
    forall p ensures IsCycle(deps, p) <==> IsLoop(names, tables, p) {
      assert forall i :: 0 <= i < |p| - 1 ==> ((p[i] in deps && p[i + 1] in deps[p[i]]) <==> RefersTo(names, tables, p[i], p[i + 1]));
      if IsLoop(names, tables, p) {
        forall i | 0 <= i < |p| - 1 ensures p[i] in deps && p[i + 1] in deps[p[i]] {
          assert RefersTo(names, tables, p[i], p[i + 1]);
        }
      }
    }
  }

  lemma TopoOrderFollowsReferences(names: set<string>, tables: map<string, TableIR>, reverse: bool, r: seq<string>)
    requires IsTopoOrder(DepsFor(names, tables, reverse), r)
    ensures NoDup(r) && (forall t :: t in r <==> t in names && t in tables)
    ensures InReferenceOrder(names, tables, reverse, r)
  {
    var deps := DepsFor(names, tables, reverse);
    assert deps.Keys == names * tables.Keys;
    forall t ensures t in r <==> t in names && t in tables {
      assert t in r <==> t in Elements(r);
    }
    EdgesAreReferences(names, tables);
    LoopsAreCycles(names, tables, reverse);
    if !Cyclic(deps) {
      forall i, j | 0 <= i < |r| && 0 <= j < |r| && RefersTo(names, tables, r[i], r[j])
        ensures if reverse then i < j else j < i
      {
        if reverse {
          assert r[j] in deps && r[i] in deps[r[j]];
          assert Before(r, r[i], j);
        } else {
          assert r[i] in deps && r[j] in deps[r[i]];
          assert Before(r, r[j], i);
        }
      }
    }
  }

  // ---------- Kahn's algorithm ----------

  lemma {:induction false} SizeOfElements(s: seq<string>)
    requires NoDup(s)
    ensures |Elements(s)| == |s|
  {
    if s != [] {
      var x := s[|s| - 1];
      SizeOfElements(s[..|s| - 1]);
      assert Elements(s) == Elements(s[..|s| - 1]) + {x};
      assert x !in Elements(s[..|s| - 1]);
    }
  }

  /** How many tables `n` still waits for. */
  function Missing(deps: Deps, n: string, ordered: seq<string>): int
    requires n in deps
  {
    |set d | d in deps[n] && d !in ordered|
  }

  lemma MissingSnoc(deps: Deps, n: string, ordered: seq<string>, node: string)
    requires n in deps && node !in ordered
    ensures Missing(deps, n, ordered + [node]) == Missing(deps, n, ordered) - if node in deps[n] then 1 else 0
  {
    var before := set d | d in deps[n] && d !in ordered;
    var after := set d | d in deps[n] && d !in ordered + [node];
    if node in deps[n] {
      assert before == after + {node} && node !in after;
    } else {
      assert before == after;
    }
  }

  /** Queued and placed tables are distinct members of the graph. */
  ghost predicate Tracked(deps: Deps, queue: seq<string>, ordered: seq<string>) {
    && NoDup(ordered) && NoDup(queue)
    && (forall x :: x in queue ==> x !in ordered && x in deps)
    && (forall x :: x in ordered ==> x in deps)
  }

  /** Bookkeeping of the queue loop: in-degrees count what is still missing, zero means queued or placed. */
  ghost predicate KahnState(deps: Deps, indegree: map<string, int>, queue: seq<string>, ordered: seq<string>) {
    && indegree.Keys == deps.Keys
    && Tracked(deps, queue, ordered)
    && Respects(deps, ordered)
    && (forall n :: n in deps ==> indegree[n] == Missing(deps, n, ordered))
    && (forall n :: n in deps ==> (n in ordered || n in queue <==> indegree[n] == 0))
  }

  lemma MissingZero(deps: Deps, n: string, ordered: seq<string>)
    requires n in deps
    ensures Missing(deps, n, ordered) == 0 <==> forall d :: d in deps[n] ==> d in ordered
  {
    var missing := set d | d in deps[n] && d !in ordered;
    if forall d :: d in deps[n] ==> d in ordered {
      assert missing == {};
    } else {
      var d :| d in deps[n] && d !in ordered;
      assert d in missing;
    }
  }

  lemma MissingStart(deps: Deps)
    ensures forall n :: n in deps ==> Missing(deps, n, []) == |deps[n]|
  {
    forall n | n in deps ensures Missing(deps, n, []) == |deps[n]| {
      assert (set d | d in deps[n] && d !in []) == deps[n];
    }
  }

  /** With the queue empty and tables left over, the leftovers wait for each other. */
  lemma LeftoverMeansCyclic(deps: Deps, indegree: map<string, int>, ordered: seq<string>)
    requires Closed(deps) && KahnState(deps, indegree, [], ordered) && |ordered| != |deps.Keys|
    ensures Cyclic(deps)
  {
    var live := deps.Keys - Elements(ordered);
    if live == {} {
      forall n | n in deps.Keys ensures n in Elements(ordered) {
        assert n !in live;
      }
      assert deps.Keys == Elements(ordered);
      SizeOfElements(ordered);
    }
    forall n | n in live ensures deps[n] * live != {} {
      assert Missing(deps, n, ordered) != 0;
      MissingZero(deps, n, ordered);
      var m :| m in deps[n] && m !in ordered;
      assert m in deps[n] * live;
    }
    StuckMeansCyclic(deps, live);
  }

  lemma FinishKahn(deps: Deps, indegree: map<string, int>, ordered: seq<string>)
    requires Closed(deps) && KahnState(deps, indegree, [], ordered)
    ensures IsTopoOrder(deps, if |ordered| != |deps| then SortedNames(deps.Keys) else ordered)
  {
    if |ordered| != |deps| {
      LeftoverMeansCyclic(deps, indegree, ordered);
      SortedNamesNoDup(deps.Keys);
      assert Elements(SortedNames(deps.Keys)) == deps.Keys;
    } else {
      NoDupCovers(ordered, deps.Keys);
      RespectsMeansAcyclic(deps, ordered);
    }
  }

  /** Distinct placed tables cannot outnumber the graph, so each round makes progress. */
  lemma RoomLeft(deps: Deps, indegree: map<string, int>, queue: seq<string>, ordered: seq<string>)
    requires KahnState(deps, indegree, queue, ordered) && queue != []
    ensures |ordered| < |deps|
  {
    NoDupSize(ordered, deps.Keys - {queue[0]});
  }

  /** In-degrees and the initial queue, before any table is placed. */
  method StartKahn(deps: Deps, sorted: seq<string>) returns (indegree: map<string, int>, queue: seq<string>)
    requires NoDup(sorted) && forall n :: n in sorted <==> n in deps
    ensures KahnState(deps, indegree, queue, [])
  {
    indegree := map n | n in deps :: |deps[n]|;
    var degrees := indegree;
    queue := Filter(sorted, n => n in degrees && degrees[n] == 0);
    FilterNoDup(sorted, n => n in degrees && degrees[n] == 0);
    MissingStart(deps);
  }

  method TopoSort(names: set<string>, tables: map<string, TableIR>, reverse: bool) returns (r: seq<string>)
    ensures NoDup(r) && (forall t :: t in r <==> t in names && t in tables)
    ensures InReferenceOrder(names, tables, reverse, r)
    ensures IsTopoOrder(DepsFor(names, tables, reverse), r)
  {
    var deps := DepsFor(names, tables, reverse);
    r := SortGraph(deps);
    TopoOrderFollowsReferences(names, tables, reverse, r);
  }

  method SortGraph(deps: Deps) returns (r: seq<string>)
    requires Closed(deps)
    ensures IsTopoOrder(deps, r)
  {
    var sorted := SortedNames(deps.Keys);
    SortedNamesNoDup(deps.Keys);
    var indegree, queue := StartKahn(deps, sorted);
    var ordered: seq<string> := [];
    while queue != []
      invariant KahnState(deps, indegree, queue, ordered)
      decreases |sorted| - |ordered|
    {
      RoomLeft(deps, indegree, queue, ordered);
      indegree, queue, ordered := PlaceNode(deps, sorted, indegree, queue, ordered);
    }
    FinishKahn(deps, indegree, ordered);
    r := if |ordered| != |sorted| then sorted else ordered;
  }

  /** One round: move the head of the queue to the order and release what waited only for it. */
  method PlaceNode(deps: Deps, sorted: seq<string>, indegree0: map<string, int>, queue0: seq<string>,
                   ordered0: seq<string>)
    returns (indegree: map<string, int>, queue: seq<string>, ordered: seq<string>)
    requires KahnState(deps, indegree0, queue0, ordered0) && queue0 != []
    requires NoDup(sorted) && forall n :: n in sorted <==> n in deps
    ensures KahnState(deps, indegree, queue, ordered)
    ensures ordered == ordered0 + [queue0[0]]
  {
    var node := queue0[0];
    indegree, queue, ordered := indegree0, queue0[1..], ordered0 + [node];
    NoDupConcat(ordered0, [node]);
    assert Tracked(deps, queue, ordered) by {
      forall x | x in queue ensures x !in ordered && x in deps {
        var k :| 0 <= k < |queue| && queue[k] == x;
        assert queue0[k + 1] == x;
      }
    }
    for i := 0 to |sorted|
      invariant indegree.Keys == deps.Keys
      invariant Tracked(deps, queue, ordered)
      invariant forall k :: 0 <= k < i ==> indegree[sorted[k]] == Missing(deps, sorted[k], ordered)
      invariant forall k :: i <= k < |sorted| ==> indegree[sorted[k]] == Missing(deps, sorted[k], ordered0)
      invariant forall n :: n in deps ==> (n in ordered || n in queue <==> indegree[n] == 0)
    {
      var other := sorted[i];
      MissingSnoc(deps, other, ordered0, node);
      if node in deps[other] {
        indegree := indegree[other := indegree[other] - 1];
        if indegree[other] == 0 {
          queue := queue + [other];
        }
      }
    }
    MissingZero(deps, node, ordered0);
    RespectsSnoc(deps, ordered0, node);
  }

  lemma RespectsSnoc(deps: Deps, ordered: seq<string>, node: string)
    requires Respects(deps, ordered) && node in deps
    requires forall d :: d in deps[node] ==> d in ordered
    ensures Respects(deps, ordered + [node])
  {
    var r := ordered + [node];
    forall i, d | 0 <= i < |r| && r[i] in deps && d in deps[r[i]] ensures Before(r, d, i) {
      if i < |ordered| {
        assert Before(ordered, d, i);
        var j :| 0 <= j < i && ordered[j] == d;
        assert r[j] == d;
      } else {
        var j :| 0 <= j < |ordered| && ordered[j] == d;
        assert r[j] == d;
      }
    }
  }
}
