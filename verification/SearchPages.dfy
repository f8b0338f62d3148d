/**
 Running a search on a fixed table (persistence/search.py `execute_search`, persistence/fk_enrichment.py)
 and paging through it (frontend list pagination).
 */
module SearchPages {
  import opened Prelude
  import opened Ordering
  import opened SearchSql
  import opened SearchTree
  import opened SearchCompile
  import SearchCorrect

  // ---------- projection and sort keys ----------

  datatype SortKey = SortKey(name: string, descending: bool)

  /** First occurrences, in order. */
  function Dedup(names: seq<string>): seq<string> {
    if names == [] then []
    else
      var init := Dedup(names[..|names| - 1]);
      if names[|names| - 1] in init then init else init + [names[|names| - 1]]
  }

  lemma {:induction false} DedupKeepsNames(names: seq<string>)
    ensures forall n :: n in Dedup(names) <==> n in names
    ensures NoDup(Dedup(names))
  {
    if names != [] {
      DedupKeepsNames(names[..|names| - 1]);
      assert names == names[..|names| - 1] + [names[|names| - 1]];
    }
  }

  method ResolveProjection(attributes: seq<string>, attrs: Attributes) returns (r: Result<seq<string>, SearchError>)
    ensures r.Ok? <==> forall n :: n in attributes ==> n in attrs
    ensures r.Ok? ==> r.value == Dedup(["id"] + attributes)
    ensures r.Err? ==> r.error == Semantic
  {
    var columns := ["id"];
    var seen := {"id"};
    assert ["id"] + attributes[..0] == ["id"];
    for i := 0 to |attributes|
      invariant forall k :: 0 <= k < i ==> attributes[k] in attrs
      invariant columns == Dedup(["id"] + attributes[..i])
      invariant forall n :: n in seen <==> n in columns
    {
      var name := attributes[i];
      if name !in attrs {
        return Err(Semantic);
      }
      assert (["id"] + attributes[..i + 1])[..i + 1] == ["id"] + attributes[..i];
      if name !in seen {
        seen := seen + {name};
        columns := columns + [name];
      }
    }
    assert attributes[..|attributes|] == attributes;
    return Ok(columns);
  }

  /** `x` is named before the first `y`. */
  ghost predicate NamedBefore(names: seq<string>, x: string, y: string) {
    exists k :: 0 <= k < |names| && names[k] == x && y !in names[..k + 1]
  }

  /** Names stand in the order in which they are first named. */
  lemma {:induction false} DedupKeepsOrder(names: seq<string>, i: nat, j: nat)
    requires i < j < |Dedup(names)|
    ensures NamedBefore(names, Dedup(names)[i], Dedup(names)[j])
  {
    var init, last := names[..|names| - 1], names[|names| - 1];
    if j < |Dedup(init)| {
      DedupKeepsOrder(init, i, j);
      var k :| 0 <= k < |init| && init[k] == Dedup(init)[i] && Dedup(init)[j] !in init[..k + 1];
      assert names[..k + 1] == init[..k + 1] && names[k] == init[k];
    } else {
      DedupKeepsNames(init);
      assert Dedup(init)[i] in init;
      var k :| 0 <= k < |init| && init[k] == Dedup(init)[i];
      assert names[k] == init[k];
      assert forall n :: n in names[..k + 1] ==> n in init;
    }
  }

  /** The projection: `id` first, then each requested attribute once, in the order of the request. */
  lemma ProjectionExactly(attributes: seq<string>)
    ensures var columns := Dedup(["id"] + attributes);
            && columns != [] && columns[0] == "id" && NoDup(columns)
            && (forall n :: n in columns <==> n == "id" || n in attributes)
            && forall i, j :: 1 <= i < j < |columns| ==> NamedBefore(attributes, columns[i], columns[j])
  {
    var names := ["id"] + attributes;
    DedupKeepsNames(names);
    HeadStays(names);
    forall i, j | 1 <= i < j < |Dedup(names)| ensures NamedBefore(attributes, Dedup(names)[i], Dedup(names)[j]) {
      DedupKeepsOrder(names, i, j);
      var k :| 0 <= k < |names| && names[k] == Dedup(names)[i] && Dedup(names)[j] !in names[..k + 1];
      assert k > 0 && attributes[k - 1] == names[k];
      assert names[..k + 1] == ["id"] + attributes[..k];
    }
  }

  lemma {:induction false} HeadStays(names: seq<string>)
    requires names != []
    ensures Dedup(names) != [] && Dedup(names)[0] == names[0]
  {
    if |names| > 1 {
      HeadStays(names[..|names| - 1]);
    } else {
      assert Dedup([]) == [];
    }
  }

  predicate HasKeyFor(keys: seq<SortKey>, name: string) {
    exists i :: 0 <= i < |keys| && keys[i].name == name
  }

  /** Caller keys, then the stability keys that they do not already name. */
  function WithStability(sort: seq<SortKey>): seq<SortKey> {
    sort
    + (if HasKeyFor(sort, "created_at") then [] else [SortKey("created_at", true)])
    + (if HasKeyFor(sort, "id") then [] else [SortKey("id", true)])
  }

  method ResolveSort(sort: seq<SortKey>, attrs: Attributes) returns (r: Result<seq<SortKey>, SearchError>)
    ensures r.Ok? <==> forall i :: 0 <= i < |sort| ==> sort[i].name in attrs
    ensures r.Ok? ==> r.value == WithStability(sort)
    ensures r.Err? ==> r.error == Semantic
  {
    var order: seq<SortKey> := [];
    var seen: set<string> := {};
    for i := 0 to |sort|
      invariant forall k :: 0 <= k < i ==> sort[k].name in attrs
      invariant order == sort[..i]
      invariant forall n :: n in seen <==> HasKeyFor(sort[..i], n)
    {
      if sort[i].name !in attrs {
        return Err(Semantic);
      }
      assert sort[..i + 1] == sort[..i] + [sort[i]];
      forall n ensures HasKeyFor(sort[..i + 1], n) <==> HasKeyFor(sort[..i], n) || n == sort[i].name {
        if n == sort[i].name {
          assert sort[..i + 1][i].name == n;
        }
        if HasKeyFor(sort[..i], n) {
          var k :| 0 <= k < i && sort[..i][k].name == n;
          assert sort[..i + 1][k].name == n;
        }
      }
      order := order + [sort[i]];
      seen := seen + {sort[i].name};
    }
    assert sort[..|sort|] == sort;
    if "created_at" !in seen {
      order := order + [SortKey("created_at", true)];
    }
    if "id" !in seen {
      order := order + [SortKey("id", true)];
    }
    return Ok(order);
  }

  /** Whatever the caller asks for, `id` is a sort key. */
  lemma IdAlwaysSorted(sort: seq<SortKey>)
    ensures HasKeyFor(WithStability(sort), "id")
  {
    var all := WithStability(sort);
    if HasKeyFor(sort, "id") {
      var i :| 0 <= i < |sort| && sort[i].name == "id";
      assert all[i] == sort[i];
    } else {
      assert all[|all| - 1].name == "id";
    }
  }

  // ---------- order ----------

  /** One ordering value: the direction is part of it so that rows compare key by key. */
  type Rank = (bool, Option<Value>)

  predicate RankLe(le: (Option<Value>, Option<Value>) -> bool, a: Rank, b: Rank) {
    if a.0 == b.0 then (if a.0 then le(b.1, a.1) else le(a.1, b.1)) else b.0
  }

  function RankOrder(le: (Option<Value>, Option<Value>) -> bool): (Rank, Rank) -> bool {
    (a: Rank, b: Rank) => RankLe(le, a, b)
  }

  function RowOrder(le: (Option<Value>, Option<Value>) -> bool): (seq<Rank>, seq<Rank>) -> bool {
    (a: seq<Rank>, b: seq<Rank>) => TieLex(RankOrder(le), a, b)
  }

  function RankRow(keys: seq<SortKey>, row: Row): seq<Rank> {
    seq(|keys|, i requires 0 <= i < |keys| => (keys[i].descending, Cell(row, keys[i].name)))
  }

  function RankBy(keys: seq<SortKey>): Row -> seq<Rank> {
    (row: Row) => RankRow(keys, row)
  }

  lemma RanksTotal(le: (Option<Value>, Option<Value>) -> bool)
    requires Preorder(le)
    ensures Preorder(RowOrder(le))
  {
    assert Preorder(RankOrder(le));
    TieLexPreorder(RankOrder(le));
    assert forall a: seq<Rank>, b: seq<Rank> :: RowOrder(le)(a, b) == TieLex(RankOrder(le), a, b);
  }

  /** Rows of a table have distinct, non-null ids. */
  ghost predicate UniqueIds(rows: seq<Row>) {
    && (forall i :: 0 <= i < |rows| ==> Cell(rows[i], "id").Some?)
    && (forall i, j :: 0 <= i < j < |rows| ==> Cell(rows[i], "id") != Cell(rows[j], "id"))
  }

  /** Different ids are never equal in the order; other columns may hold values that tie. */
  ghost predicate IdsApart(rows: seq<Row>, le: (Option<Value>, Option<Value>) -> bool) {
    forall a, b :: a in rows && b in rows && le(Cell(a, "id"), Cell(b, "id")) && le(Cell(b, "id"), Cell(a, "id")) ==>
                     Cell(a, "id") == Cell(b, "id")
  }

  /** Rows whose sort keys tie have ids that tie. */
  lemma RanksIdentify(keys: seq<SortKey>, le: (Option<Value>, Option<Value>) -> bool, a: Row, b: Row)
    requires HasKeyFor(keys, "id")
    requires RowOrder(le)(RankRow(keys, a), RankRow(keys, b)) && RowOrder(le)(RankRow(keys, b), RankRow(keys, a))
    ensures le(Cell(a, "id"), Cell(b, "id")) && le(Cell(b, "id"), Cell(a, "id"))
  {
    var i :| 0 <= i < |keys| && keys[i].name == "id";
    TieLexComponents(RankOrder(le), RankRow(keys, a), RankRow(keys, b), i);
  }

  // ---------- a search on a fixed table ----------

  datatype Query = Query(tree: Option<Tree>, sort: seq<SortKey>)

  /** The rows on which the predicate is true; a missing predicate keeps every row. */
  ghost function Matching(engine: Engine, q: Query, rows: seq<Row>): seq<Row>
    requires forall r :: r in rows ==> q.tree.Some? ==> Names(q.tree.value) <= r.Keys
  {
    if rows == [] then []
    else
      var last := rows[|rows| - 1];
      Matching(engine, q, rows[..|rows| - 1])
      + if q.tree.None? || Meaning(engine, last, q.tree.value) == T then [last] else []
  }

  /** The matching rows in the order of the sort keys. */
  ghost function Ordered(engine: Engine, q: Query, rows: seq<Row>, le: (Option<Value>, Option<Value>) -> bool): seq<Row>
    requires forall r :: r in rows ==> q.tree.Some? ==> Names(q.tree.value) <= r.Keys
  {
    SortBy(Matching(engine, q, rows), RankBy(WithStability(q.sort)), RowOrder(le))
  }

  lemma {:induction false} MatchingMembers(engine: Engine, q: Query, rows: seq<Row>)
    requires forall r :: r in rows ==> q.tree.Some? ==> Names(q.tree.value) <= r.Keys
    ensures forall r :: r in Matching(engine, q, rows) <==>
                        r in rows && (q.tree.None? || Meaning(engine, r, q.tree.value) == T)
    ensures NoDup(rows) ==> NoDup(Matching(engine, q, rows))
  {
    if rows != [] {
      var init, last := rows[..|rows| - 1], rows[|rows| - 1];
      MatchingMembers(engine, q, init);
      assert rows == init + [last];
      if NoDup(rows) {
        LastIsNew(rows);
        NoDupConcat(Matching(engine, q, init), Matching(engine, q, rows)[|Matching(engine, q, init)|..]);
      }
    }
  }

  lemma LastIsNew<T(!new)>(s: seq<T>)
    requires s != [] && NoDup(s)
    ensures s[|s| - 1] !in s[..|s| - 1] && NoDup(s[..|s| - 1])
  {
  }

  lemma UniqueIdsNoDup(rows: seq<Row>)
    requires UniqueIds(rows)
    ensures NoDup(rows)
    ensures forall a, b :: a in rows && b in rows && Cell(a, "id") == Cell(b, "id") ==> a == b
  {
  }

  /** Any result the server may return: the matching rows, each once, in an order the sort keys allow. */
  ghost predicate IsResult(engine: Engine, q: Query, rows: seq<Row>, le: (Option<Value>, Option<Value>) -> bool,
                           result: seq<Row>)
    requires forall r :: r in rows ==> q.tree.Some? ==> Names(q.tree.value) <= r.Keys
  {
    && multiset(result) == multiset(Matching(engine, q, rows))
    && SortedBy(result, RankBy(WithStability(q.sort)), RowOrder(le))
  }

  /** The order is total, so repeated searches on the same rows page through one and the same list. */
  lemma ResultUnique(engine: Engine, q: Query, rows: seq<Row>, le: (Option<Value>, Option<Value>) -> bool,
                     result: seq<Row>)
    requires forall r :: r in rows ==> q.tree.Some? ==> Names(q.tree.value) <= r.Keys
    requires UniqueIds(rows) && Preorder(le) && IdsApart(rows, le) && IsResult(engine, q, rows, le, result)
    ensures result == Ordered(engine, q, rows, le)
    ensures forall r :: r in result <==> r in rows && (q.tree.None? || Meaning(engine, r, q.tree.value) == T)
  {
    var keys := WithStability(q.sort);
    var m := Matching(engine, q, rows);
    RanksTotal(le);
    IdAlwaysSorted(q.sort);
    MatchingMembers(engine, q, rows);
    UniqueIdsNoDup(rows);
    SortCorrect(m, RankBy(keys), RowOrder(le));
    forall x ensures x in result <==> x in m {
      assert x in result <==> x in multiset(result);
      assert x in m <==> x in multiset(m);
    }
    var order := RowOrder(le);
    forall a, b | a in result && b in result && order(RankBy(keys)(a), RankBy(keys)(b)) && order(RankBy(keys)(b), RankBy(keys)(a))
      ensures a == b
    {
      RanksIdentify(keys, le, a, b);
    }
    SortedUnique(result, SortBy(m, RankBy(keys), RowOrder(le)), RankBy(keys), RowOrder(le));
  }

  /** What the keys that a request names are worth: two rows that tie on all of them. */
  ghost predicate TieOn(sort: seq<SortKey>, a: Row, b: Row) {
    forall i :: 0 <= i < |sort| ==> Cell(a, sort[i].name) == Cell(b, sort[i].name)
  }

  /** The order that one key asks for. */
  ghost predicate InKeyOrder(key: SortKey, le: (Option<Value>, Option<Value>) -> bool, a: Row, b: Row) {
    if key.descending then le(Cell(b, key.name), Cell(a, key.name)) else le(Cell(a, key.name), Cell(b, key.name))
  }

  /**
   Rows of a result stand in the order of the first key on which they differ; when they tie on every key
   that the request names, the newest comes first, and of equally new ones the greatest id.
   */
  lemma ResultOrder(sort: seq<SortKey>, le: (Option<Value>, Option<Value>) -> bool, result: seq<Row>, i: nat, j: nat, k: nat)
    requires Preorder(le) && SortedBy(result, RankBy(WithStability(sort)), RowOrder(le)) && i < j < |result|
    ensures k < |sort| && TieOn(sort[..k], result[i], result[j]) ==> InKeyOrder(sort[k], le, result[i], result[j])
    ensures TieOn(sort, result[i], result[j]) && (forall s :: s in sort ==> s.name != "created_at") ==>
              le(Cell(result[j], "created_at"), Cell(result[i], "created_at"))
    ensures TieOn(sort, result[i], result[j]) && Cell(result[i], "created_at") == Cell(result[j], "created_at") ==>
              (forall s :: s in sort ==> s.name != "id") ==> le(Cell(result[j], "id"), Cell(result[i], "id"))
  {
    var keys := WithStability(sort);
    var a, b := result[i], result[j];
    assert RowOrder(le)(RankBy(keys)(a), RankBy(keys)(b));
    if k < |sort| && TieOn(sort[..k], a, b) {
      KeyDecides(keys, le, a, b, k);
    }
    if TieOn(sort, a, b) && forall s :: s in sort ==> s.name != "created_at" {
      assert keys[|sort|] == SortKey("created_at", true);
      KeyDecides(keys, le, a, b, |sort|);
    }
    if TieOn(sort, a, b) && Cell(a, "created_at") == Cell(b, "created_at") && forall s :: s in sort ==> s.name != "id" {
      assert keys[|keys| - 1] == SortKey("id", true);
      KeyDecides(keys, le, a, b, |keys| - 1);
    }
  }

  /** The first keys tie, so the next one is in order. */
  lemma KeyDecides(keys: seq<SortKey>, le: (Option<Value>, Option<Value>) -> bool, a: Row, b: Row, k: nat)
    requires k < |keys| && TieOn(keys[..k], a, b) && Preorder(le)
    requires RowOrder(le)(RankRow(keys, a), RankRow(keys, b))
    ensures InKeyOrder(keys[k], le, a, b)
  {
    forall i | 0 <= i < k ensures RankRow(keys, a)[i] == RankRow(keys, b)[i] {
      assert keys[..k][i] == keys[i];
    }
    TieLexAt(RankOrder(le), RankRow(keys, a), RankRow(keys, b), k);
  }

  // ---------- left joins ----------

  /** `LEFT JOIN target ON src.column = target.id`; `columns` are those of the target table. */
  datatype Join = Join(column: string, target: seq<Row>, columns: set<string>)

  function NullRow(columns: set<string>): Row {
    map c | c in columns :: None
  }

  function Partners(row: Row, j: Join): seq<Row> {
    Filter(j.target, (t: Row) => Cell(row, j.column).Some? && Cell(t, "id") == Cell(row, j.column))
  }

  /** The rows that one join puts beside a source row. */
  function JoinOne(row: Row, j: Join): seq<Row> {
    if Partners(row, j) == [] then [NullRow(j.columns)] else Partners(row, j)
  }

  function Extend(tuples: seq<Row>, next: seq<Row>): seq<seq<Row>> {
    seq(|next|, i requires 0 <= i < |next| => tuples + [next[i]])
  }

  function Extender(row: Row, j: Join): seq<Row> -> seq<seq<Row>> {
    (tuples: seq<Row>) => Extend(tuples, JoinOne(row, j))
  }

  /** All combinations that the join chain puts beside a source row. */
  function JoinTuples(row: Row, joins: seq<Join>): seq<seq<Row>> {
    if joins == [] then [[]]
    else FlatMap(JoinTuples(row, joins[..|joins| - 1]), Extender(row, joins[|joins| - 1]))
  }

  /** The identity row of a join: the referenced row if it exists, else nulls. */
  function Identity(row: Row, j: Join): Row {
    JoinOne(row, j)[0]
  }

  function Identities(row: Row, joins: seq<Join>): seq<Row> {
    seq(|joins|, i requires 0 <= i < |joins| => Identity(row, joins[i]))
  }

  lemma {:induction false} FilterAtMostOne(rows: seq<Row>, p: Row -> bool)
    requires forall i, j :: 0 <= i < j < |rows| ==> !(p(rows[i]) && p(rows[j]))
    ensures |Filter(rows, p)| <= 1
  {
    if rows != [] {
      FilterAtMostOne(rows[..|rows| - 1], p);
      if Filter(rows[..|rows| - 1], p) != [] {
        assert Filter(rows[..|rows| - 1], p)[0] in Filter(rows[..|rows| - 1], p);
      }
    }
  }

  lemma JoinOnePartner(row: Row, j: Join)
    requires UniqueIds(j.target)
    ensures JoinOne(row, j) == [Identity(row, j)]
  {
    FilterAtMostOne(j.target, (t: Row) => Cell(row, j.column).Some? && Cell(t, "id") == Cell(row, j.column));
  }

  /** What the enriched read shows beside a row is the referenced record, or nulls for a null or dangling reference. */
  lemma IdentityIsReferenced(row: Row, j: Join)
    requires UniqueIds(j.target)
    ensures (exists t :: t in j.target && Cell(row, j.column).Some? && Cell(t, "id") == Cell(row, j.column)) ==>
              Identity(row, j) in j.target && Cell(Identity(row, j), "id") == Cell(row, j.column)
    ensures !(exists t :: t in j.target && Cell(row, j.column).Some? && Cell(t, "id") == Cell(row, j.column)) ==>
              Identity(row, j) == NullRow(j.columns)
  {
  }

  lemma OneMoreJoin(row: Row, init: seq<Join>, j: Join)
    requires JoinTuples(row, init) == [Identities(row, init)] && UniqueIds(j.target)
    ensures JoinTuples(row, init + [j]) == [Identities(row, init + [j])]
  {
    JoinsSnoc(row, init, j);
    JoinOnePartner(row, j);
    ExtendOnce(Identities(row, init), row, j);
    IdentitiesSnoc(row, init, j);
  }

  /** Joins on unique ids neither drop nor repeat a source row, however many there are. */
  lemma {:induction false} JoinsKeepRow(row: Row, joins: seq<Join>)
    requires forall i :: 0 <= i < |joins| ==> UniqueIds(joins[i].target)
    ensures JoinTuples(row, joins) == [Identities(row, joins)]
  {
    if joins == [] {
      assert Identities(row, joins) == [];
    } else {
      JoinsKeepRow(row, joins[..|joins| - 1]);
      OneMoreJoin(row, joins[..|joins| - 1], joins[|joins| - 1]);
      assert joins[..|joins| - 1] + [joins[|joins| - 1]] == joins;
    }
  }

  lemma JoinsSnoc(row: Row, init: seq<Join>, j: Join)
    ensures JoinTuples(row, init + [j]) == FlatMap(JoinTuples(row, init), Extender(row, j))
  {
    assert (init + [j])[..|init|] == init;
  }

  lemma IdentitiesSnoc(row: Row, init: seq<Join>, j: Join)
    ensures Identities(row, init + [j]) == Identities(row, init) + [Identity(row, j)]
  {
  }

  lemma ExtendOnce(tuples: seq<Row>, row: Row, j: Join)
    requires JoinOne(row, j) == [Identity(row, j)]
    ensures FlatMap([tuples], Extender(row, j)) == [tuples + [Identity(row, j)]]
  {
  }

  /** FROM with its joins: source row and joined rows. */
  function JoinedRows(rows: seq<Row>, joins: seq<Join>): seq<Env> {
    FlatMap(rows, r => Envs(r, JoinTuples(r, joins)))
  }

  function Envs(row: Row, tuples: seq<seq<Row>>): seq<Env> {
    seq(|tuples|, i requires 0 <= i < |tuples| => Env(row, tuples[i]))
  }

  /** The source rows of the environments that pass the WHERE text. */
  function Selected(engine: Engine, envs: seq<Env>, tokens: seq<Token>, params: seq<Value>): seq<Row> {
    if envs == [] then []
    else
      var last := envs[|envs| - 1];
      Selected(engine, envs[..|envs| - 1], tokens, params)
      + if Where(engine, last, tokens, params) == Some(T) then [last.src] else []
  }

  function PlainEnvs(rows: seq<Row>): seq<Env> {
    seq(|rows|, i requires 0 <= i < |rows| => Env(rows[i], []))
  }

  function OneEnvEach(rows: seq<Row>, joins: seq<Join>): seq<Env> {
    seq(|rows|, i requires 0 <= i < |rows| => Env(rows[i], Identities(rows[i], joins)))
  }

  /** The joined FROM has one environment per source row. */
  lemma {:induction false} JoinedOnce(rows: seq<Row>, joins: seq<Join>)
    requires forall j :: j in joins ==> UniqueIds(j.target)
    ensures JoinedRows(rows, joins) == OneEnvEach(rows, joins)
  {
    if rows != [] {
      var init, last := rows[..|rows| - 1], rows[|rows| - 1];
      JoinedOnce(init, joins);
      JoinsKeepRow(last, joins);
      assert Envs(last, [Identities(last, joins)]) == [Env(last, Identities(last, joins))];
      OneEnvEachSnoc(init, last, joins);
      assert rows == init + [last];
    }
  }

  lemma OneEnvEachSnoc(init: seq<Row>, last: Row, joins: seq<Join>)
    ensures OneEnvEach(init + [last], joins) == OneEnvEach(init, joins) + [Env(last, Identities(last, joins))]
  {
  }

  lemma {:induction false} SelectedIsMatching(engine: Engine, rows: seq<Row>, joined: seq<seq<Row>>, t: Tree, q: bool)
    requires Proper(t) && |joined| == |rows| && forall r :: r in rows ==> Names(t) <= r.Keys
    requires q || forall i :: 0 <= i < |joined| ==> joined[i] == []
    ensures Selected(engine, seq(|rows|, i requires 0 <= i < |rows| => Env(rows[i], joined[i])), Emit(t, q), Params(t))
            == Matching(engine, Query(Option.Some(t), []), rows)
  {
    var envs := seq(|rows|, i requires 0 <= i < |rows| => Env(rows[i], joined[i]));
    if rows != [] {
      var n := |rows| - 1;
      SelectedIsMatching(engine, rows[..n], joined[..n], t, q);
      assert envs[..n] == seq(n, i requires 0 <= i < n => Env(rows[..n][i], joined[..n][i]));
      assert rows[n] in rows;
      SearchCorrect.CompiledMeansTree(engine, envs[n], t, q);
      assert SearchCorrect.Resolves(envs[n], q, Names(t));
    }
  }

  lemma {:induction false} MatchingIgnoresSort(engine: Engine, t: Tree, sort: seq<SortKey>, rows: seq<Row>)
    requires forall r :: r in rows ==> Names(t) <= r.Keys
    ensures Matching(engine, Query(Option.Some(t), sort), rows) == Matching(engine, Query(Option.Some(t), []), rows)
  {
    if rows != [] {
      MatchingIgnoresSort(engine, t, sort, rows[..|rows| - 1]);
    }
  }

  /**
   The unjoined COUNT and the enriched SELECT filter the same rows: every matching row is in the
   unpaged SELECT exactly once and its length is the reported total.
   */
  lemma CountEqualsEnrichedLength(engine: Engine, rows: seq<Row>, joins: seq<Join>, t: Tree, sort: seq<SortKey>)
    requires Proper(t) && (forall r :: r in rows ==> Names(t) <= r.Keys)
    requires forall j :: j in joins ==> UniqueIds(j.target)
    ensures Selected(engine, PlainEnvs(rows), Emit(t, false), Params(t)) ==
            Matching(engine, Query(Option.Some(t), sort), rows)
    ensures Selected(engine, JoinedRows(rows, joins), Emit(t, true), Params(t)) ==
            Matching(engine, Query(Option.Some(t), sort), rows)
  {
    MatchingIgnoresSort(engine, t, sort, rows);
    PlainSelects(engine, rows, t);
    JoinedOnce(rows, joins);
    JoinedSelects(engine, rows, joins, t);
  }

  lemma PlainSelects(engine: Engine, rows: seq<Row>, t: Tree)
    requires Proper(t) && (forall r :: r in rows ==> Names(t) <= r.Keys)
    ensures Selected(engine, PlainEnvs(rows), Emit(t, false), Params(t)) == Matching(engine, Query(Option.Some(t), []), rows)
  {
    var none: seq<seq<Row>> := seq(|rows|, i => []);
    SelectedIsMatching(engine, rows, none, t, false);
    assert PlainEnvs(rows) == seq(|rows|, i requires 0 <= i < |rows| => Env(rows[i], none[i]));
  }

  lemma JoinedSelects(engine: Engine, rows: seq<Row>, joins: seq<Join>, t: Tree)
    requires Proper(t) && (forall r :: r in rows ==> Names(t) <= r.Keys)
    ensures Selected(engine, OneEnvEach(rows, joins), Emit(t, true), Params(t)) ==
            Matching(engine, Query(Option.Some(t), []), rows)
  {
    var ids := seq(|rows|, i requires 0 <= i < |rows| => Identities(rows[i], joins));
    SelectedIsMatching(engine, rows, ids, t, true);
    assert OneEnvEach(rows, joins) == seq(|rows|, i requires 0 <= i < |rows| => Env(rows[i], ids[i]));
  }

  // ---------- pages ----------

  const DEFAULT_SEARCH_LIMIT := 20
  const MAX_SEARCH_LIMIT := 200

  function ResolveLimit(limit: Option<int>): (r: Result<nat, SearchError>)
    ensures r.Ok? ==> 1 <= r.value <= MAX_SEARCH_LIMIT
    ensures r.Err? <==> limit.Some? && !(1 <= limit.value <= MAX_SEARCH_LIMIT)
    ensures r.Ok? ==> r.value == if limit.Some? then limit.value else 20
  {
    match limit
    case None => Ok(DEFAULT_SEARCH_LIMIT)
    case Some(n) => if n < 1 || n > MAX_SEARCH_LIMIT then Err(Semantic) else Ok(n)
  }

  /** LIMIT and OFFSET. */
  function Page<T>(rows: seq<T>, limit: nat, offset: nat): seq<T> {
    if offset >= |rows| then [] else if offset + limit <= |rows| then rows[offset..offset + limit] else rows[offset..]
  }

  function LastPageStart(total: int, perPage: int): int {
    if total <= 0 || perPage < 1 then 1 else (total - 1) / perPage * perPage + 1
  }

  predicate CanGoNext(start: int, total: int, perPage: int) {
    !(start > total - perPage)
  }

  function VisibleRowCount(total: int, offset: int, limit: int): int {
    var left := if total - offset < 0 then 0 else total - offset;
    if limit < left then limit else left
  }

  /** The pages shown by pressing Next until it is disabled, joined together. */
  function Walk<T>(rows: seq<T>, start: nat, perPage: nat): seq<T>
    requires start >= 1 && perPage >= 1
    decreases |rows| - start
  {
    Page(rows, perPage, start - 1)
    + if CanGoNext(start, |rows|, perPage) then Walk(rows, start + perPage, perPage) else []
  }

  function WalkEnd(total: nat, start: nat, perPage: nat): nat
    requires start >= 1 && perPage >= 1
    decreases total - start
  {
    if CanGoNext(start, total, perPage) then WalkEnd(total, start + perPage, perPage) else start
  }

  /** Pressing Next from any start shows every later row exactly once, in order. */
  lemma {:induction false} WalkShowsRest<T>(rows: seq<T>, start: nat, perPage: nat)
    requires 1 <= start <= |rows| + 1 && perPage >= 1
    ensures Walk(rows, start, perPage) == rows[start - 1..]
    decreases |rows| - start
  {
    if CanGoNext(start, |rows|, perPage) {
      WalkShowsRest(rows, start + perPage, perPage);
      assert rows[start - 1..] == rows[start - 1..start - 1 + perPage] + rows[start - 1 + perPage..];
    } else {
      assert Page(rows, perPage, start - 1) == rows[start - 1..];
    }
  }

  lemma ProductGap(m: int, d: int)
    requires m >= 1
    ensures d >= 1 ==> m * d >= m
    ensures d <= -1 ==> m * d <= -m
  {
  }

  lemma QuotientUnique(x: int, m: int, q: int, r: int)
    requires m >= 1 && x == m * q + r && 0 <= r < m
    ensures x / m == q && x % m == r
  {
    assert x == m * (x / m) + x % m;
    ProductGap(m, q - x / m);
    assert m * (q - x / m) == x % m - r;
  }

  lemma StepQuotient(x: int, m: int)
    requires m >= 1
    ensures (x + m) / m == x / m + 1 && (x + m) % m == x % m
  {
    assert x + m == m * (x / m + 1) + x % m;
    QuotientUnique(x + m, m, x / m + 1, x % m);
  }

  lemma LastPageBounds(total: int, perPage: int)
    requires total >= 1 && perPage >= 1
    ensures var last := LastPageStart(total, perPage);
            1 <= last <= total < last + perPage && (last - 1) % perPage == 0
  {
    var q := (total - 1) / perPage;
    assert total - 1 == perPage * q + (total - 1) % perPage;
    QuotientUnique(q * perPage, perPage, q, 0);
  }

  /** The walk ends on the page that the Last button names exactly when it started on a page boundary. */
  lemma {:induction false} WalkEndsOnLastPage(total: nat, start: nat, perPage: nat)
    requires 1 <= start <= total && perPage >= 1
    ensures WalkEnd(total, start, perPage) == LastPageStart(total, perPage) <==> (start - 1) % perPage == 0
    decreases total - start
  {
    if CanGoNext(start, total, perPage) {
      StepQuotient(start - 1, perPage);
      WalkEndsOnLastPage(total, start + perPage, perPage);
    } else {
      LastPageBounds(total, perPage);
      if (start - 1) % perPage == 0 {
        LastBoundary(total, start, perPage);
      }
    }
  }

  lemma LastBoundary(total: int, start: int, perPage: int)
    requires 1 <= start <= total && perPage >= 1 && total < start + perPage
    requires (start - 1) % perPage == 0
    ensures start == LastPageStart(total, perPage)
  {
    var q := (start - 1) / perPage;
    assert start - 1 == perPage * q;
    QuotientUnique(total - 1, perPage, q, total - start);
  }

  /** Re-fetching at the clamped offset shows the last rows, and some rows whenever there are any. */
  lemma ClampedPageIsLast<T>(rows: seq<T>, limit: nat)
    requires |rows| >= 1 && limit >= 1
    ensures var offset := LastPageStart(|rows|, limit) - 1;
            0 <= offset < |rows| && Page(rows, limit, offset) == rows[offset..]
  {
    LastPageBounds(|rows|, limit);
  }

  /**
   The test for a start past the last page also fires on pages that are not empty: exactly those whose
   start lies inside the last page instead of at its beginning.
   */
  lemma PastLastPageExactly<T>(rows: seq<T>, limit: nat, offset: nat)
    requires |rows| >= 1 && limit >= 1
    ensures offset + 1 > LastPageStart(|rows|, limit) <==>
            Page(rows, limit, offset) == [] || LastPageStart(|rows|, limit) <= offset < |rows|
    ensures offset % limit == 0 ==>
              (offset + 1 > LastPageStart(|rows|, limit) <==> Page(rows, limit, offset) == [])
  {
    LastPageBounds(|rows|, limit);
    if offset % limit == 0 && offset < |rows| && offset + 1 > LastPageStart(|rows|, limit) {
      LastBoundary(|rows|, offset + 1, limit);
    }
  }

  /** A page-size change skips the request exactly when it would show the same rows. */
  lemma RefreshExactlyWhenWindowChanges<T>(rows: seq<T>, start: nat, before: nat, after: nat)
    requires start >= 1
    ensures VisibleRowCount(|rows|, start - 1, before) == VisibleRowCount(|rows|, start - 1, after) <==>
            Page(rows, before, start - 1) == Page(rows, after, start - 1)
  {
  }

  /** From the first page, Next shows each matching row once, in the one order, and ends on the last page. */
  lemma PagingIsComplete(engine: Engine, q: Query, rows: seq<Row>, le: (Option<Value>, Option<Value>) -> bool,
                         result: seq<Row>, perPage: nat)
    requires forall r :: r in rows ==> q.tree.Some? ==> Names(q.tree.value) <= r.Keys
    requires UniqueIds(rows) && Preorder(le) && IdsApart(rows, le)
    requires IsResult(engine, q, rows, le, result) && perPage >= 1
    ensures Walk(result, 1, perPage) == Ordered(engine, q, rows, le)
    ensures WalkEnd(|result|, 1, perPage) == LastPageStart(|result|, perPage)
  {
    ResultUnique(engine, q, rows, le, result);
    WalkAll(result, perPage);
  }

  lemma WalkAll<T>(rows: seq<T>, perPage: nat)
    requires perPage >= 1
    ensures Walk(rows, 1, perPage) == rows
    ensures WalkEnd(|rows|, 1, perPage) == LastPageStart(|rows|, perPage)
  {
    WalkShowsRest(rows, 1, perPage);
    if |rows| >= 1 {
      QuotientUnique(0, perPage, 0, 0);
      WalkEndsOnLastPage(|rows|, 1, perPage);
    }
  }
}
