/** A whole search request: validation, the COUNT and the SELECT (persistence/search.py `execute_search`). */
module SearchExecute {
  import opened Prelude
  import opened Ordering
  import opened SearchSql
  import opened SearchTree
  import opened SearchRequest
  import opened SearchCompile
  import opened SearchPages
  import Enrichment
  import SearchCorrect

  datatype Request = Request(predicate': Option<Json>, sort: seq<SortKey>, attributes: seq<string>,
                             limit: Option<int>, offset: Option<int>, enrich: bool, idOnly: bool)

  /** The two statements; `plan` is present when the SELECT joins. */
  datatype Statements = Statements(countWhere: seq<Token>, countParams: seq<Value>,
                                   columns: seq<string>, selectWhere: seq<Token>, selectParams: seq<Value>,
                                   order: seq<SortKey>, limit: nat, offset: nat, plan: Option<Enrichment.Plan>)

  datatype Refusal = Client(error: SearchError) | Server

  /** Without read permission only `id` is a known attribute, and nothing is enriched. */
  function Known(attrs: Attributes, idOnly: bool): Attributes {
    if idOnly then map n | n in attrs && n == "id" :: attrs[n] else attrs
  }

  /** A request that names known attributes, pages within bounds and has an acceptable predicate. */
  ghost predicate Valid(q: Request, attrs: Attributes, coerce: Coerce, limits: Limits) {
    var known := Known(attrs, q.idOnly);
    && ResolveLimit(q.limit).Ok?
    && (q.offset.Some? ==> q.offset.value >= 0)
    && (forall n :: n in q.attributes ==> n in known)
    && (forall i :: 0 <= i < |q.sort| ==> q.sort[i].name in known)
    && (q.predicate'.Some? ==> Permitted(q.predicate'.value, known, coerce, limits))
  }

  function TreeOf(q: Request, attrs: Attributes, coerce: Coerce): Option<Tree> {
    if q.predicate'.None? then None else Decode(q.predicate'.value, Known(attrs, q.idOnly), coerce)
  }

  predicate Enriches(q: Request) {
    q.enrich && !q.idOnly
  }

  /** What the statements of a valid request say. */
  ghost predicate Answers(q: Request, attrs: Attributes, coerce: Coerce, st: Statements) {
    var tree := TreeOf(q, attrs, coerce);
    && (q.predicate'.Some? ==> tree.Some?)
    && st.countWhere == (if tree.Some? then Emit(tree.value, false) else [TrueTok])
    && st.selectWhere == (if tree.Some? then Emit(tree.value, Enriches(q)) else [TrueTok])
    && st.countParams == (if tree.Some? then Params(tree.value) else [])
    && st.selectParams == st.countParams
    && st.columns == Dedup(["id"] + q.attributes)
    && st.order == WithStability(q.sort)
    && st.limit == (if q.limit.Some? then q.limit.value else 20)
    && st.offset == (if q.offset.Some? then q.offset.value else 0)
    && st.plan.Some? == Enriches(q)
  }

  lemma KnownExactly(attrs: Attributes, idOnly: bool)
    ensures forall n :: n in Known(attrs, idOnly) <==> n in attrs && (idOnly ==> n == "id")
    ensures forall n :: n in Known(attrs, idOnly) ==> Known(attrs, idOnly)[n] == attrs[n]
  {
  }

  /**
   Without read permission a valid request shows `id` alone, sorts by nothing else that it names, joins
   nothing, and its predicate cannot tell two rows with one id apart.
   */
  lemma IdOnlyRevealsIds(engine: Engine, q: Request, attrs: Attributes, coerce: Coerce, limits: Limits, st: Statements,
                         a: Row, b: Row)
    requires q.idOnly && Valid(q, attrs, coerce, limits) && Answers(q, attrs, coerce, st)
    requires attrs.Keys <= a.Keys && attrs.Keys <= b.Keys && Cell(a, "id") == Cell(b, "id")
    ensures st.columns == ["id"] && st.plan.None? && forall k :: k in q.sort ==> k.name == "id"
    ensures q.predicate'.Some? ==>
              var known := Known(attrs, true);
              Says(engine, a, q.predicate'.value, known, coerce) == Says(engine, b, q.predicate'.value, known, coerce)
  {
    OnlyId(q.attributes);
    if q.predicate'.Some? {
      SaysReadsOnly(engine, a, b, q.predicate'.value, Known(attrs, true), coerce);
    }
  }

  lemma {:induction false} OnlyId(attributes: seq<string>)
    requires forall n :: n in attributes ==> n == "id"
    ensures Dedup(["id"] + attributes) == ["id"]
  {
    var names := ["id"] + attributes;
    if attributes == [] {
      assert names == ["id"] && names[..0] == [];
      assert Dedup([]) == [];
    } else {
      var init := attributes[..|attributes| - 1];
      forall n | n in init ensures n == "id" {
        assert n in attributes;
      }
      OnlyId(init);
      assert attributes[|attributes| - 1] in attributes;
      assert names[..|names| - 1] == ["id"] + attributes[..|attributes| - 1];
      assert names[|names| - 1] == attributes[|attributes| - 1];
    }
  }

  method PrepareSearch(q: Request, attrs: Attributes, coerce: Coerce, limits: Limits,
                       d: Enrichment.Definition, defs: Option<Enrichment.Definitions>)
    returns (r: Result<Statements, Refusal>)
    ensures r.Ok? ==> Valid(q, attrs, coerce, limits) && Answers(q, attrs, coerce, r.value)
    ensures r.Ok? && Enriches(q) ==>
              defs.Some? && r.value.plan == Some(Enrichment.PlanFor(d, defs.value, r.value.columns))
    ensures r.Err? && r.error.Client? ==> !Valid(q, attrs, coerce, limits)
    ensures r.Err? && r.error.Server? ==> (q.idOnly && "id" !in attrs) || (Valid(q, attrs, coerce, limits) && Enriches(q))
  {
    if q.idOnly && "id" !in attrs {
      return Err(Server);
    }
    var known := Known(attrs, q.idOnly);
    var limit := ResolveLimit(q.limit);
    if limit.Err? {
      return Err(Client(limit.error));
    }
    if q.offset.Some? && q.offset.value < 0 {
      return Err(Client(Semantic));
    }
    var columns := ResolveProjection(q.attributes, known);
    if columns.Err? {
      return Err(Client(columns.error));
    }
    var order := ResolveSort(q.sort, known);
    if order.Err? {
      return Err(Client(order.error));
    }
    var count, countParams := CompilePredicateRoot(q.predicate', Context(known, coerce, false), limits);
    if count.Err? {
      return Err(Client(count.error));
    }
    var select, selectParams := CompilePredicateRoot(q.predicate', Context(known, coerce, Enriches(q)), limits);
    assert select.Ok?;
    var offset: nat := if q.offset.Some? then q.offset.value else 0;
    if !Enriches(q) {
      return Ok(Statements(count.value, countParams, columns.value, select.value, selectParams, order.value,
                           limit.value, offset, None));
    }
    if defs.None? {
      return Err(Server);
    }
    var plan := Enrichment.BuildEnrichedReadPlan(d, defs.value, columns.value);
    if plan.Err? {
      return Err(Server);
    }
    return Ok(Statements(count.value, countParams, columns.value, select.value, selectParams, order.value,
                         limit.value, offset, Some(plan.value)));
  }

  // ---------- running the statements on a fixed table ----------

  /** The tables joined beside a row, in plan order. */
  function JoinsOf(plan: Enrichment.Plan, db: Enrichment.Database): seq<Join> {
    seq(|plan.joins|, i requires 0 <= i < |plan.joins| =>
      Join(plan.joins[i].source, if plan.joins[i].table in db then db[plan.joins[i].table] else [], {}))
  }

  /** Source rows that the SELECT returns before ordering and paging. */
  function SelectRows(engine: Engine, st: Statements, rows: seq<Row>, db: Enrichment.Database): seq<Row> {
    Selected(engine, if st.plan.Some? then JoinedRows(rows, JoinsOf(st.plan.value, db)) else PlainEnvs(rows),
             st.selectWhere, st.selectParams)
  }

  function CountRows(engine: Engine, st: Statements, rows: seq<Row>): nat {
    |Selected(engine, PlainEnvs(rows), st.countWhere, st.countParams)|
  }

  lemma {:induction false} TrueSelectsAll(engine: Engine, envs: seq<Env>, rows: seq<Row>)
    requires |envs| == |rows| && forall i :: 0 <= i < |rows| ==> envs[i].src == rows[i]
    ensures Selected(engine, envs, [TrueTok], []) == rows
  {
    if envs != [] {
      var n := |envs| - 1;
      TrueSelectsAll(engine, envs[..n], rows[..n]);
      TrueIsTrue(engine, envs[n]);
      assert rows == rows[..n] + [rows[n]];
    }
  }

  lemma TrueIsTrue(engine: Engine, env: Env)
    ensures Where(engine, env, [TrueTok], []) == Some(T)
  {
    assert [TrueTok][1..] == [];
    assert Bind([], []) == Some([]);
    assert Bind([TrueTok], []) == Some([TrueTok] + []);
    assert [TrueTok] + [] == [TrueTok];
    assert ParseNot([TrueTok]) == Some((True, []));
    SearchCorrect.ParseOperand([TrueTok], True, []);
  }

  lemma {:induction false} NoPredicateMatchesAll(engine: Engine, sort: seq<SortKey>, rows: seq<Row>)
    ensures Matching(engine, Query(None, sort), rows) == rows
  {
    if rows != [] {
      NoPredicateMatchesAll(engine, sort, rows[..|rows| - 1]);
      assert rows == rows[..|rows| - 1] + [rows[|rows| - 1]];
    }
  }

  /** Every column that the decoded predicate names is known. */
  ghost predicate HasColumns(rows: seq<Row>, attrs: Attributes) {
    forall r :: r in rows ==> attrs.Keys <= r.Keys
  }

  lemma TreeColumns(q: Request, attrs: Attributes, coerce: Coerce, rows: seq<Row>)
    requires HasColumns(rows, attrs) && TreeOf(q, attrs, coerce).Some?
    ensures Proper(TreeOf(q, attrs, coerce).value)
    ensures forall r :: r in rows ==> Names(TreeOf(q, attrs, coerce).value) <= r.Keys
  {
    var known := Known(attrs, q.idOnly);
    assert known.Keys <= attrs.Keys;
    DecodedProper(q.predicate'.value, known, coerce);
  }

  /**
   The COUNT is the length of the unpaged SELECT, enriched or not, and both are the rows on which the
   predicate is true.
   */
  lemma CountIsSelectLength(engine: Engine, q: Request, attrs: Attributes, coerce: Coerce, st: Statements,
                            rows: seq<Row>, db: Enrichment.Database)
    requires Answers(q, attrs, coerce, st) && HasColumns(rows, attrs)
    requires forall t :: t in db ==> UniqueIds(db[t])
    ensures TreeOf(q, attrs, coerce).Some? ==>
              forall r :: r in rows ==> Names(TreeOf(q, attrs, coerce).value) <= r.Keys
    ensures SelectRows(engine, st, rows, db) == Matching(engine, Query(TreeOf(q, attrs, coerce), q.sort), rows)
    ensures CountRows(engine, st, rows) == |SelectRows(engine, st, rows, db)|
  {
    var tree := TreeOf(q, attrs, coerce);
    var joins := if st.plan.Some? then JoinsOf(st.plan.value, db) else [];
    assert forall j :: j in joins ==> UniqueIds(j.target);
    if tree.Some? {
      TreeColumns(q, attrs, coerce, rows);
      CountEqualsEnrichedLength(engine, rows, joins, tree.value, q.sort);
    } else {
      NoPredicateCounts(engine, q.sort, rows, joins);
    }
  }

  lemma NoPredicateCounts(engine: Engine, sort: seq<SortKey>, rows: seq<Row>, joins: seq<Join>)
    requires forall j :: j in joins ==> UniqueIds(j.target)
    ensures Matching(engine, Query(None, sort), rows) == rows
    ensures Selected(engine, PlainEnvs(rows), [TrueTok], []) == rows
    ensures Selected(engine, JoinedRows(rows, joins), [TrueTok], []) == rows
  {
    NoPredicateMatchesAll(engine, sort, rows);
    TrueSelectsAll(engine, PlainEnvs(rows), rows);
    JoinedOnce(rows, joins);
    TrueSelectsAll(engine, OneEnvEach(rows, joins), rows);
  }

  lemma PageLength<T>(rows: seq<T>, limit: nat, offset: nat)
    ensures |Page(rows, limit, offset)| == VisibleRowCount(|rows|, offset, limit)
  {
  }

  /**
   A prepared search on a fixed table: the reported total counts exactly the matching rows; whatever
   valid order the server chooses, the items are the page of one list that the request determines; and
   the page is full unless the list ends.
   */
  lemma SearchAnswers(engine: Engine, q: Request, attrs: Attributes, coerce: Coerce, st: Statements,
                      rows: seq<Row>, db: Enrichment.Database, le: (Option<Value>, Option<Value>) -> bool, sorted: seq<Row>)
    requires Answers(q, attrs, coerce, st) && HasColumns(rows, attrs)
    requires (forall t :: t in db ==> UniqueIds(db[t])) && UniqueIds(rows) && Preorder(le) && IdsApart(rows, le)
    requires multiset(sorted) == multiset(SelectRows(engine, st, rows, db))
    requires SortedBy(sorted, RankBy(st.order), RowOrder(le))
    ensures TreeOf(q, attrs, coerce).Some? ==>
              forall r :: r in rows ==> Names(TreeOf(q, attrs, coerce).value) <= r.Keys
    ensures sorted == Ordered(engine, Query(TreeOf(q, attrs, coerce), q.sort), rows, le)
    ensures q.predicate'.Some? ==> Readable(q.predicate'.value, Known(attrs, q.idOnly), coerce)
    ensures forall r :: r in sorted <==>
                        r in rows && (q.predicate'.None? || Says(engine, r, q.predicate'.value, Known(attrs, q.idOnly), coerce) == T)
    ensures |sorted| == CountRows(engine, st, rows)
    ensures |Page(sorted, st.limit, st.offset)| == VisibleRowCount(CountRows(engine, st, rows), st.offset, st.limit)
  {
    CountIsSelectLength(engine, q, attrs, coerce, st, rows, db);
    var query := Query(TreeOf(q, attrs, coerce), q.sort);
    ResultUnique(engine, query, rows, le, sorted);
    SameMultiset(sorted, SelectRows(engine, st, rows, db));
    PageLength(sorted, st.limit, st.offset);
    if q.predicate'.Some? {
      ReadableExactly(q.predicate'.value, Known(attrs, q.idOnly), coerce);
      forall r | r in rows
        ensures Meaning(engine, r, TreeOf(q, attrs, coerce).value) == Says(engine, r, q.predicate'.value, Known(attrs, q.idOnly), coerce)
      {
        DecodedMeansRequest(engine, r, q.predicate'.value, Known(attrs, q.idOnly), coerce);
      }
    }
  }
}
