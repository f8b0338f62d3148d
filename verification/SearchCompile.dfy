/**
 The recursive predicate compiler (persistence/search.py, `_compile_*`): it appends to a shared
 parameter list and counts nodes in a shared budget while it emits SQL.
 */
module SearchCompile {
  import opened Prelude
  import opened SearchSql
  import opened SearchTree
  import opened SearchRequest
  import SearchCorrect
  import Like

  datatype SearchError = Structural | Semantic

  datatype Limits = Limits(maxDepth: nat, maxLength: nat, maxTotalPredicates: nat, maxTotalRegexp: nat)

  type Compiled = Result<seq<Token>, SearchError>

  /** What the compiler is given besides the node. */
  datatype Context = Context(attrs: Attributes, coerce: Coerce, qualify: bool)

  class ParamList {
    var values: seq<Value>

    constructor ()
      ensures values == []
    {
      values := [];
    }

    method Append(v: Value)
      modifies this
      ensures values == old(values) + [v]
    {
      values := values + [v];
    }
  }

  class CompileBudget {
    const limits: Limits
    var totalPredicates: nat
    var totalRegexp: nat

    constructor (limits: Limits)
      ensures this.limits == limits && totalPredicates == 0 && totalRegexp == 0
    {
      this.limits := limits;
      totalPredicates := 0;
      totalRegexp := 0;
    }

    /** Counts one node; false when a total is exceeded. */
    method CountNode(op: string) returns (ok: bool)
      modifies this
      ensures ok <==> old(totalPredicates) + 1 <= limits.maxTotalPredicates
                      && (op == "regexp" ==> old(totalRegexp) + 1 <= limits.maxTotalRegexp)
      ensures ok ==> totalPredicates == old(totalPredicates) + 1
                     && totalRegexp == old(totalRegexp) + if op == "regexp" then 1 else 0
    {
      totalPredicates := totalPredicates + 1;
      if totalPredicates > limits.maxTotalPredicates {
        return false;
      }
      if op == "regexp" {
        totalRegexp := totalRegexp + 1;
        if totalRegexp > limits.maxTotalRegexp {
          return false;
        }
      }
      return true;
    }
  }

  /** A decoded predicate that fits what is left of the limits at this depth. */
  predicate Fits(t: Tree, depth: nat, predicates: nat, regexps: nat, limits: Limits) {
    && depth + Depth(t) <= limits.maxDepth + 1
    && Width(t) <= limits.maxLength
    && predicates + Nodes(t) <= limits.maxTotalPredicates
    && regexps + Regexps(t) <= limits.maxTotalRegexp
  }

  predicate FitsAll(ts: seq<Tree>, depth: nat, predicates: nat, regexps: nat, limits: Limits) {
    && depth + DepthAll(ts) <= limits.maxDepth + 1
    && WidthAll(ts) <= limits.maxLength
    && predicates + NodesAll(ts) <= limits.maxTotalPredicates
    && regexps + RegexpsAll(ts) <= limits.maxTotalRegexp
  }

  /** The requests the compiler accepts. */
  predicate Accepts(node: Json, ctx: Context, depth: nat, predicates: nat, regexps: nat, limits: Limits) {
    match Decode(node, ctx.attrs, ctx.coerce)
    case None => false
    case Some(t) => Fits(t, depth, predicates, regexps, limits)
  }

  predicate AcceptsAll(items: seq<Json>, ctx: Context, depth: nat, predicates: nat, regexps: nat, limits: Limits) {
    match DecodeAll(items, ctx.attrs, ctx.coerce)
    case None => false
    case Some(ts) => FitsAll(ts, depth, predicates, regexps, limits)
  }

  lemma {:induction false} DepthPositive(t: Tree)
    ensures Depth(t) >= 1 && Nodes(t) >= 1
  {
  }

  /** One more child. */
  lemma DecodeSnoc(items: seq<Json>, node: Json, ctx: Context)
    ensures DecodeAll(items + [node], ctx.attrs, ctx.coerce) ==
            (match DecodeAll(items, ctx.attrs, ctx.coerce)
             case None => None
             case Some(ts) =>
               match Decode(node, ctx.attrs, ctx.coerce)
               case None => None
               case Some(t) => Some(ts + [t]))
  {
  }

  lemma AllSnoc(ts: seq<Tree>, t: Tree, joiner: Token, q: bool)
    ensures DepthAll(ts + [t]) == Max(DepthAll(ts), Depth(t))
    ensures WidthAll(ts + [t]) == Max(WidthAll(ts), Width(t))
    ensures NodesAll(ts + [t]) == NodesAll(ts) + Nodes(t)
    ensures RegexpsAll(ts + [t]) == RegexpsAll(ts) + Regexps(t)
    ensures ParamsAll(ts + [t]) == ParamsAll(ts) + Params(t)
    ensures EmitAll(ts + [t], joiner, q) == EmitAll(ts, joiner, q) + (if ts == [] then [] else [joiner]) + Emit(t, q)
  {
  }

  lemma EmitSnoc(ts: seq<Tree>, t: Tree, joiner: Token, q: bool, i: nat)
    requires |ts| == i
    ensures EmitAll(ts + [t], joiner, q) == EmitAll(ts, joiner, q) + (if i == 0 then [] else [joiner]) + Emit(t, q)
  {
    AllSnoc(ts, t, joiner, q);
  }

  /** A list fits exactly when its first children fit and the last fits what they leave over. */
  lemma FitsSnoc(ts: seq<Tree>, t: Tree, depth: nat, predicates: nat, regexps: nat, limits: Limits)
    ensures FitsAll(ts + [t], depth, predicates, regexps, limits) <==>
            FitsAll(ts, depth, predicates, regexps, limits)
            && Fits(t, depth, predicates + NodesAll(ts), regexps + RegexpsAll(ts), limits)
  {
    AllSnoc(ts, t, AndTok, false);
  }

  /** Dropping a suffix of the children cannot break the limits. */
  lemma {:induction false} FitsPrefix(ts: seq<Tree>, i: nat, depth: nat, predicates: nat, regexps: nat, limits: Limits)
    requires i <= |ts| && FitsAll(ts, depth, predicates, regexps, limits)
    ensures FitsAll(ts[..i], depth, predicates, regexps, limits)
  {
    if i == |ts| {
      assert ts[..i] == ts;
    } else {
      var init := ts[..|ts| - 1];
      assert ts == init + [ts[|ts| - 1]];
      FitsSnoc(init, ts[|ts| - 1], depth, predicates, regexps, limits);
      FitsPrefix(init, i, depth, predicates, regexps, limits);
      assert init[..i] == ts[..i];
    }
  }

  /** Children are decoded one by one. */
  lemma {:induction false} DecodedChild(items: seq<Json>, i: nat, ctx: Context)
    requires i <= |items| && DecodeAll(items, ctx.attrs, ctx.coerce).Some?
    ensures var ts := DecodeAll(items, ctx.attrs, ctx.coerce).value;
            DecodeAll(items[..i], ctx.attrs, ctx.coerce) == Some(ts[..i])
            && (i < |items| ==> Decode(items[i], ctx.attrs, ctx.coerce) == Some(ts[i]))
  {
    var ts := DecodeAll(items, ctx.attrs, ctx.coerce).value;
    if i == |items| {
      assert items[..i] == items && ts[..i] == ts;
    } else {
      var init := items[..|items| - 1];
      assert items == init + [items[|items| - 1]];
      DecodeSnoc(init, items[|items| - 1], ctx);
      assert ts[..|ts| - 1] == DecodeAll(init, ctx.attrs, ctx.coerce).value;
      if i < |init| {
        DecodedChild(init, i, ctx);
        assert init[..i] == items[..i] && ts[..|ts| - 1][..i] == ts[..i];
      }
    }
  }

  /** When the whole list is accepted, so is each child with what its predecessors left over. */
  lemma ChildAccepted(items: seq<Json>, i: nat, ts: seq<Tree>, ctx: Context, depth: nat, predicates: nat, regexps: nat,
                      limits: Limits)
    requires i < |items| && DecodeAll(items[..i], ctx.attrs, ctx.coerce) == Some(ts)
    ensures DecodeAll(items, ctx.attrs, ctx.coerce).Some? ==> Decode(items[i], ctx.attrs, ctx.coerce).Some?
    ensures AcceptsAll(items, ctx, depth, predicates, regexps, limits) ==>
              Accepts(items[i], ctx, depth, predicates + NodesAll(ts), regexps + RegexpsAll(ts), limits)
  {
    if DecodeAll(items, ctx.attrs, ctx.coerce).Some? {
      var all := DecodeAll(items, ctx.attrs, ctx.coerce).value;
      DecodedChild(items, i, ctx);
      assert all[..i + 1] == all[..i] + [all[i]];
      FitsSnoc(all[..i], all[i], depth, predicates, regexps, limits);
      if FitsAll(all, depth, predicates, regexps, limits) {
        FitsPrefix(all, i + 1, depth, predicates, regexps, limits);
      }
    }
  }

  /** One more accepted child. */
  lemma ChildAdded(items: seq<Json>, i: nat, ts: seq<Tree>, t: Tree, ctx: Context)
    requires i < |items| && DecodeAll(items[..i], ctx.attrs, ctx.coerce) == Some(ts)
    requires Decode(items[i], ctx.attrs, ctx.coerce) == Some(t)
    ensures DecodeAll(items[..i + 1], ctx.attrs, ctx.coerce) == Some(ts + [t])
  {
    assert items[..i + 1] == items[..i] + [items[i]];
    DecodeSnoc(items[..i], items[i], ctx);
  }

  // ---------- the same of the request itself ----------

  /** An understood request within every limit, its depth, list lengths and nodes counted on the JSON. */
  ghost predicate Permitted(node: Json, attrs: Attributes, coerce: Coerce, limits: Limits) {
    && Readable(node, attrs, coerce)
    && DepthWithin(node, limits.maxDepth) && ListsWithin(node, limits.maxLength)
    && Count(node, None) <= limits.maxTotalPredicates && Count(node, Some("regexp")) <= limits.maxTotalRegexp
  }

  lemma AcceptedIsPermitted(node: Json, ctx: Context, limits: Limits)
    ensures Accepts(node, ctx, 1, 0, 0, limits) <==> Permitted(node, ctx.attrs, ctx.coerce, limits)
  {
    ReadableExactly(node, ctx.attrs, ctx.coerce);
    if Readable(node, ctx.attrs, ctx.coerce) {
      var t := Decode(node, ctx.attrs, ctx.coerce).value;
      DecodedMirrors(node, ctx.attrs, ctx.coerce);
      SameDepth(node, t, limits.maxDepth);
      SameWidth(node, t, limits.maxLength);
      SameCounts(node, t);
    }
  }

  /** The text with its parameters has the request's truth value, with joined rows too if the columns are qualified. */
  ghost predicate TextSays(text: seq<Token>, params: seq<Value>, node: Json, ctx: Context)
    requires Readable(node, ctx.attrs, ctx.coerce)
  {
    forall engine: Engine, row: Row, joined: seq<Row> ::
      ctx.attrs.Keys <= row.Keys && (ctx.qualify || joined == []) ==>
        Where(engine, Env(row, joined), text, params) == Some(Says(engine, row, node, ctx.attrs, ctx.coerce))
  }

  lemma EmittedSays(node: Json, ctx: Context)
    requires Readable(node, ctx.attrs, ctx.coerce)
    ensures Decode(node, ctx.attrs, ctx.coerce).Some?
    ensures var t := Decode(node, ctx.attrs, ctx.coerce).value; TextSays(Emit(t, ctx.qualify), Params(t), node, ctx)
  {
    ReadableExactly(node, ctx.attrs, ctx.coerce);
    var t := Decode(node, ctx.attrs, ctx.coerce).value;
    forall engine: Engine, row: Row, joined: seq<Row> | ctx.attrs.Keys <= row.Keys && (ctx.qualify || joined == [])
      ensures Where(engine, Env(row, joined), Emit(t, ctx.qualify), Params(t)) == Some(Says(engine, row, node, ctx.attrs, ctx.coerce))
    {
      DecodedMeansRequest(engine, row, node, ctx.attrs, ctx.coerce);
      SearchCorrect.CountAndSelectAgree(engine, row, joined, node, ctx.attrs, ctx.coerce);
    }
  }

  // ---------- the compiler ----------

  method CompilePredicateRoot(predicate': Option<Json>, ctx: Context, limits: Limits)
    returns (r: Compiled, params: seq<Value>)
    ensures predicate'.None? ==> r == Ok([TrueTok]) && params == []
    ensures predicate'.Some? ==> (r.Ok? <==> Permitted(predicate'.value, ctx.attrs, ctx.coerce, limits))
    ensures predicate'.Some? && r.Ok? ==> TextSays(r.value, params, predicate'.value, ctx)
    ensures predicate'.Some? && r.Ok? ==>
              Decode(predicate'.value, ctx.attrs, ctx.coerce).Some?
              && var t := Decode(predicate'.value, ctx.attrs, ctx.coerce).value;
                 r.value == Emit(t, ctx.qualify) && params == Params(t)
    ensures predicate'.Some? && r.Err? && Decode(predicate'.value, ctx.attrs, ctx.coerce).Some? ==> r.error == Semantic
    ensures predicate'.Some? && r == Err(Structural) ==> !Shaped(predicate'.value)
  {
    if predicate'.None? {
      return Ok([TrueTok]), [];
    }
    var list := new ParamList();
    var budget := new CompileBudget(limits);
    r := CompilePredicate(predicate'.value, ctx, 1, list, budget);
    params := list.values;
    AcceptedIsPermitted(predicate'.value, ctx, limits);
    if r.Ok? {
      EmittedSays(predicate'.value, ctx);
      ghost var t := Decode(predicate'.value, ctx.attrs, ctx.coerce).value;
      assert [] + Params(t) == Params(t);
      assert TextSays(Emit(t, ctx.qualify), Params(t), predicate'.value, ctx);
    }
  }

  method CompilePredicate(node: Json, ctx: Context, depth: nat, params: ParamList, budget: CompileBudget)
    returns (r: Compiled)
    requires budget.totalRegexp <= budget.limits.maxTotalRegexp
    modifies params, budget
    ensures r.Ok? <==> Accepts(node, ctx, depth, old(budget.totalPredicates), old(budget.totalRegexp), budget.limits)
    ensures r.Ok? ==>
              var t := Decode(node, ctx.attrs, ctx.coerce).value;
              r.value == Emit(t, ctx.qualify) && params.values == old(params.values) + Params(t)
              && budget.totalPredicates == old(budget.totalPredicates) + Nodes(t)
              && budget.totalRegexp == old(budget.totalRegexp) + Regexps(t)
    ensures r.Err? && Decode(node, ctx.attrs, ctx.coerce).Some? ==> r.error == Semantic
    ensures r == Err(Structural) ==> !Shaped(node)
    decreases node, 2
  {
    if Decode(node, ctx.attrs, ctx.coerce).Some? {
      DepthPositive(Decode(node, ctx.attrs, ctx.coerce).value);
    }
    if depth > budget.limits.maxDepth {
      return Err(Semantic);
    }
    if !node.JObject? || "op" !in node.fields {
      return Err(Structural);
    }
    var opNode := node.fields["op"];
    if !opNode.JText? || !Known(opNode.s) {
      return Err(Semantic);
    }
    var op := opNode.s;
    var ok := budget.CountNode(op);
    if !ok {
      CountedOut(node, ctx);
      return Err(Semantic);
    }
    if op in {"and", "or"} {
      r := CompileLogicalList(op, node, ctx, depth, params, budget);
    } else if op == "not" {
      r := CompileNot(node, ctx, depth, params, budget);
    } else if op in {"empty", "not_empty"} {
      r := CompileNullCheck(op, node, ctx);
    } else {
      r := CompileValueTest(op, node, ctx, params);
    }
  }

  /** A node counts itself, so a budget that cannot hold one node refuses every predicate. */
  lemma CountedOut(node: Json, ctx: Context)
    requires OpOf(node).Some?
    ensures Decode(node, ctx.attrs, ctx.coerce).Some? ==>
              var t := Decode(node, ctx.attrs, ctx.coerce).value;
              Nodes(t) >= 1 && (OpOf(node).value == "regexp" ==> Regexps(t) == 1)
  {
  }

  method CompileLogicalList(op: string, node: Json, ctx: Context, depth: nat, params: ParamList, budget: CompileBudget)
    returns (r: Compiled)
    requires OpOf(node) == Some(op) && op in {"and", "or"}
    requires depth <= budget.limits.maxDepth && 0 < budget.totalPredicates <= budget.limits.maxTotalPredicates
    requires budget.totalRegexp <= budget.limits.maxTotalRegexp
    modifies params, budget
    ensures r.Ok? <==> Accepts(node, ctx, depth, old(budget.totalPredicates) - 1, old(budget.totalRegexp), budget.limits)
    ensures r.Ok? ==>
              var t := Decode(node, ctx.attrs, ctx.coerce).value;
              r.value == Emit(t, ctx.qualify) && params.values == old(params.values) + Params(t)
              && budget.totalPredicates == old(budget.totalPredicates) - 1 + Nodes(t)
              && budget.totalRegexp == old(budget.totalRegexp) + Regexps(t)
    ensures r.Err? && Decode(node, ctx.attrs, ctx.coerce).Some? ==> r.error == Semantic
    ensures r == Err(Structural) ==> !Shaped(node)
    decreases node, 1
  {
    if !(node.fields.Keys <= {"op", "predicates"}) {
      return Err(Structural);
    }
    if "predicates" !in node.fields || !node.fields["predicates"].JList? || node.fields["predicates"].items == [] {
      return Err(Structural);
    }
    var children := node.fields["predicates"].items;
    if |children| > budget.limits.maxLength {
      return Err(Semantic);
    }
    var body := CompileChildren(children, node, ctx, depth + 1, if op == "and" then AndTok else OrTok, params, budget);
    if body.Err? {
      return body;
    }
    r := Ok([LParen] + body.value + [RParen]);
  }

  /** Structurally smaller, as recursion into a parsed body needs. */
  ghost predicate ChildrenOf(children: seq<Json>, parent: Json) {
    forall c :: c in children ==> c < parent
  }

  /** The children of a list, in order, sharing the parameters and the budget. */
  method CompileChildren(children: seq<Json>, ghost parent: Json, ctx: Context, depth: nat, joiner: Token,
                         params: ParamList, budget: CompileBudget)
    returns (r: Compiled)
    requires ChildrenOf(children, parent)
    requires budget.totalRegexp <= budget.limits.maxTotalRegexp
    requires budget.totalPredicates <= budget.limits.maxTotalPredicates && depth <= budget.limits.maxDepth + 1
    modifies params, budget
    ensures CompiledAll(r, children, ctx, depth, joiner,
                        old(Usage(params.values, budget.totalPredicates, budget.totalRegexp)),
                        Usage(params.values, budget.totalPredicates, budget.totalRegexp), budget.limits)
    decreases parent, 0, 1
  {
    ghost var start := Usage(params.values, budget.totalPredicates, budget.totalRegexp);
    var body: seq<Token> := [];
    ghost var ts: seq<Tree> := [];
    ProgressStart(children, ctx, depth, joiner, start, budget.limits);
    for i := 0 to |children|
      invariant Halfway(children, i, ts, ctx, depth, start,
                        Usage(params.values, budget.totalPredicates, budget.totalRegexp), budget.limits)
      invariant |ts| == i && body == EmitAll(ts, joiner, ctx.qualify)
    {
      ghost var t;
      var part;
      part, t := CompileChild(children, i, ts, parent, ctx, depth, params, budget, start);
      if part.Err? {
        CompiledErr(part.error, children, i, ctx, depth, joiner, start,
                    Usage(params.values, budget.totalPredicates, budget.totalRegexp), budget.limits);
        return part;
      }
      EmitSnoc(ts, t, joiner, ctx.qualify, i);
      body := body + (if i == 0 then [] else [joiner]) + part.value;
      ts := ts + [t];
    }
    ProgressDone(children, ts, ctx, depth, joiner, start, budget.limits);
    r := Ok(body);
  }

  /** Child `i`, read as `t`, after the children decoded as `ts`. */
  method CompileChild(children: seq<Json>, i: nat, ghost ts: seq<Tree>, ghost parent: Json, ctx: Context, depth: nat,
                      params: ParamList, budget: CompileBudget, ghost start: Usage)
    returns (r: Compiled, ghost t: Tree)
    requires i < |children| && ChildrenOf(children, parent)
    requires Halfway(children, i, ts, ctx, depth, start,
                     Usage(params.values, budget.totalPredicates, budget.totalRegexp), budget.limits)
    requires depth <= budget.limits.maxDepth + 1
    modifies params, budget
    ensures r.Ok? ==>
              && r.value == Emit(t, ctx.qualify)
              && Halfway(children, i + 1, ts + [t], ctx, depth, start,
                         Usage(params.values, budget.totalPredicates, budget.totalRegexp), budget.limits)
    ensures r.Err? ==> !AcceptsAll(children, ctx, depth, start.predicates, start.regexps, budget.limits)
    ensures r.Err? && DecodeAll(children, ctx.attrs, ctx.coerce).Some? ==> r.error == Semantic
    ensures r == Err(Structural) ==> !Shaped(children[i])
    decreases parent, 0, 0
  {
    assert children[i] in children;
    ghost var now := Usage(params.values, budget.totalPredicates, budget.totalRegexp);
    BeforeChild(children, i, ts, ctx, depth, start, now, budget.limits);
    r := CompilePredicate(children[i], ctx, depth, params, budget);
    t := Null("", false);
    if r.Ok? {
      t := Decode(children[i], ctx.attrs, ctx.coerce).value;
      AfterChild(children, i, ts, t, ctx, depth, start, now, budget.limits);
    }
  }

  /** The shared parameters and counters at one moment. */
  datatype Usage = Usage(values: seq<Value>, predicates: nat, regexps: nat) {
    function Add(ts: seq<Tree>): Usage {
      Usage(values + ParamsAll(ts), predicates + NodesAll(ts), regexps + RegexpsAll(ts))
    }
  }

  /** What compiling a list of children answers, and how it moves the shared state. */
  ghost predicate CompiledAll(r: Compiled, children: seq<Json>, ctx: Context, depth: nat, joiner: Token,
                              start: Usage, end: Usage, limits: Limits) {
    && (r.Ok? <==> AcceptsAll(children, ctx, depth, start.predicates, start.regexps, limits))
    && (r.Ok? ==>
          var ts := DecodeAll(children, ctx.attrs, ctx.coerce).value;
          r.value == EmitAll(ts, joiner, ctx.qualify) && end == start.Add(ts))
    && (r.Err? && DecodeAll(children, ctx.attrs, ctx.coerce).Some? ==> r.error == Semantic)
    && (r == Err(Structural) ==> exists c :: c in children && !Shaped(c))
  }

  lemma ProgressStart(children: seq<Json>, ctx: Context, depth: nat, joiner: Token, start: Usage, limits: Limits)
    requires start.predicates <= limits.maxTotalPredicates && start.regexps <= limits.maxTotalRegexp
    requires depth <= limits.maxDepth + 1
    ensures Halfway(children, 0, [], ctx, depth, start, start, limits)
    ensures EmitAll([], joiner, ctx.qualify) == []
  {
    assert children[..0] == [];
    assert start.Add([]) == start;
  }

  lemma ProgressDone(children: seq<Json>, ts: seq<Tree>, ctx: Context, depth: nat, joiner: Token, start: Usage, limits: Limits)
    requires Progress(children, |children|, ts, ctx, depth, start, limits)
    ensures CompiledAll(Ok(EmitAll(ts, joiner, ctx.qualify)), children, ctx, depth, joiner, start, start.Add(ts), limits)
  {
    assert children[..|children|] == children;
  }

  lemma CompiledErr(error: SearchError, children: seq<Json>, i: nat, ctx: Context, depth: nat, joiner: Token, start: Usage,
                    end: Usage, limits: Limits)
    requires !AcceptsAll(children, ctx, depth, start.predicates, start.regexps, limits)
    requires DecodeAll(children, ctx.attrs, ctx.coerce).Some? ==> error == Semantic
    requires i < |children| && (error == Structural ==> !Shaped(children[i]))
    ensures CompiledAll(Err(error), children, ctx, depth, joiner, start, end, limits)
  {
    assert children[i] in children;
  }

  /** The first `i` children are decoded as `ts` and fit. */
  ghost predicate Progress(children: seq<Json>, i: nat, ts: seq<Tree>, ctx: Context, depth: nat, start: Usage,
                           limits: Limits)
    requires i <= |children|
  {
    && |ts| == i
    && DecodeAll(children[..i], ctx.attrs, ctx.coerce) == Some(ts)
    && FitsAll(ts, depth, start.predicates, start.regexps, limits)
  }

  /** And what they used is on record, within the limits. */
  ghost predicate Halfway(children: seq<Json>, i: nat, ts: seq<Tree>, ctx: Context, depth: nat, start: Usage, now: Usage,
                          limits: Limits)
    requires i <= |children|
  {
    && Progress(children, i, ts, ctx, depth, start, limits)
    && now == start.Add(ts)
    && now.predicates <= limits.maxTotalPredicates && now.regexps <= limits.maxTotalRegexp
  }

  lemma ProgressStep(children: seq<Json>, i: nat, ts: seq<Tree>, t: Tree, ctx: Context, depth: nat, start: Usage,
                     limits: Limits)
    requires i < |children| && Progress(children, i, ts, ctx, depth, start, limits)
    requires Decode(children[i], ctx.attrs, ctx.coerce) == Some(t)
    requires Fits(t, depth, start.Add(ts).predicates, start.Add(ts).regexps, limits)
    ensures Progress(children, i + 1, ts + [t], ctx, depth, start, limits)
    ensures start.Add(ts + [t]) ==
            Usage(start.Add(ts).values + Params(t), start.Add(ts).predicates + Nodes(t), start.Add(ts).regexps + Regexps(t))
  {
    ChildAdded(children, i, ts, t, ctx);
    FitsSnoc(ts, t, depth, start.predicates, start.regexps, limits);
    AllSnoc(ts, t, AndTok, false);
    ConcatAssoc(start.values, ParamsAll(ts), Params(t));
  }

  lemma BeforeChild(children: seq<Json>, i: nat, ts: seq<Tree>, ctx: Context, depth: nat, start: Usage, now: Usage, limits: Limits)
    requires i < |children| && Halfway(children, i, ts, ctx, depth, start, now, limits)
    ensures DecodeAll(children, ctx.attrs, ctx.coerce).Some? ==> Decode(children[i], ctx.attrs, ctx.coerce).Some?
    ensures AcceptsAll(children, ctx, depth, start.predicates, start.regexps, limits) ==>
              Accepts(children[i], ctx, depth, now.predicates, now.regexps, limits)
  {
    ChildAccepted(children, i, ts, ctx, depth, start.predicates, start.regexps, limits);
  }

  lemma AfterChild(children: seq<Json>, i: nat, ts: seq<Tree>, t: Tree, ctx: Context, depth: nat, start: Usage, now: Usage,
                   limits: Limits)
    requires i < |children| && Halfway(children, i, ts, ctx, depth, start, now, limits)
    requires Decode(children[i], ctx.attrs, ctx.coerce) == Some(t) && Fits(t, depth, now.predicates, now.regexps, limits)
    ensures Halfway(children, i + 1, ts + [t], ctx, depth, start,
                    Usage(now.values + Params(t), now.predicates + Nodes(t), now.regexps + Regexps(t)), limits)
  {
    ProgressStep(children, i, ts, t, ctx, depth, start, limits);
  }

  method CompileNot(node: Json, ctx: Context, depth: nat, params: ParamList, budget: CompileBudget) returns (r: Compiled)
    requires OpOf(node) == Some("not")
    requires depth <= budget.limits.maxDepth && 0 < budget.totalPredicates <= budget.limits.maxTotalPredicates
    requires budget.totalRegexp <= budget.limits.maxTotalRegexp
    modifies params, budget
    ensures r.Ok? <==> Accepts(node, ctx, depth, old(budget.totalPredicates) - 1, old(budget.totalRegexp), budget.limits)
    ensures r.Ok? ==>
              var t := Decode(node, ctx.attrs, ctx.coerce).value;
              r.value == Emit(t, ctx.qualify) && params.values == old(params.values) + Params(t)
              && budget.totalPredicates == old(budget.totalPredicates) - 1 + Nodes(t)
              && budget.totalRegexp == old(budget.totalRegexp) + Regexps(t)
    ensures r.Err? && Decode(node, ctx.attrs, ctx.coerce).Some? ==> r.error == Semantic
    ensures r == Err(Structural) ==> !Shaped(node)
    decreases node, 0
  {
    if !(node.fields.Keys <= {"op", "predicate"}) || "predicate" !in node.fields {
      return Err(Structural);
    }
    var child := CompilePredicate(node.fields["predicate"], ctx, depth + 1, params, budget);
    if child.Err? {
      return child;
    }
    r := Ok([NotTok, LParen] + child.value + [RParen]);
  }

  /** The attribute lookup shared by all leaves. */
  method RequireAttribute(fields: map<string, Json>, attrs: Attributes) returns (r: Result<string, SearchError>)
    ensures r.Ok? <==> AttributeOf(fields, attrs).Some?
    ensures r.Ok? ==> r.value == AttributeOf(fields, attrs).value
    ensures r.Err? ==> (r.error == Structural <==> "attribute" !in fields)
  {
    if "attribute" !in fields {
      return Err(Structural);
    }
    var name := fields["attribute"];
    if !name.JText? || name.s == "" || name.s !in attrs {
      return Err(Semantic);
    }
    return Ok(name.s);
  }

  method CompileNullCheck(op: string, node: Json, ctx: Context) returns (r: Compiled)
    requires OpOf(node) == Some(op) && op in {"empty", "not_empty"}
    ensures r.Ok? <==> DecodeLeaf(op, node.fields, ctx.attrs, ctx.coerce).Some?
    ensures r == Err(Structural) ==> !Shaped(node)
    ensures r.Ok? ==> r.value == Emit(DecodeLeaf(op, node.fields, ctx.attrs, ctx.coerce).value, ctx.qualify)
  {
    if !(node.fields.Keys <= {"op", "attribute"}) {
      return Err(Structural);
    }
    var name := RequireAttribute(node.fields, ctx.attrs);
    if name.Err? {
      return Err(name.error);
    }
    var column := Column(ctx.qualify, name.value);
    r := Ok(if op == "empty" then [column, IsTok, NullTok] else [column, IsTok, NotTok, NullTok]);
  }

  /** Equality, ordered comparison and text patterns: the leaves with a value. */
  method CompileValueTest(op: string, node: Json, ctx: Context, params: ParamList) returns (r: Compiled)
    requires OpOf(node) == Some(op) && op !in {"and", "or", "not", "empty", "not_empty"}
    modifies params
    ensures r.Ok? <==> DecodeLeaf(op, node.fields, ctx.attrs, ctx.coerce).Some?
    ensures r == Err(Structural) ==> !Shaped(node)
    ensures r.Ok? ==>
              var t := DecodeLeaf(op, node.fields, ctx.attrs, ctx.coerce).value;
              r.value == Emit(t, ctx.qualify) && params.values == old(params.values) + Params(t)
  {
    var fields := node.fields;
    if !(fields.Keys <= {"op", "attribute", "value"}) {
      return Err(Structural);
    }
    var name := RequireAttribute(fields, ctx.attrs);
    if name.Err? {
      return Err(name.error);
    }
    var typeName := ctx.attrs[name.value];
    if op in {"gt", "gte", "lt", "lte"} && typeName !in ORDERED_TYPES {
      return Err(Semantic);
    }
    if op in {"contains", "starts_with", "ends_with", "regexp"} && typeName !in TEXT_TYPES {
      return Err(Semantic);
    }
    if "value" !in fields {
      return Err(Structural);
    }
    if fields["value"].JNull? || typeName !in ADAPTER_TYPES {
      return Err(Semantic);
    }
    var typed := ctx.coerce(typeName, fields["value"]);
    if typed.None? {
      return Err(Semantic);
    }
    var column := Column(ctx.qualify, name.value);
    if op in {"eq", "ne"} {
      params.Append(typed.value);
      return Ok([column, Cmp(if op == "eq" then Eq else Ne), Placeholder]);
    }
    if op in {"gt", "gte", "lt", "lte"} {
      params.Append(typed.value);
      var collation := if typeName in TEXT_TYPES then [CollateC] else [];
      return Ok([column] + collation + [Cmp(OrderOp(op)), Placeholder]);
    }
    if !typed.value.Text? {
      return Err(Semantic);
    }
    if op == "regexp" {
      params.Append(typed.value);
      return Ok([column, TildeTok, Placeholder]);
    }
    params.Append(Text(Like.PatternFor(PatternOpOf(op), typed.value.text)));
    r := Ok([column, LikeTok, Placeholder, EscapeTok(Like.ESCAPE_CHAR)]);
  }
}
