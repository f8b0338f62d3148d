/** The emitted WHERE text means the predicate, for every accepted tree and every row. */
module SearchCorrect {
  import opened Prelude
  import opened SearchSql
  import opened SearchTree
  import Like

  // ---------- binding ----------

  /** The emitted tokens with the parameters in place. */
  function Bound(t: Tree, q: bool): seq<Token> {
    match t
    case All(cs) => [LParen] + BoundAll(cs, AndTok, q) + [RParen]
    case Any(cs) => [LParen] + BoundAll(cs, OrTok, q) + [RParen]
    case Negation(c) => [NotTok, LParen] + Bound(c, q) + [RParen]
    case Test(n, byteOrder, op, v) => [Column(q, n)] + (if byteOrder then [CollateC] else []) + [Cmp(op), Param(v)]
    case Pattern(n, p, text) => [Column(q, n), LikeTok, Param(Text(Like.PatternFor(p, text))), EscapeTok(Like.ESCAPE_CHAR)]
    case Regexp(n, text) => [Column(q, n), TildeTok, Param(Text(text))]
    case Null(n, negated) => [Column(q, n), IsTok] + (if negated then [NotTok, NullTok] else [NullTok])
  }

  function BoundAll(ts: seq<Tree>, joiner: Token, q: bool): seq<Token> {
    if ts == [] then []
    else BoundAll(ts[..|ts| - 1], joiner, q) + (if |ts| == 1 then [] else [joiner]) + Bound(ts[|ts| - 1], q)
  }

  lemma BindPlain(tokens: seq<Token>)
    requires forall i :: 0 <= i < |tokens| ==> !tokens[i].Placeholder?
    ensures Bind(tokens, []) == Some(tokens)
  {
    if tokens != [] {
      BindPlain(tokens[1..]);
      assert [tokens[0]] + tokens[1..] == tokens;
    }
  }

  lemma BindPlaceholder(v: Value)
    ensures Bind([Placeholder], [v]) == Some([Param(v)])
  {
    assert [Placeholder][1..] == [] && [v][1..] == [];
    assert [Param(v)] + [] == [Param(v)];
  }

  lemma BindLeaf(before: seq<Token>, v: Value, after: seq<Token>)
    requires forall i :: 0 <= i < |before| ==> !before[i].Placeholder?
    requires forall i :: 0 <= i < |after| ==> !after[i].Placeholder?
    ensures Bind(before + [Placeholder] + after, [v]) == Some(before + [Param(v)] + after)
  {
    BindPlain(before);
    BindPlaceholder(v);
    BindConcat(before, [], [Placeholder], [v]);
    assert [] + [v] == [v];
    BindPlain(after);
    BindConcat(before + [Placeholder], [v], after, []);
    assert [v] + [] == [v];
  }

  /** Wrapping in tokens that take no parameter. */
  lemma BindWrapped(before: seq<Token>, tokens: seq<Token>, params: seq<Value>, after: seq<Token>)
    requires Bind(tokens, params).Some?
    requires forall i :: 0 <= i < |before| ==> !before[i].Placeholder?
    requires forall i :: 0 <= i < |after| ==> !after[i].Placeholder?
    ensures Bind(before + tokens + after, params) == Some(before + Bind(tokens, params).value + after)
  {
    BindPlain(before);
    BindPlain(after);
    BindConcat(before, [], tokens, params);
    assert [] + params == params;
    BindConcat(before + tokens, params, after, []);
    assert params + [] == params;
  }

  /** Parameters are consumed from left to right, each by its own placeholder, and none is left. */
  lemma {:induction false} BindEmitted(t: Tree, q: bool)
    ensures Bind(Emit(t, q), Params(t)) == Some(Bound(t, q))
    decreases t, 0
  {
    match t {
      case All(cs) =>
        BindEmittedAll(cs, AndTok, q);
        BindWrapped([LParen], EmitAll(cs, AndTok, q), ParamsAll(cs), [RParen]);
      case Any(cs) =>
        BindEmittedAll(cs, OrTok, q);
        BindWrapped([LParen], EmitAll(cs, OrTok, q), ParamsAll(cs), [RParen]);
      case Negation(c) =>
        BindEmitted(c, q);
        BindWrapped([NotTok, LParen], Emit(c, q), Params(c), [RParen]);
      case Test(n, byteOrder, op, v) =>
        var before := [Column(q, n)] + (if byteOrder then [CollateC] else []) + [Cmp(op)];
        BindLeaf(before, v, []);
        assert before + [Placeholder] + [] == Emit(t, q);
        assert before + [Param(v)] + [] == Bound(t, q);
      case Pattern(n, p, text) =>
        var v := Text(Like.PatternFor(p, text));
        BindLeaf([Column(q, n), LikeTok], v, [EscapeTok(Like.ESCAPE_CHAR)]);
        assert [Column(q, n), LikeTok] + [Placeholder] + [EscapeTok(Like.ESCAPE_CHAR)] == Emit(t, q);
        assert [Column(q, n), LikeTok] + [Param(v)] + [EscapeTok(Like.ESCAPE_CHAR)] == Bound(t, q);
      case Regexp(n, text) =>
        BindLeaf([Column(q, n), TildeTok], Text(text), []);
        assert [Column(q, n), TildeTok] + [Placeholder] + [] == Emit(t, q);
        assert [Column(q, n), TildeTok] + [Param(Text(text))] + [] == Bound(t, q);
      case Null(_, _) =>
        BindPlain(Emit(t, q));
    }
  }

  lemma {:induction false} BindEmittedAll(ts: seq<Tree>, joiner: Token, q: bool)
    requires !joiner.Placeholder?
    ensures Bind(EmitAll(ts, joiner, q), ParamsAll(ts)) == Some(BoundAll(ts, joiner, q))
    decreases ts, 1
  {
    if ts != [] {
      var init, last := ts[..|ts| - 1], ts[|ts| - 1];
      var glue: seq<Token> := if |ts| == 1 then [] else [joiner];
      BindEmittedAll(init, joiner, q);
      BindEmitted(last, q);
      BindPlain(glue);
      BindConcat(EmitAll(init, joiner, q), ParamsAll(init), glue, []);
      assert ParamsAll(init) + [] == ParamsAll(init);
      BindConcat(EmitAll(init, joiner, q) + glue, ParamsAll(init), Emit(last, q), Params(last));
    }
  }

  // ---------- parsing ----------

  /** The expression that the text denotes: lists associate to the left. */
  function Ast(t: Tree, q: bool): Expr
    requires Proper(t)
    decreases t, 0
  {
    match t
    case All(cs) => AstAll(cs, true, q)
    case Any(cs) => AstAll(cs, false, q)
    case Negation(c) => Not(Ast(c, q))
    case Test(n, byteOrder, op, v) => Compare(q, n, byteOrder, op, v)
    case Pattern(n, p, text) => LikePattern(q, n, Text(Like.PatternFor(p, text)), Like.ESCAPE_CHAR)
    case Regexp(n, text) => Tilde(q, n, Text(text))
    case Null(n, negated) => IsNull(q, n, negated)
  }

  function AstAll(ts: seq<Tree>, conj: bool, q: bool): Expr
    requires ts != [] && forall i :: 0 <= i < |ts| ==> Proper(ts[i])
    decreases ts, 1
  {
    var last := Ast(ts[|ts| - 1], q);
    if |ts| == 1 then last
    else
      var init := AstAll(ts[..|ts| - 1], conj, q);
      if conj then And(init, last) else Or(init, last)
  }

  /** The tokens from child `i` on, each preceded by the joiner. */
  function Tail(ts: seq<Tree>, i: nat, joiner: Token, q: bool): seq<Token>
    requires i <= |ts|
    decreases |ts| - i
  {
    if i == |ts| then [] else [joiner] + Bound(ts[i], q) + Tail(ts, i + 1, joiner, q)
  }

  lemma {:induction false} BoundSplit(ts: seq<Tree>, i: nat, joiner: Token, q: bool)
    requires 1 <= i <= |ts|
    ensures BoundAll(ts, joiner, q) == BoundAll(ts[..i], joiner, q) + Tail(ts, i, joiner, q)
    decreases |ts| - i
  {
    if i == |ts| {
      assert ts[..i] == ts;
    } else {
      BoundSplit(ts, i + 1, joiner, q);
      assert ts[..i + 1][..i] == ts[..i];
      var a, b, c := BoundAll(ts[..i], joiner, q), Bound(ts[i], q), Tail(ts, i + 1, joiner, q);
      assert BoundAll(ts[..i + 1], joiner, q) == a + [joiner] + b;
      Regroup(a, [joiner], b, c);
      ConcatAssoc([joiner], b, c);
    }
  }

  lemma BoundHead(ts: seq<Tree>, joiner: Token, q: bool)
    requires ts != []
    ensures BoundAll(ts, joiner, q) == Bound(ts[0], q) + Tail(ts, 1, joiner, q)
  {
    BoundSplit(ts, 1, joiner, q);
    assert ts[..1][..0] == [];
    assert BoundAll(ts[..1], joiner, q) == Bound(ts[0], q);
  }

  /** What follows a complete operand: the end, a closing parenthesis, or the list's own joiner. */
  predicate Closes(rest: seq<Token>) {
    rest == [] || rest[0] == RParen
  }

  lemma AndStep(left: Expr, text: seq<Token>, ts: seq<Token>, e: Expr, rest: seq<Token>)
    requires text == [AndTok] + ts && ParseNot(ts) == Some((e, rest))
    ensures ParseAndRest(left, text) == ParseAndRest(And(left, e), rest)
  {
  }

  lemma AndAlone(ts: seq<Token>, e: Expr, rest: seq<Token>)
    requires ParseNot(ts) == Some((e, rest)) && (rest == [] || rest[0] != AndTok)
    ensures ParseAnd(ts) == Some((e, rest))
  {
  }

  lemma OrStep(left: Expr, text: seq<Token>, ts: seq<Token>, e: Expr, rest: seq<Token>)
    requires text == [OrTok] + ts && ParseNot(ts) == Some((e, rest)) && (rest == [] || rest[0] != AndTok)
    ensures ParseOrRest(left, text) == ParseOrRest(Or(left, e), rest)
  {
    assert text[1..] == ts;
    AndAlone(ts, e, rest);
  }

  /** A closed operand alone is a whole condition. */
  lemma ParseOperand(ts: seq<Token>, e: Expr, rest: seq<Token>)
    requires ParseNot(ts) == Some((e, rest)) && Closes(rest)
    ensures ParseOr(ts) == Some((e, rest))
  {
    AndAlone(ts, e, rest);
    assert ParseOrRest(e, rest) == Some((e, rest));
  }

  lemma ParseParens(inner: seq<Token>, e: Expr, rest: seq<Token>)
    requires ParseOr(inner) == Some((e, [RParen] + rest))
    ensures ParseNot([LParen] + inner) == Some((e, rest))
  {
  }

  lemma ParseNegation(ts: seq<Token>, e: Expr, rest: seq<Token>)
    requires ParseNot(ts) == Some((e, rest))
    ensures ParseNot([NotTok] + ts) == Some((Not(e), rest))
  {
  }

  lemma AstSnoc(ts: seq<Tree>, i: nat, conj: bool, q: bool)
    requires 1 <= i < |ts| && forall j :: 0 <= j < |ts| ==> Proper(ts[j])
    ensures AstAll(ts[..i + 1], conj, q) ==
            if conj then And(AstAll(ts[..i], conj, q), Ast(ts[i], q)) else Or(AstAll(ts[..i], conj, q), Ast(ts[i], q))
  {
    assert ts[..i + 1][..i] == ts[..i];
  }

  lemma TailStep(ts: seq<Tree>, i: nat, joiner: Token, q: bool, close: seq<Token>)
    requires i < |ts|
    ensures Tail(ts, i, joiner, q) + close == [joiner] + (Bound(ts[i], q) + (Tail(ts, i + 1, joiner, q) + close))
  {
    var b, c := Bound(ts[i], q), Tail(ts, i + 1, joiner, q);
    Regroup([joiner], b, c, close);
  }

  lemma NegationText(b: seq<Token>, rest: seq<Token>)
    ensures [NotTok, LParen] + b + [RParen] + rest == [NotTok] + ([LParen] + (b + ([RParen] + rest)))
  {
  }

  lemma Regroup(a: seq<Token>, b: seq<Token>, c: seq<Token>, d: seq<Token>)
    ensures a + b + c + d == a + (b + (c + d))
  {
  }

  /** Every emitted predicate is read back as one operand of NOT, AND or OR, whatever follows. */
  lemma {:induction false} ParseEmitted(t: Tree, q: bool, rest: seq<Token>)
    requires Proper(t)
    ensures ParseNot(Bound(t, q) + rest) == Some((Ast(t, q), rest))
    decreases t, 0
  {
    match t {
      case All(cs) =>
        ParseGroup(cs, true, q, rest);
        ParseParens(BoundAll(cs, AndTok, q) + ([RParen] + rest), AstAll(cs, true, q), rest);
        Regroup([LParen], BoundAll(cs, AndTok, q), [RParen], rest);
      case Any(cs) =>
        ParseGroup(cs, false, q, rest);
        ParseParens(BoundAll(cs, OrTok, q) + ([RParen] + rest), AstAll(cs, false, q), rest);
        Regroup([LParen], BoundAll(cs, OrTok, q), [RParen], rest);
      case Negation(c) =>
        var inner := Bound(c, q) + ([RParen] + rest);
        ParseEmitted(c, q, [RParen] + rest);
        ParseOperand(inner, Ast(c, q), [RParen] + rest);
        ParseParens(inner, Ast(c, q), rest);
        ParseNegation([LParen] + inner, Ast(c, q), rest);
        NegationText(Bound(c, q), rest);
      case Test(n, byteOrder, op, v) => ParseLeaf(t, q, rest);
      case Pattern(n, p, text) => ParseLeaf(t, q, rest);
      case Regexp(n, text) => ParseLeaf(t, q, rest);
      case Null(n, negated) => ParseLeaf(t, q, rest);
    }
  }

  lemma ParseLeaf(t: Tree, q: bool, rest: seq<Token>)
    requires t.Test? || t.Pattern? || t.Regexp? || t.Null?
    ensures ParseNot(Bound(t, q) + rest) == Some((Ast(t, q), rest))
  {
    var b := Bound(t, q);
    var ts := b + rest;
    assert ts[0] == b[0] && ts[1..] == b[1..] + rest;
    assert ts[1..][|b| - 1..] == rest;
  }

  /** The inside of a parenthesised list. */
  lemma {:induction false} ParseGroup(cs: seq<Tree>, conj: bool, q: bool, rest: seq<Token>)
    requires cs != [] && forall i :: 0 <= i < |cs| ==> Proper(cs[i])
    ensures ParseOr(BoundAll(cs, if conj then AndTok else OrTok, q) + ([RParen] + rest)) ==
            Some((AstAll(cs, conj, q), [RParen] + rest))
    decreases cs, 2
  {
    var joiner := if conj then AndTok else OrTok;
    var close := [RParen] + rest;
    var after := Tail(cs, 1, joiner, q) + close;
    BoundHead(cs, joiner, q);
    assert BoundAll(cs, joiner, q) + close == Bound(cs[0], q) + after;
    assert cs[0] in cs;
    ParseEmitted(cs[0], q, after);
    assert AstAll(cs[..1], conj, q) == Ast(cs[0], q);
    if conj {
      ParseConjuncts(cs, 1, Ast(cs[0], q), q, close);
      assert ParseOrRest(AstAll(cs, conj, q), close) == Some((AstAll(cs, conj, q), close));
    } else {
      TailStarts(cs, 1, OrTok, q, close);
      AndAlone(Bound(cs[0], q) + after, Ast(cs[0], q), after);
      ParseDisjuncts(cs, 1, Ast(cs[0], q), q, close);
    }
  }

  lemma TailStarts(cs: seq<Tree>, i: nat, joiner: Token, q: bool, close: seq<Token>)
    requires i <= |cs| && close != [] && close[0] == RParen
    ensures Tail(cs, i, joiner, q) + close != []
    ensures (Tail(cs, i, joiner, q) + close)[0] == if i < |cs| then joiner else RParen
  {
  }

  lemma LastCloses(cs: seq<Tree>, joiner: Token, q: bool, left: Expr, close: seq<Token>)
    requires close != [] && close[0] == RParen
    ensures ParseAndRest(left, Tail(cs, |cs|, joiner, q) + close) == Some((left, close))
    ensures ParseOrRest(left, Tail(cs, |cs|, joiner, q) + close) == Some((left, close))
  {
    assert Tail(cs, |cs|, joiner, q) + close == close;
  }

  /** One more operand of a conjunction. */
  lemma {:induction false} ParseConjunct(cs: seq<Tree>, i: nat, left: Expr, q: bool, close: seq<Token>)
    requires 1 <= i < |cs| && (forall j :: 0 <= j < |cs| ==> Proper(cs[j])) && close != [] && close[0] == RParen
    ensures ParseAndRest(left, Tail(cs, i, AndTok, q) + close) ==
            ParseAndRest(And(left, Ast(cs[i], q)), Tail(cs, i + 1, AndTok, q) + close)
    decreases cs, 1, 0
  {
    var after := Tail(cs, i + 1, AndTok, q) + close;
    TailStep(cs, i, AndTok, q, close);
    assert cs[i] in cs;
    ParseEmitted(cs[i], q, after);
    AndStep(left, Tail(cs, i, AndTok, q) + close, Bound(cs[i], q) + after, Ast(cs[i], q), after);
  }

  lemma {:induction false} ParseConjuncts(cs: seq<Tree>, i: nat, left: Expr, q: bool, close: seq<Token>)
    requires 1 <= i <= |cs| && (forall j :: 0 <= j < |cs| ==> Proper(cs[j]))
    requires left == AstAll(cs[..i], true, q) && close != [] && close[0] == RParen
    ensures ParseAndRest(left, Tail(cs, i, AndTok, q) + close) == Some((AstAll(cs, true, q), close))
    decreases cs, 1, |cs| - i
  {
    if i == |cs| {
      assert cs[..i] == cs;
      LastCloses(cs, AndTok, q, left, close);
    } else {
      ParseConjunct(cs, i, left, q, close);
      AstSnoc(cs, i, true, q);
      ParseConjuncts(cs, i + 1, And(left, Ast(cs[i], q)), q, close);
    }
  }

  /** One more operand of a disjunction. */
  lemma {:induction false} ParseDisjunct(cs: seq<Tree>, i: nat, left: Expr, q: bool, close: seq<Token>)
    requires 1 <= i < |cs| && (forall j :: 0 <= j < |cs| ==> Proper(cs[j])) && close != [] && close[0] == RParen
    ensures ParseOrRest(left, Tail(cs, i, OrTok, q) + close) ==
            ParseOrRest(Or(left, Ast(cs[i], q)), Tail(cs, i + 1, OrTok, q) + close)
    decreases cs, 1, 0
  {
    var after := Tail(cs, i + 1, OrTok, q) + close;
    TailStep(cs, i, OrTok, q, close);
    assert cs[i] in cs;
    ParseEmitted(cs[i], q, after);
    TailStarts(cs, i + 1, OrTok, q, close);
    OrStep(left, Tail(cs, i, OrTok, q) + close, Bound(cs[i], q) + after, Ast(cs[i], q), after);
  }

  lemma {:induction false} ParseDisjuncts(cs: seq<Tree>, i: nat, left: Expr, q: bool, close: seq<Token>)
    requires 1 <= i <= |cs| && (forall j :: 0 <= j < |cs| ==> Proper(cs[j]))
    requires left == AstAll(cs[..i], false, q) && close != [] && close[0] == RParen
    ensures ParseOrRest(left, Tail(cs, i, OrTok, q) + close) == Some((AstAll(cs, false, q), close))
    decreases cs, 1, |cs| - i
  {
    if i == |cs| {
      assert cs[..i] == cs;
      LastCloses(cs, OrTok, q, left, close);
    } else {
      ParseDisjunct(cs, i, left, q, close);
      AstSnoc(cs, i, false, q);
      ParseDisjuncts(cs, i + 1, Or(left, Ast(cs[i], q)), q, close);
    }
  }

  // ---------- evaluation ----------

  /** Every column of the predicate resolves. */
  ghost predicate Resolves(env: Env, q: bool, names: set<string>) {
    forall n :: n in names ==> Resolve(env, q, n).Some?
  }

  lemma MeaningSnoc(engine: Engine, row: Row, ts: seq<Tree>)
    requires ts != [] && NamesAll(ts) <= row.Keys
    ensures NamesAll(ts[..|ts| - 1]) <= row.Keys && Names(ts[|ts| - 1]) <= row.Keys
    ensures MeaningAll(engine, row, ts) ==
            MeaningAll(engine, row, ts[..|ts| - 1]) + [Meaning(engine, row, ts[|ts| - 1])]
  {
  }

  lemma EveryOfSnoc(ms: seq<Tri>, m: Tri)
    ensures EveryOf(ms + [m]) == TriAnd(EveryOf(ms), m)
  {
  }

  lemma SomeOfSnoc(ms: seq<Tri>, m: Tri)
    ensures SomeOf(ms + [m]) == TriOr(SomeOf(ms), m)
  {
  }

  /** The parsed text has the tree's truth value when its columns resolve, and no value when one does not. */
  lemma {:induction false} EvalAst(engine: Engine, env: Env, t: Tree, q: bool)
    requires Proper(t) && Names(t) <= env.src.Keys
    ensures Eval(engine, env, Ast(t, q)) ==
            if Resolves(env, q, Names(t)) then Some(Meaning(engine, env.src, t)) else None
    decreases t, 0
  {
    match t {
      case All(cs) =>
        EvalAstAll(engine, env, cs, true, q);
        ListMeaning(engine, env.src, cs);
      case Any(cs) =>
        EvalAstAll(engine, env, cs, false, q);
        ListMeaning(engine, env.src, cs);
      case Negation(c) =>
        EvalAst(engine, env, c, q);
      case Test(n, byteOrder, op, v) =>
        assert n in Names(t);
      case Pattern(n, p, text) =>
        assert n in Names(t);
        if env.src[n].Some? && env.src[n].value.Text? {
          Like.PatternCorrect(p, env.src[n].value.text, text);
        }
      case Regexp(n, text) =>
        assert n in Names(t);
      case Null(n, negated) =>
        assert n in Names(t);
    }
  }

  lemma {:induction false} EvalAstAll(engine: Engine, env: Env, ts: seq<Tree>, conj: bool, q: bool)
    requires ts != [] && (forall i :: 0 <= i < |ts| ==> Proper(ts[i])) && NamesAll(ts) <= env.src.Keys
    ensures var ms := MeaningAll(engine, env.src, ts);
            Eval(engine, env, AstAll(ts, conj, q)) ==
            if Resolves(env, q, NamesAll(ts)) then Some(if conj then EveryOf(ms) else SomeOf(ms)) else None
    decreases ts, 1
  {
    var init, last := ts[..|ts| - 1], ts[|ts| - 1];
    MeaningSnoc(engine, env.src, ts);
    EvalAst(engine, env, last, q);
    var m := Meaning(engine, env.src, last);
    EveryOfSnoc(MeaningAll(engine, env.src, init), m);
    SomeOfSnoc(MeaningAll(engine, env.src, init), m);
    if |ts| == 1 {
      assert NamesAll(ts) == Names(last);
      assert MeaningAll(engine, env.src, init) == [];
    } else {
      EvalAstAll(engine, env, init, conj, q);
      assert Resolves(env, q, NamesAll(ts)) <==> Resolves(env, q, NamesAll(init)) && Resolves(env, q, Names(last));
    }
  }

  /**
   The compiled condition, bound and parsed by the server, has the predicate's truth value on every row;
   it is an error exactly when a column reference does not resolve.
   */
  lemma CompiledMeansTree(engine: Engine, env: Env, t: Tree, q: bool)
    requires Proper(t) && Names(t) <= env.src.Keys
    ensures Where(engine, env, Emit(t, q), Params(t)) ==
            if Resolves(env, q, Names(t)) then Some(Meaning(engine, env.src, t)) else None
  {
    BindEmitted(t, q);
    ParseEmitted(t, q, []);
    assert Bound(t, q) + [] == Bound(t, q);
    ParseOperand(Bound(t, q), Ast(t, q), []);
    EvalAst(engine, env, t, q);
  }

  /** COUNT without joins and SELECT with joins filter alike, whatever the joined tables contain. */
  lemma CountAndSelectAgree(engine: Engine, row: Row, joined: seq<Row>, node: Json, attrs: Attributes, coerce: Coerce)
    requires Decode(node, attrs, coerce).Some? && attrs.Keys <= row.Keys
    ensures var t := Decode(node, attrs, coerce).value;
            Names(t) <= row.Keys
            && Where(engine, Env(row, []), Emit(t, false), Params(t)) == Some(Meaning(engine, row, t))
            && Where(engine, Env(row, joined), Emit(t, true), Params(t)) == Some(Meaning(engine, row, t))
  {
    DecodedProper(node, attrs, coerce);
    var t := Decode(node, attrs, coerce).value;
    CompiledMeansTree(engine, Env(row, []), t, false);
    CompiledMeansTree(engine, Env(row, joined), t, true);
  }

  /** Without the qualifier a join would make the condition ambiguous exactly when it brings a column of that name. */
  lemma QualifierNeeded(engine: Engine, row: Row, joined: seq<Row>, t: Tree)
    requires Proper(t) && Names(t) <= row.Keys
    ensures Where(engine, Env(row, joined), Emit(t, false), Params(t)).None? <==>
            exists r, n :: r in joined && n in Names(t) && n in r
  {
    CompiledMeansTree(engine, Env(row, joined), t, false);
    if r, n :| r in joined && n in Names(t) && n in r {
      assert Resolve(Env(row, joined), false, n).None?;
    }
  }
}
