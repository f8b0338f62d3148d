/**
 The slice of SQL that searches use: tokens with placeholders, left-to-right binding, the boolean
 grammar with NOT binding tighter than AND and AND tighter than OR, and three-valued evaluation
 (section 8.12 of SQL-92).
 */
module SearchSql {
  import opened Prelude
  import Like

  /** A non-null column value or parameter: text, or anything else the driver passes. */
  datatype Value = Text(text: string) | Scalar(repr: string)

  datatype CmpOp = Eq | Ne | Gt | Ge | Lt | Le

  /** Comparison and regular expressions of the database, left uninterpreted. */
  datatype Engine = Engine(equal: (Value, Value) -> bool,
                           compare: (CmpOp, bool, Value, Value) -> bool,  // the flag: under COLLATE "C"
                           regexp: (Value, Value) -> bool)

  datatype Token =
    | LParen | RParen | AndTok | OrTok | NotTok | TrueTok
    | Column(qualified: bool, name: string)   // "name" or "src"."name"
    | CollateC
    | Cmp(op: CmpOp)
    | LikeTok | EscapeTok(c: char) | TildeTok
    | IsTok | NullTok
    | Placeholder
    | Param(value: Value)

  // ---------- parameters ----------

  /** The driver puts parameters for placeholders from left to right; the counts must agree. */
  function Bind(tokens: seq<Token>, params: seq<Value>): Option<seq<Token>> {
    if tokens == [] then (if params == [] then Some([]) else None)
    else if tokens[0].Placeholder? then
      if params == [] then None
      else match Bind(tokens[1..], params[1..])
        case None => None
        case Some(rest) => Some([Param(params[0])] + rest)
    else match Bind(tokens[1..], params)
      case None => None
      case Some(rest) => Some([tokens[0]] + rest)
  }

  lemma {:induction false} BindConcat(a: seq<Token>, p: seq<Value>, b: seq<Token>, q: seq<Value>)
    requires Bind(a, p).Some? && Bind(b, q).Some?
    ensures Bind(a + b, p + q) == Some(Bind(a, p).value + Bind(b, q).value)
  {
    if a == [] {
      assert a + b == b && p + q == q;
      assert Bind(a, p).value + Bind(b, q).value == Bind(b, q).value;
    } else {
      assert (a + b)[1..] == a[1..] + b && (a + b)[0] == a[0];
      var p' := if a[0].Placeholder? then p[1..] else p;
      var head := if a[0].Placeholder? then [Param(p[0])] else [a[0]];
      assert a[0].Placeholder? ==> (p + q)[1..] == p[1..] + q && (p + q)[0] == p[0];
      BindConcat(a[1..], p', b, q);
      assert head + (Bind(a[1..], p').value + Bind(b, q).value) == head + Bind(a[1..], p').value + Bind(b, q).value;
    }
  }

  // ---------- grammar ----------

  datatype Expr =
    | True
    | Or(left: Expr, right: Expr)
    | And(left: Expr, right: Expr)
    | Not(inner: Expr)
    | Compare(qualified: bool, name: string, collateC: bool, op: CmpOp, value: Value)
    | IsNull(qualified: bool, name: string, negated: bool)
    | LikePattern(qualified: bool, name: string, pattern: Value, escape: char)
    | Tilde(qualified: bool, name: string, value: Value)

  type Parsed = Option<(Expr, seq<Token>)>

  /** What may follow a column reference. */
  function ParseTest(column: Token, rest: seq<Token>): (r: Parsed)
    requires column.Column?
    ensures r.Some? ==> |r.value.1| < |rest|
  {
    var q, n := column.qualified, column.name;
    if |rest| >= 3 && rest[0] == CollateC && rest[1].Cmp? && rest[2].Param? then
      Some((Compare(q, n, true, rest[1].op, rest[2].value), rest[3..]))
    else if |rest| >= 2 && rest[0].Cmp? && rest[1].Param? then
      Some((Compare(q, n, false, rest[0].op, rest[1].value), rest[2..]))
    else if |rest| >= 3 && rest[0] == LikeTok && rest[1].Param? && rest[2].EscapeTok? then
      Some((LikePattern(q, n, rest[1].value, rest[2].c), rest[3..]))
    else if |rest| >= 2 && rest[0] == LikeTok && rest[1].Param? then
      Some((LikePattern(q, n, rest[1].value, Like.ESCAPE_CHAR), rest[2..]))
    else if |rest| >= 2 && rest[0] == TildeTok && rest[1].Param? then
      Some((Tilde(q, n, rest[1].value), rest[2..]))
    else if |rest| >= 3 && rest[0] == IsTok && rest[1] == NotTok && rest[2] == NullTok then
      Some((IsNull(q, n, true), rest[3..]))
    else if |rest| >= 2 && rest[0] == IsTok && rest[1] == NullTok then
      Some((IsNull(q, n, false), rest[2..]))
    else None
  }

  function ParsePrimary(ts: seq<Token>): (r: Parsed)
    ensures r.Some? ==> |r.value.1| < |ts|
    decreases |ts|, 0
  {
    if ts == [] then None
    else match ts[0]
      case TrueTok => Some((True, ts[1..]))
      case Column(_, _) => ParseTest(ts[0], ts[1..])
      case LParen =>
        (match ParseOr(ts[1..])
         case Some((e, rest)) => if rest != [] && rest[0] == RParen then Some((e, rest[1..])) else None
         case None => None)
      case _ => None
  }

  function ParseNot(ts: seq<Token>): (r: Parsed)
    ensures r.Some? ==> |r.value.1| < |ts|
    decreases |ts|, 1
  {
    if ts != [] && ts[0] == NotTok then
      match ParseNot(ts[1..])
      case Some((e, rest)) => Some((Not(e), rest))
      case None => None
    else ParsePrimary(ts)
  }

  function ParseAnd(ts: seq<Token>): (r: Parsed)
    ensures r.Some? ==> |r.value.1| < |ts|
    decreases |ts|, 3
  {
    match ParseNot(ts)
    case Some((e, rest)) => ParseAndRest(e, rest)
    case None => None
  }

  function ParseAndRest(left: Expr, ts: seq<Token>): (r: Parsed)
    ensures r.Some? ==> |r.value.1| <= |ts|
    decreases |ts|, 2
  {
    if ts != [] && ts[0] == AndTok then
      match ParseNot(ts[1..])
      case Some((e, rest)) => ParseAndRest(And(left, e), rest)
      case None => None
    else Some((left, ts))
  }

  function ParseOr(ts: seq<Token>): (r: Parsed)
    ensures r.Some? ==> |r.value.1| < |ts|
    decreases |ts|, 5
  {
    match ParseAnd(ts)
    case Some((e, rest)) => ParseOrRest(e, rest)
    case None => None
  }

  function ParseOrRest(left: Expr, ts: seq<Token>): (r: Parsed)
    ensures r.Some? ==> |r.value.1| <= |ts|
    decreases |ts|, 4
  {
    if ts != [] && ts[0] == OrTok then
      match ParseAnd(ts[1..])
      case Some((e, rest)) => ParseOrRest(Or(left, e), rest)
      case None => None
    else Some((left, ts))
  }

  /** A whole WHERE condition. */
  function Parse(ts: seq<Token>): Option<Expr> {
    match ParseOr(ts)
    case Some((e, rest)) => if rest == [] then Some(e) else None
    case None => None
  }

  // ---------- evaluation ----------

  /** A row of one table: its columns, null or not. */
  type Row = map<string, Option<Value>>

  function Cell(row: Row, name: string): Option<Value> {
    if name in row then row[name] else None
  }

  /** The row of the searched table (alias `src`) and the rows joined to it. */
  datatype Env = Env(src: Row, joined: seq<Row>)

  /** An unqualified name must be a column of the searched table alone, else the server calls it ambiguous. */
  function Resolve(env: Env, qualified: bool, name: string): Option<Option<Value>> {
    if name in env.src && (qualified || forall r :: r in env.joined ==> name !in r) then Some(env.src[name]) else None
  }

  datatype Tri = T | F | U

  function Lift(b: bool): Tri { if b then T else F }

  function TriNot(a: Tri): Tri {
    match a case T => F case F => T case U => U
  }

  function TriAnd(a: Tri, b: Tri): Tri {
    if a == F || b == F then F else if a == T && b == T then T else U
  }

  function TriOr(a: Tri, b: Tri): Tri {
    if a == T || b == T then T else if a == F && b == F then F else U
  }

  function EvalCompare(engine: Engine, collateC: bool, op: CmpOp, a: Option<Value>, b: Value): Tri {
    match a
    case None => U
    case Some(v) =>
      match op
      case Eq => Lift(engine.equal(v, b))
      case Ne => Lift(!engine.equal(v, b))
      case _ => Lift(engine.compare(op, collateC, v, b))
  }

  function EvalLike(a: Option<Value>, pattern: Value, escape: char): Tri {
    match a
    case Some(Text(s)) => if pattern.Text? then Lift(Like.Matches(s, pattern.text, escape)) else U
    case _ => U
  }

  /** `None` when a column reference does not resolve. */
  function Eval(engine: Engine, env: Env, e: Expr): Option<Tri> {
    match e
    case True => Some(T)
    case Or(l, r) =>
      var a, b := Eval(engine, env, l), Eval(engine, env, r);
      if a.Some? && b.Some? then Some(TriOr(a.value, b.value)) else None
    case And(l, r) =>
      var a, b := Eval(engine, env, l), Eval(engine, env, r);
      if a.Some? && b.Some? then Some(TriAnd(a.value, b.value)) else None
    case Not(x) =>
      var a := Eval(engine, env, x);
      if a.Some? then Some(TriNot(a.value)) else None
    case Compare(q, n, collateC, op, v) =>
      (match Resolve(env, q, n) case None => None case Some(c) => Some(EvalCompare(engine, collateC, op, c, v)))
    case IsNull(q, n, negated) =>
      (match Resolve(env, q, n) case None => None case Some(c) => Some(Lift(c.None? != negated)))
    case LikePattern(q, n, p, escape) =>
      (match Resolve(env, q, n) case None => None case Some(c) => Some(EvalLike(c, p, escape)))
    case Tilde(q, n, v) =>
      (match Resolve(env, q, n)
       case None => None
       case Some(None) => Some(U)
       case Some(Some(x)) => Some(Lift(engine.regexp(x, v))))
  }

  /** Bind, parse and evaluate a WHERE condition. */
  function Where(engine: Engine, env: Env, tokens: seq<Token>, params: seq<Value>): Option<Tri> {
    match Bind(tokens, params)
    case None => None
    case Some(bound) =>
      match Parse(bound)
      case None => None
      case Some(e) => Eval(engine, env, e)
  }
}
