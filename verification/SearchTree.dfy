/** Search predicates (persistence/search.py): the JSON request, its meaning, and the SQL emitted for it. */
module SearchTree {
  import opened Prelude
  import opened SearchSql
  import Like

  datatype Json =
    | JNull
    | JBool(b: bool)
    | JNumber(repr: string)
    | JText(s: string)
    | JList(items: seq<Json>)
    | JObject(fields: map<string, Json>)

  /** The searchable attributes: column name to YAML type name. */
  type Attributes = map<string, string>

  /** Value validation of the type adapters, left uninterpreted. */
  type Coerce = (string, Json) -> Option<Value>

  const TEXT_FAMILY: set<string> := {"string", "compact_text", "choice", "status", "text", "multiline_text"}
  const ORDERED_TYPES: set<string> := TEXT_FAMILY + {"integer", "float", "decimal", "datetime", "friendly_id"}
  const TEXT_TYPES: set<string> := TEXT_FAMILY + {"friendly_id"}
  const ADAPTER_TYPES: set<string> :=
    TEXT_FAMILY + {"friendly_id", "boolean", "integer", "float", "decimal", "uuid", "datetime"}

  /** An accepted predicate. `byteOrder` is set for text columns, compared under COLLATE "C". */
  datatype Tree =
    | All(children: seq<Tree>)
    | Any(children: seq<Tree>)
    | Negation(child: Tree)
    | Test(name: string, byteOrder: bool, op: CmpOp, value: Value)
    | Pattern(name: string, pattern: Like.PatternOp, text: string)
    | Regexp(name: string, text: string)
    | Null(name: string, negated: bool)

  // ---------- reading a request ----------

  predicate Known(op: string) {
    op in {"and", "or", "not", "eq", "ne", "gt", "gte", "lt", "lte", "empty", "not_empty",
           "contains", "starts_with", "ends_with", "regexp"}
  }

  function OrderOp(op: string): CmpOp {
    if op == "gt" then Gt else if op == "gte" then Ge else if op == "lt" then Lt else Le
  }

  function PatternOpOf(op: string): Like.PatternOp {
    if op == "contains" then Like.Contains else if op == "starts_with" then Like.StartsWith else Like.EndsWith
  }

  /** The operator of a node that is an object with a known `op`. */
  function OpOf(node: Json): Option<string> {
    if node.JObject? && "op" in node.fields && node.fields["op"].JText? && Known(node.fields["op"].s)
    then Some(node.fields["op"].s) else None
  }

  function AttributeOf(fields: map<string, Json>, attrs: Attributes): Option<string> {
    if "attribute" in fields && fields["attribute"].JText? && fields["attribute"].s != "" && fields["attribute"].s in attrs
    then Some(fields["attribute"].s) else None
  }

  function ValueOf(fields: map<string, Json>, typeName: string, coerce: Coerce): Option<Value> {
    if "value" in fields && !fields["value"].JNull? && typeName in ADAPTER_TYPES
    then coerce(typeName, fields["value"]) else None
  }

  /** Leaves: which requests are well formed and type-eligible, and what they ask. */
  function DecodeLeaf(op: string, fields: map<string, Json>, attrs: Attributes, coerce: Coerce): Option<Tree> {
    match AttributeOf(fields, attrs)
    case None => None
    case Some(name) =>
      var typeName := attrs[name];
      if op in {"empty", "not_empty"} then
        if fields.Keys <= {"op", "attribute"} then Some(Null(name, op == "not_empty")) else None
      else if !(fields.Keys <= {"op", "attribute", "value"}) then None
      else match ValueOf(fields, typeName, coerce)
        case None => None
        case Some(v) =>
          if op in {"eq", "ne"} then Some(Test(name, false, if op == "eq" then Eq else Ne, v))
          else if op in {"gt", "gte", "lt", "lte"} then
            if typeName in ORDERED_TYPES then Some(Test(name, typeName in TEXT_TYPES, OrderOp(op), v)) else None
          else if typeName in TEXT_TYPES && v.Text? then
            Some(if op == "regexp" then Regexp(name, v.text) else Pattern(name, PatternOpOf(op), v.text))
          else None
  }

  /** The predicate a request denotes, limits aside; `None` if it is malformed or ineligible. */
  function Decode(node: Json, attrs: Attributes, coerce: Coerce): Option<Tree>
    decreases node, 0
  {
    match OpOf(node)
    case None => None
    case Some(op) =>
      if op in {"and", "or"} then
        if node.fields.Keys <= {"op", "predicates"} && "predicates" in node.fields
           && node.fields["predicates"].JList? && node.fields["predicates"].items != [] then
          match DecodeAll(node.fields["predicates"].items, attrs, coerce)
          case None => None
          case Some(children) => Some(if op == "and" then All(children) else Any(children))
        else None
      else if op == "not" then
        if node.fields.Keys <= {"op", "predicate"} && "predicate" in node.fields then
          match Decode(node.fields["predicate"], attrs, coerce)
          case None => None
          case Some(child) => Some(Negation(child))
        else None
      else DecodeLeaf(op, node.fields, attrs, coerce)
  }

  function DecodeAll(items: seq<Json>, attrs: Attributes, coerce: Coerce): (r: Option<seq<Tree>>)
    ensures r.Some? ==> |r.value| == |items|
    decreases items, 1
  {
    if items == [] then Some([])
    else match DecodeAll(items[..|items| - 1], attrs, coerce)
      case None => None
      case Some(init) =>
        match Decode(items[|items| - 1], attrs, coerce)
        case None => None
        case Some(last) => Some(init + [last])
  }

  // ---------- sizes that the limits bound ----------

  function Max(a: nat, b: nat): nat { if a < b then b else a }

  function Depth(t: Tree): nat {
    match t
    case All(cs) => 1 + DepthAll(cs)
    case Any(cs) => 1 + DepthAll(cs)
    case Negation(c) => 1 + Depth(c)
    case _ => 1
  }
  function DepthAll(ts: seq<Tree>): nat {
    if ts == [] then 0 else Max(DepthAll(ts[..|ts| - 1]), Depth(ts[|ts| - 1]))
  }

  function Width(t: Tree): nat {
    match t
    case All(cs) => Max(|cs|, WidthAll(cs))
    case Any(cs) => Max(|cs|, WidthAll(cs))
    case Negation(c) => Width(c)
    case _ => 0
  }
  function WidthAll(ts: seq<Tree>): nat {
    if ts == [] then 0 else Max(WidthAll(ts[..|ts| - 1]), Width(ts[|ts| - 1]))
  }

  function Nodes(t: Tree): nat {
    match t
    case All(cs) => 1 + NodesAll(cs)
    case Any(cs) => 1 + NodesAll(cs)
    case Negation(c) => 1 + Nodes(c)
    case _ => 1
  }
  function NodesAll(ts: seq<Tree>): nat {
    if ts == [] then 0 else NodesAll(ts[..|ts| - 1]) + Nodes(ts[|ts| - 1])
  }

  function Regexps(t: Tree): nat {
    match t
    case All(cs) => RegexpsAll(cs)
    case Any(cs) => RegexpsAll(cs)
    case Negation(c) => Regexps(c)
    case Regexp(_, _) => 1
    case _ => 0
  }
  function RegexpsAll(ts: seq<Tree>): nat {
    if ts == [] then 0 else RegexpsAll(ts[..|ts| - 1]) + Regexps(ts[|ts| - 1])
  }

  // ---------- the emitted SQL ----------

  function Emit(t: Tree, q: bool): seq<Token> {
    match t
    case All(cs) => [LParen] + EmitAll(cs, AndTok, q) + [RParen]
    case Any(cs) => [LParen] + EmitAll(cs, OrTok, q) + [RParen]
    case Negation(c) => [NotTok, LParen] + Emit(c, q) + [RParen]
    case Test(n, byteOrder, op, _) =>
      [Column(q, n)] + (if byteOrder then [CollateC] else []) + [Cmp(op), Placeholder]
    case Pattern(n, _, _) => [Column(q, n), LikeTok, Placeholder, EscapeTok(Like.ESCAPE_CHAR)]
    case Regexp(n, _) => [Column(q, n), TildeTok, Placeholder]
    case Null(n, negated) => [Column(q, n), IsTok] + (if negated then [NotTok, NullTok] else [NullTok])
  }

  /** The parts joined by ` AND ` or ` OR `. */
  function EmitAll(ts: seq<Tree>, joiner: Token, q: bool): seq<Token> {
    if ts == [] then []
    else EmitAll(ts[..|ts| - 1], joiner, q) + (if |ts| == 1 then [] else [joiner]) + Emit(ts[|ts| - 1], q)
  }

  function Params(t: Tree): seq<Value> {
    match t
    case All(cs) => ParamsAll(cs)
    case Any(cs) => ParamsAll(cs)
    case Negation(c) => Params(c)
    case Test(_, _, _, v) => [v]
    case Pattern(_, p, text) => [Text(Like.PatternFor(p, text))]
    case Regexp(_, text) => [Text(text)]
    case Null(_, _) => []
  }
  function ParamsAll(ts: seq<Tree>): seq<Value> {
    if ts == [] then [] else ParamsAll(ts[..|ts| - 1]) + Params(ts[|ts| - 1])
  }

  // ---------- the meaning ----------

  /** Kleene conjunction and disjunction of any number of truth values, not folded. */
  ghost function EveryOf(ts: seq<Tri>): Tri {
    if F in ts then F else if U in ts then U else T
  }
  ghost function SomeOf(ts: seq<Tri>): Tri {
    if T in ts then T else if U in ts then U else F
  }

  /** What a predicate says of a row; a null column makes every test but `empty` unknown. */
  ghost function Meaning(engine: Engine, row: Row, t: Tree): Tri
    requires Names(t) <= row.Keys
  {
    match t
    case All(cs) => EveryOf(seq(|cs|, i requires 0 <= i < |cs| => ChildNames(cs, i); Meaning(engine, row, cs[i])))
    case Any(cs) => SomeOf(seq(|cs|, i requires 0 <= i < |cs| => ChildNames(cs, i); Meaning(engine, row, cs[i])))
    case Negation(c) => TriNot(Meaning(engine, row, c))
    case Null(n, negated) => Lift(row[n].None? != negated)
    case Test(n, byteOrder, op, v) =>
      if row[n].None? then U
      else if op == Eq then Lift(engine.equal(row[n].value, v))
      else if op == Ne then Lift(!engine.equal(row[n].value, v))
      else Lift(engine.compare(op, byteOrder, row[n].value, v))
    case Pattern(n, p, text) =>
      if row[n].None? || !row[n].value.Text? then U else Lift(Like.Holds(p, row[n].value.text, text))
    case Regexp(n, text) =>
      if row[n].None? then U else Lift(engine.regexp(row[n].value, Text(text)))
  }

  /** The columns a predicate reads. */
  function Names(t: Tree): set<string> {
    match t
    case All(cs) => NamesAll(cs)
    case Any(cs) => NamesAll(cs)
    case Negation(c) => Names(c)
    case Test(n, _, _, _) => {n}
    case Pattern(n, _, _) => {n}
    case Regexp(n, _) => {n}
    case Null(n, _) => {n}
  }
  function NamesAll(ts: seq<Tree>): set<string> {
    if ts == [] then {} else NamesAll(ts[..|ts| - 1]) + Names(ts[|ts| - 1])
  }

  lemma {:induction false} ChildNames(ts: seq<Tree>, i: nat)
    requires i < |ts|
    ensures Names(ts[i]) <= NamesAll(ts)
  {
    if i < |ts| - 1 {
      ChildNames(ts[..|ts| - 1], i);
    }
  }

  /** The truth values of the children. */
  ghost function MeaningAll(engine: Engine, row: Row, ts: seq<Tree>): (r: seq<Tri>)
    requires NamesAll(ts) <= row.Keys
    ensures |r| == |ts|
  {
    seq(|ts|, i requires 0 <= i < |ts| => ChildNames(ts, i); Meaning(engine, row, ts[i]))
  }

  lemma ListMeaning(engine: Engine, row: Row, ts: seq<Tree>)
    requires NamesAll(ts) <= row.Keys
    ensures Meaning(engine, row, All(ts)) == EveryOf(MeaningAll(engine, row, ts))
    ensures Meaning(engine, row, Any(ts)) == SomeOf(MeaningAll(engine, row, ts))
  {
  }

  /** Lists are never empty. */
  predicate Proper(t: Tree) {
    match t
    case All(cs) => cs != [] && forall i :: 0 <= i < |cs| ==> Proper(cs[i])
    case Any(cs) => cs != [] && forall i :: 0 <= i < |cs| ==> Proper(cs[i])
    case Negation(c) => Proper(c)
    case _ => true
  }

  /** Decoded predicates have non-empty lists and read only searchable attributes. */
  lemma {:induction false} DecodedProper(node: Json, attrs: Attributes, coerce: Coerce)
    requires Decode(node, attrs, coerce).Some?
    ensures Proper(Decode(node, attrs, coerce).value)
    ensures Names(Decode(node, attrs, coerce).value) <= attrs.Keys
    decreases node, 0
  {
    var op := OpOf(node).value;
    if op in {"and", "or"} {
      DecodedAllProper(node.fields["predicates"].items, attrs, coerce);
    } else if op == "not" {
      DecodedProper(node.fields["predicate"], attrs, coerce);
    }
  }

  lemma {:induction false} DecodedAllProper(items: seq<Json>, attrs: Attributes, coerce: Coerce)
    requires DecodeAll(items, attrs, coerce).Some?
    ensures forall i :: 0 <= i < |items| ==> Proper(DecodeAll(items, attrs, coerce).value[i])
    ensures NamesAll(DecodeAll(items, attrs, coerce).value) <= attrs.Keys
    decreases items, 1
  {
    if items != [] {
      var init, last := items[..|items| - 1], items[|items| - 1];
      DecodedAllProper(init, attrs, coerce);
      DecodedProper(last, attrs, coerce);
      var ts := DecodeAll(init, attrs, coerce).value;
      assert DecodeAll(items, attrs, coerce).value[..|items| - 1] == ts;
    }
  }
}
