/** What a JSON search request says, read off the request itself (the operators of persistence/search.py). */
module SearchRequest {
  import opened Prelude
  import opened SearchSql
  import opened SearchTree
  import Like

  // ---------- which requests are understood ----------

  predicate Textual(typeName: string) {
    typeName in {"string", "compact_text", "choice", "status", "text", "multiline_text", "friendly_id"}
  }

  predicate Orderable(typeName: string) {
    Textual(typeName) || typeName in {"integer", "float", "decimal", "datetime"}
  }

  /** The node is an object whose operator is `op`. */
  predicate IsOp(node: Json, op: string) {
    node.JObject? && "op" in node.fields && node.fields["op"] == JText(op)
  }

  /** A leaf names a searchable attribute. */
  predicate NamesAttribute(node: Json, attrs: Attributes) {
    node.JObject? && "attribute" in node.fields && node.fields["attribute"].JText?
    && node.fields["attribute"].s != "" && node.fields["attribute"].s in attrs
  }

  /** A leaf carries a value that its attribute's type accepts. */
  predicate CarriesValue(node: Json, attrs: Attributes, coerce: Coerce)
    requires NamesAttribute(node, attrs)
  {
    var typeName := attrs[node.fields["attribute"].s];
    && "value" in node.fields && node.fields["value"] != JNull
    && (Orderable(typeName) || typeName == "boolean" || typeName == "uuid")
    && coerce(typeName, node.fields["value"]).Some?
  }

  predicate ReadableLeaf(node: Json, attrs: Attributes, coerce: Coerce) {
    && NamesAttribute(node, attrs)
    && var typeName := attrs[node.fields["attribute"].s];
       if IsOp(node, "empty") || IsOp(node, "not_empty") then node.fields.Keys <= {"op", "attribute"}
       else
         && node.fields.Keys <= {"op", "attribute", "value"} && CarriesValue(node, attrs, coerce)
         && var value := coerce(typeName, node.fields["value"]).value;
            || IsOp(node, "eq") || IsOp(node, "ne")
            || ((IsOp(node, "gt") || IsOp(node, "gte") || IsOp(node, "lt") || IsOp(node, "lte")) && Orderable(typeName))
            || ((IsOp(node, "contains") || IsOp(node, "starts_with") || IsOp(node, "ends_with") || IsOp(node, "regexp"))
                && Textual(typeName) && value.Text?)
  }

  /** The children of an `and` or `or`. */
  predicate HasChildren(node: Json) {
    node.JObject? && node.fields.Keys <= {"op", "predicates"}
    && "predicates" in node.fields && node.fields["predicates"].JList? && node.fields["predicates"].items != []
  }

  predicate HasChild(node: Json) {
    node.JObject? && node.fields.Keys <= {"op", "predicate"} && "predicate" in node.fields
  }

  ghost predicate Readable(node: Json, attrs: Attributes, coerce: Coerce)
    decreases node
  {
    if IsOp(node, "and") || IsOp(node, "or") then
      HasChildren(node) && forall i :: 0 <= i < |node.fields["predicates"].items| ==>
                                         Readable(node.fields["predicates"].items[i], attrs, coerce)
    else if IsOp(node, "not") then HasChild(node) && Readable(node.fields["predicate"], attrs, coerce)
    else ReadableLeaf(node, attrs, coerce)
  }

  // ---------- what an understood request says of a row ----------

  /** `part` stands in `whole` at position `k`. */
  predicate StandsAt(whole: string, part: string, k: int) {
    0 <= k && k + |part| <= |whole| && whole[k..k + |part|] == part
  }

  /** A test with a value, on a row whose cell is not null. */
  ghost predicate HoldsFor(engine: Engine, cell: Value, node: Json, typeName: string, value: Value) {
    if IsOp(node, "eq") then engine.equal(cell, value)
    else if IsOp(node, "ne") then !engine.equal(cell, value)
    else if IsOp(node, "gt") then engine.compare(Gt, Textual(typeName), cell, value)
    else if IsOp(node, "gte") then engine.compare(Ge, Textual(typeName), cell, value)
    else if IsOp(node, "lt") then engine.compare(Lt, Textual(typeName), cell, value)
    else if IsOp(node, "lte") then engine.compare(Le, Textual(typeName), cell, value)
    else if IsOp(node, "regexp") then engine.regexp(cell, value)
    else
      && cell.Text? && value.Text?
      && if IsOp(node, "contains") then exists k :: StandsAt(cell.text, value.text, k)
         else if IsOp(node, "starts_with") then StandsAt(cell.text, value.text, 0)
         else StandsAt(cell.text, value.text, |cell.text| - |value.text|)
  }

  /** LIKE on anything but text has no truth value. */
  predicate Comparable(cell: Value, node: Json) {
    (IsOp(node, "contains") || IsOp(node, "starts_with") || IsOp(node, "ends_with")) ==> cell.Text?
  }

  ghost function SaysLeaf(engine: Engine, row: Row, node: Json, attrs: Attributes, coerce: Coerce): Tri
    requires ReadableLeaf(node, attrs, coerce) && attrs.Keys <= row.Keys
  {
    var name := node.fields["attribute"].s;
    var cell := row[name];
    if IsOp(node, "empty") then (if cell.None? then T else F)
    else if IsOp(node, "not_empty") then (if cell.None? then F else T)
    else if cell.None? || !Comparable(cell.value, node) then U
    else if HoldsFor(engine, cell.value, node, attrs[name], coerce(attrs[name], node.fields["value"]).value) then T
    else F
  }

  /** True, false or unknown: `and` is false once a child is, `or` is true once a child is, `not` swaps the two. */
  ghost function Says(engine: Engine, row: Row, node: Json, attrs: Attributes, coerce: Coerce): Tri
    requires Readable(node, attrs, coerce) && attrs.Keys <= row.Keys
    decreases node
  {
    if IsOp(node, "and") then
      var items := node.fields["predicates"].items;
      if exists i :: 0 <= i < |items| && Says(engine, row, items[i], attrs, coerce) == F then F
      else if forall i :: 0 <= i < |items| ==> Says(engine, row, items[i], attrs, coerce) == T then T else U
    else if IsOp(node, "or") then
      var items := node.fields["predicates"].items;
      if exists i :: 0 <= i < |items| && Says(engine, row, items[i], attrs, coerce) == T then T
      else if forall i :: 0 <= i < |items| ==> Says(engine, row, items[i], attrs, coerce) == F then F else U
    else if IsOp(node, "not") then
      match Says(engine, row, node.fields["predicate"], attrs, coerce)
      case T => F
      case F => T
      case U => U
    else SaysLeaf(engine, row, node, attrs, coerce)
  }

  /**
   The properties that each operator needs are there and no others; what they hold is another matter, except
   that lists must have children.
   */
  ghost predicate Shaped(node: Json)
    decreases node
  {
    && node.JObject? && "op" in node.fields
    && (IsOp(node, "and") || IsOp(node, "or") ==>
          HasChildren(node) && forall i :: 0 <= i < |node.fields["predicates"].items| ==> Shaped(node.fields["predicates"].items[i]))
    && (IsOp(node, "not") ==> HasChild(node) && Shaped(node.fields["predicate"]))
    && (IsOp(node, "empty") || IsOp(node, "not_empty") ==> node.fields.Keys == {"op", "attribute"})
    && (IsOp(node, "eq") || IsOp(node, "ne") || IsOp(node, "gt") || IsOp(node, "gte") || IsOp(node, "lt") || IsOp(node, "lte")
        || IsOp(node, "contains") || IsOp(node, "starts_with") || IsOp(node, "ends_with") || IsOp(node, "regexp") ==>
          node.fields.Keys == {"op", "attribute", "value"})
  }

  // ---------- sizes of a request ----------

  /** No node is nested deeper than `n`. */
  ghost predicate DepthWithin(node: Json, n: int)
    decreases node, 0
  {
    && n >= 1
    && (HasChildren(node) && (IsOp(node, "and") || IsOp(node, "or")) ==> DepthsWithin(node.fields["predicates"].items, n - 1))
    && (HasChild(node) && IsOp(node, "not") ==> DepthWithin(node.fields["predicate"], n - 1))
  }

  ghost predicate DepthsWithin(items: seq<Json>, n: int)
    decreases items, 1
  {
    forall i :: 0 <= i < |items| ==> DepthWithin(items[i], n)
  }

  /** No list is longer than `n`. */
  ghost predicate ListsWithin(node: Json, n: int)
    decreases node
  {
    && (HasChildren(node) && (IsOp(node, "and") || IsOp(node, "or")) ==>
          && |node.fields["predicates"].items| <= n
          && forall i :: 0 <= i < |node.fields["predicates"].items| ==> ListsWithin(node.fields["predicates"].items[i], n))
    && (HasChild(node) && IsOp(node, "not") ==> ListsWithin(node.fields["predicate"], n))
  }

  /** How many nodes there are, or how many with the operator `op`. */
  function Count(node: Json, op: Option<string>): nat
    decreases node, 0
  {
    (if op.None? || IsOp(node, op.value) then 1 else 0)
    + (if HasChildren(node) && (IsOp(node, "and") || IsOp(node, "or")) then CountAll(node.fields["predicates"].items, op) else 0)
    + if HasChild(node) && IsOp(node, "not") then Count(node.fields["predicate"], op) else 0
  }

  function CountAll(items: seq<Json>, op: Option<string>): nat
    decreases items, 1
  {
    if items == [] then 0 else CountAll(items[..|items| - 1], op) + Count(items[|items| - 1], op)
  }

  // ---------- reading a request is faithful ----------

  lemma {:induction false} ReadableExactly(node: Json, attrs: Attributes, coerce: Coerce)
    ensures Decode(node, attrs, coerce).Some? <==> Readable(node, attrs, coerce)
    decreases node, 0
  {
    if IsOp(node, "and") || IsOp(node, "or") {
      if HasChildren(node) {
        AllReadable(node.fields["predicates"].items, attrs, coerce);
      }
    } else if IsOp(node, "not") {
      if HasChild(node) {
        ReadableExactly(node.fields["predicate"], attrs, coerce);
      }
    } else {
      LeafReadable(node, attrs, coerce);
    }
  }

  lemma LeafReadable(node: Json, attrs: Attributes, coerce: Coerce)
    requires !IsOp(node, "and") && !IsOp(node, "or") && !IsOp(node, "not")
    ensures Decode(node, attrs, coerce).Some? <==> ReadableLeaf(node, attrs, coerce)
    ensures ReadableLeaf(node, attrs, coerce) ==>
              OpOf(node).Some? && Decode(node, attrs, coerce) == DecodeLeaf(OpOf(node).value, node.fields, attrs, coerce)
  {
  }

  lemma {:induction false} AllReadable(items: seq<Json>, attrs: Attributes, coerce: Coerce)
    ensures DecodeAll(items, attrs, coerce).Some? <==> forall i :: 0 <= i < |items| ==> Readable(items[i], attrs, coerce)
    ensures DecodeAll(items, attrs, coerce).Some? ==>
              forall i :: 0 <= i < |items| ==>
                            Decode(items[i], attrs, coerce) == Some(DecodeAll(items, attrs, coerce).value[i])
    decreases items, 1
  {
    if items != [] {
      var init, last := items[..|items| - 1], items[|items| - 1];
      AllReadable(init, attrs, coerce);
      ReadableExactly(last, attrs, coerce);
      assert items == init + [last];
      assert forall i :: 0 <= i < |init| ==> items[i] == init[i];
    }
  }

  lemma PatternMeans(p: Like.PatternOp, s: string, v: string)
    ensures Like.Holds(p, s, v) <==>
            match p
            case Contains => exists k :: StandsAt(s, v, k)
            case StartsWith => StandsAt(s, v, 0)
            case EndsWith => StandsAt(s, v, |s| - |v|)
  {
    forall k ensures Like.OccursAt(s, v, k) <==> StandsAt(s, v, k) {
    }
  }

  /** The tree of a leaf, operator by operator. */
  lemma LeafTree(node: Json, attrs: Attributes, coerce: Coerce)
    requires !IsOp(node, "and") && !IsOp(node, "or") && !IsOp(node, "not") && ReadableLeaf(node, attrs, coerce)
    ensures Decode(node, attrs, coerce).Some?
    ensures var t, name := Decode(node, attrs, coerce).value, node.fields["attribute"].s;
            if IsOp(node, "empty") || IsOp(node, "not_empty") then t == Null(name, IsOp(node, "not_empty"))
            else
              var v := coerce(attrs[name], node.fields["value"]).value;
              if IsOp(node, "eq") then t == Test(name, false, Eq, v)
              else if IsOp(node, "ne") then t == Test(name, false, Ne, v)
              else if IsOp(node, "gt") then t == Test(name, Textual(attrs[name]), Gt, v)
              else if IsOp(node, "gte") then t == Test(name, Textual(attrs[name]), Ge, v)
              else if IsOp(node, "lt") then t == Test(name, Textual(attrs[name]), Lt, v)
              else if IsOp(node, "lte") then t == Test(name, Textual(attrs[name]), Le, v)
              else v.Text? && if IsOp(node, "regexp") then t == Regexp(name, v.text)
                              else if IsOp(node, "contains") then t == Pattern(name, Like.Contains, v.text)
                              else if IsOp(node, "starts_with") then t == Pattern(name, Like.StartsWith, v.text)
                              else IsOp(node, "ends_with") && t == Pattern(name, Like.EndsWith, v.text)
  {
    LeafReadable(node, attrs, coerce);
  }

  lemma PatternLeafMeans(engine: Engine, row: Row, node: Json, attrs: Attributes, coerce: Coerce, p: Like.PatternOp)
    requires ReadableLeaf(node, attrs, coerce) && attrs.Keys <= row.Keys
    requires IsOp(node, match p case Contains => "contains" case StartsWith => "starts_with" case EndsWith => "ends_with")
    ensures var name := node.fields["attribute"].s;
            var v := coerce(attrs[name], node.fields["value"]).value;
            v.Text? && Meaning(engine, row, Pattern(name, p, v.text)) == SaysLeaf(engine, row, node, attrs, coerce)
  {
    var cell := row[node.fields["attribute"].s];
    if cell.Some? && cell.value.Text? {
      PatternMeans(p, cell.value.text, coerce(attrs[node.fields["attribute"].s], node.fields["value"]).value.text);
    }
  }

  lemma OtherLeafMeans(engine: Engine, row: Row, node: Json, attrs: Attributes, coerce: Coerce)
    requires ReadableLeaf(node, attrs, coerce) && attrs.Keys <= row.Keys
    ensures var name := node.fields["attribute"].s;
            && (IsOp(node, "empty") || IsOp(node, "not_empty") ==>
                  Meaning(engine, row, Null(name, IsOp(node, "not_empty"))) == SaysLeaf(engine, row, node, attrs, coerce))
            && (IsOp(node, "regexp") ==>
                  var v := coerce(attrs[name], node.fields["value"]).value;
                  v.Text? && Meaning(engine, row, Regexp(name, v.text)) == SaysLeaf(engine, row, node, attrs, coerce))
  {
  }

  function CmpOpOf(node: Json): CmpOp {
    if IsOp(node, "eq") then Eq else if IsOp(node, "ne") then Ne else if IsOp(node, "gt") then Gt
    else if IsOp(node, "gte") then Ge else if IsOp(node, "lt") then Lt else Le
  }

  function OpText(op: CmpOp): string {
    match op
    case Eq => "eq"
    case Ne => "ne"
    case Gt => "gt"
    case Ge => "gte"
    case Lt => "lt"
    case Le => "lte"
  }

  lemma ComparisonMeans(engine: Engine, row: Row, node: Json, attrs: Attributes, coerce: Coerce, op: CmpOp)
    requires ReadableLeaf(node, attrs, coerce) && attrs.Keys <= row.Keys
    requires IsOp(node, OpText(op))
    ensures var name := node.fields["attribute"].s;
            var v := coerce(attrs[name], node.fields["value"]).value;
            Meaning(engine, row, Test(name, op != Eq && op != Ne && Textual(attrs[name]), op, v)) ==
            SaysLeaf(engine, row, node, attrs, coerce)
  {
  }

  lemma LeafNames(node: Json, attrs: Attributes, coerce: Coerce)
    requires !IsOp(node, "and") && !IsOp(node, "or") && !IsOp(node, "not") && ReadableLeaf(node, attrs, coerce)
    ensures Decode(node, attrs, coerce).Some? && Names(Decode(node, attrs, coerce).value) <= attrs.Keys
  {
    LeafTree(node, attrs, coerce);
  }

  lemma LeafMeans(engine: Engine, row: Row, node: Json, attrs: Attributes, coerce: Coerce)
    requires !IsOp(node, "and") && !IsOp(node, "or") && !IsOp(node, "not")
    requires ReadableLeaf(node, attrs, coerce) && attrs.Keys <= row.Keys
    requires Decode(node, attrs, coerce).Some? && Names(Decode(node, attrs, coerce).value) <= attrs.Keys
    ensures Meaning(engine, row, Decode(node, attrs, coerce).value) == SaysLeaf(engine, row, node, attrs, coerce)
  {
    LeafTree(node, attrs, coerce);
    if IsOp(node, "contains") {
      PatternLeafMeans(engine, row, node, attrs, coerce, Like.Contains);
    } else if IsOp(node, "starts_with") {
      PatternLeafMeans(engine, row, node, attrs, coerce, Like.StartsWith);
    } else if IsOp(node, "ends_with") {
      PatternLeafMeans(engine, row, node, attrs, coerce, Like.EndsWith);
    } else if IsOp(node, "empty") || IsOp(node, "not_empty") || IsOp(node, "regexp") {
      OtherLeafMeans(engine, row, node, attrs, coerce);
    } else {
      ComparisonMeans(engine, row, node, attrs, coerce, CmpOpOf(node));
    }
  }

  /** The decoded tree means what the request says, on every row. */
  lemma {:induction false} DecodedMeansRequest(engine: Engine, row: Row, node: Json, attrs: Attributes, coerce: Coerce)
    requires Readable(node, attrs, coerce) && attrs.Keys <= row.Keys
    ensures Decode(node, attrs, coerce).Some? && Names(Decode(node, attrs, coerce).value) <= attrs.Keys
    ensures Meaning(engine, row, Decode(node, attrs, coerce).value) == Says(engine, row, node, attrs, coerce)
    decreases node
  {
    ReadableExactly(node, attrs, coerce);
    DecodedProper(node, attrs, coerce);
    DecodedShape(node, attrs, coerce);
    if IsOp(node, "and") || IsOp(node, "or") {
      var items := node.fields["predicates"].items;
      AllReadable(items, attrs, coerce);
      var ts := DecodeAll(items, attrs, coerce).value;
      forall i | 0 <= i < |items|
        ensures Names(ts[i]) <= attrs.Keys && Meaning(engine, row, ts[i]) == Says(engine, row, items[i], attrs, coerce)
      {
        DecodedMeansRequest(engine, row, items[i], attrs, coerce);
      }
      assert ChildrenMean(engine, row, items, ts, attrs, coerce);
      if IsOp(node, "and") {
        AndMeans(engine, row, node, ts, attrs, coerce);
      } else {
        OrMeans(engine, row, node, ts, attrs, coerce);
      }
    } else if IsOp(node, "not") {
      DecodedMeansRequest(engine, row, node.fields["predicate"], attrs, coerce);
    } else {
      LeafNames(node, attrs, coerce);
      LeafMeans(engine, row, node, attrs, coerce);
    }
  }

  ghost predicate ChildrenMean(engine: Engine, row: Row, items: seq<Json>, ts: seq<Tree>, attrs: Attributes, coerce: Coerce)
    requires attrs.Keys <= row.Keys && NamesAll(ts) <= row.Keys
    requires forall i :: 0 <= i < |items| ==> Readable(items[i], attrs, coerce)
  {
    var ms := MeaningAll(engine, row, ts);
    |ms| == |items| && forall i :: 0 <= i < |items| ==> ms[i] == Says(engine, row, items[i], attrs, coerce)
  }

  lemma AndMeans(engine: Engine, row: Row, node: Json, ts: seq<Tree>, attrs: Attributes, coerce: Coerce)
    requires IsOp(node, "and") && Readable(node, attrs, coerce) && attrs.Keys <= row.Keys && NamesAll(ts) <= row.Keys
    requires ChildrenMean(engine, row, node.fields["predicates"].items, ts, attrs, coerce)
    ensures Meaning(engine, row, All(ts)) == Says(engine, row, node, attrs, coerce)
  {
    ListMeaning(engine, row, ts);
    Conjunction(engine, row, node.fields["predicates"].items, MeaningAll(engine, row, ts), attrs, coerce);
  }

  lemma OrMeans(engine: Engine, row: Row, node: Json, ts: seq<Tree>, attrs: Attributes, coerce: Coerce)
    requires IsOp(node, "or") && Readable(node, attrs, coerce) && attrs.Keys <= row.Keys && NamesAll(ts) <= row.Keys
    requires ChildrenMean(engine, row, node.fields["predicates"].items, ts, attrs, coerce)
    ensures Meaning(engine, row, Any(ts)) == Says(engine, row, node, attrs, coerce)
  {
    ListMeaning(engine, row, ts);
    Disjunction(engine, row, node.fields["predicates"].items, MeaningAll(engine, row, ts), attrs, coerce);
  }

  lemma Conjunction(engine: Engine, row: Row, items: seq<Json>, ms: seq<Tri>, attrs: Attributes, coerce: Coerce)
    requires attrs.Keys <= row.Keys && |ms| == |items| && forall i :: 0 <= i < |items| ==> Readable(items[i], attrs, coerce)
    requires forall i :: 0 <= i < |items| ==> ms[i] == Says(engine, row, items[i], attrs, coerce)
    ensures EveryOf(ms) == if exists i :: 0 <= i < |items| && Says(engine, row, items[i], attrs, coerce) == F then F
                           else if forall i :: 0 <= i < |items| ==> Says(engine, row, items[i], attrs, coerce) == T then T else U
  {
    if i :| 0 <= i < |items| && Says(engine, row, items[i], attrs, coerce) == F {
      assert ms[i] == F;
    }
    if i :| 0 <= i < |items| && Says(engine, row, items[i], attrs, coerce) == U {
      assert ms[i] == U;
    }
  }

  lemma Disjunction(engine: Engine, row: Row, items: seq<Json>, ms: seq<Tri>, attrs: Attributes, coerce: Coerce)
    requires attrs.Keys <= row.Keys && |ms| == |items| && forall i :: 0 <= i < |items| ==> Readable(items[i], attrs, coerce)
    requires forall i :: 0 <= i < |items| ==> ms[i] == Says(engine, row, items[i], attrs, coerce)
    ensures SomeOf(ms) == if exists i :: 0 <= i < |items| && Says(engine, row, items[i], attrs, coerce) == T then T
                          else if forall i :: 0 <= i < |items| ==> Says(engine, row, items[i], attrs, coerce) == F then F else U
  {
    if i :| 0 <= i < |items| && Says(engine, row, items[i], attrs, coerce) == T {
      assert ms[i] == T;
    }
    if i :| 0 <= i < |items| && Says(engine, row, items[i], attrs, coerce) == U {
      assert ms[i] == U;
    }
  }

  // ---------- and so are its sizes ----------

  lemma DecodedShape(node: Json, attrs: Attributes, coerce: Coerce)
    requires Decode(node, attrs, coerce).Some?
    ensures IsOp(node, "and") || IsOp(node, "or") ==>
              && HasChildren(node) && DecodeAll(node.fields["predicates"].items, attrs, coerce).Some?
              && var ts := DecodeAll(node.fields["predicates"].items, attrs, coerce).value;
                 Decode(node, attrs, coerce).value == if IsOp(node, "and") then All(ts) else Any(ts)
    ensures IsOp(node, "not") ==>
              && HasChild(node) && Decode(node.fields["predicate"], attrs, coerce).Some?
              && Decode(node, attrs, coerce).value == Negation(Decode(node.fields["predicate"], attrs, coerce).value)
    ensures !IsOp(node, "and") && !IsOp(node, "or") && !IsOp(node, "not") ==>
              var t := Decode(node, attrs, coerce).value;
              !t.All? && !t.Any? && !t.Negation? && (t.Regexp? <==> IsOp(node, "regexp"))
  {
  }

  /** The tree has the request's shape. */
  ghost predicate Mirrors(node: Json, t: Tree)
    decreases t
  {
    match t
    case All(cs) => IsOp(node, "and") && ListMirrors(node, cs) && forall i :: 0 <= i < |cs| ==> Mirrors(node.fields["predicates"].items[i], cs[i])
    case Any(cs) => IsOp(node, "or") && ListMirrors(node, cs) && forall i :: 0 <= i < |cs| ==> Mirrors(node.fields["predicates"].items[i], cs[i])
    case Negation(c) => IsOp(node, "not") && HasChild(node) && Mirrors(node.fields["predicate"], c)
    case Regexp(_, _) => IsOp(node, "regexp")
    case _ => !IsOp(node, "and") && !IsOp(node, "or") && !IsOp(node, "not") && !IsOp(node, "regexp")
  }

  predicate ListMirrors(node: Json, cs: seq<Tree>) {
    HasChildren(node) && |cs| == |node.fields["predicates"].items|
  }

  lemma {:induction false} DecodedMirrors(node: Json, attrs: Attributes, coerce: Coerce)
    requires Decode(node, attrs, coerce).Some?
    ensures Mirrors(node, Decode(node, attrs, coerce).value)
    decreases node
  {
    DecodedShape(node, attrs, coerce);
    if IsOp(node, "and") || IsOp(node, "or") {
      var items := node.fields["predicates"].items;
      AllReadable(items, attrs, coerce);
      forall i | 0 <= i < |items| ensures Mirrors(items[i], DecodeAll(items, attrs, coerce).value[i]) {
        DecodedMirrors(items[i], attrs, coerce);
      }
    } else if IsOp(node, "not") {
      DecodedMirrors(node.fields["predicate"], attrs, coerce);
    }
  }

  lemma {:induction false} BoundAll(ts: seq<Tree>, n: int)
    ensures DepthAll(ts) <= n <==> n >= 0 && forall i :: 0 <= i < |ts| ==> Depth(ts[i]) <= n
    ensures WidthAll(ts) <= n <==> n >= 0 && forall i :: 0 <= i < |ts| ==> Width(ts[i]) <= n
  {
    if ts != [] {
      var init, last := ts[..|ts| - 1], ts[|ts| - 1];
      BoundAll(init, n);
      assert ts == init + [last];
      assert forall i :: 0 <= i < |init| ==> ts[i] == init[i];
    }
  }

  lemma {:induction false} SameDepth(node: Json, t: Tree, n: int)
    requires Mirrors(node, t)
    ensures Depth(t) <= n <==> DepthWithin(node, n)
    decreases t
  {
    match t
    case All(cs) => SameDepths(node.fields["predicates"].items, cs, n - 1);
    case Any(cs) => SameDepths(node.fields["predicates"].items, cs, n - 1);
    case Negation(c) => SameDepth(node.fields["predicate"], c, n - 1);
    case _ =>
  }

  lemma {:induction false} SameDepths(items: seq<Json>, cs: seq<Tree>, n: int)
    requires |items| == |cs| && forall i :: 0 <= i < |cs| ==> Mirrors(items[i], cs[i])
    ensures DepthAll(cs) <= n <==> n >= 0 && DepthsWithin(items, n)
    decreases cs
  {
    BoundAll(cs, n);
    forall i | 0 <= i < |cs| ensures Depth(cs[i]) <= n <==> DepthWithin(items[i], n) {
      SameDepth(items[i], cs[i], n);
    }
  }

  lemma {:induction false} SameWidth(node: Json, t: Tree, n: nat)
    requires Mirrors(node, t)
    ensures Width(t) <= n <==> ListsWithin(node, n)
    decreases t
  {
    match t
    case All(cs) => SameWidths(node.fields["predicates"].items, cs, n);
    case Any(cs) => SameWidths(node.fields["predicates"].items, cs, n);
    case Negation(c) => SameWidth(node.fields["predicate"], c, n);
    case _ =>
  }

  lemma {:induction false} SameWidths(items: seq<Json>, cs: seq<Tree>, n: nat)
    requires |items| == |cs| && forall i :: 0 <= i < |cs| ==> Mirrors(items[i], cs[i])
    ensures WidthAll(cs) <= n <==> forall i :: 0 <= i < |items| ==> ListsWithin(items[i], n)
    decreases cs
  {
    BoundAll(cs, n);
    forall i | 0 <= i < |cs| ensures Width(cs[i]) <= n <==> ListsWithin(items[i], n) {
      SameWidth(items[i], cs[i], n);
    }
  }

  lemma {:induction false} SameCounts(node: Json, t: Tree)
    requires Mirrors(node, t)
    ensures Nodes(t) == Count(node, None) && Regexps(t) == Count(node, Some("regexp"))
    decreases t, 0
  {
    match t
    case All(cs) => SameTotals(node.fields["predicates"].items, cs);
    case Any(cs) => SameTotals(node.fields["predicates"].items, cs);
    case Negation(c) => SameCounts(node.fields["predicate"], c);
    case _ =>
  }

  lemma {:induction false} SameTotals(items: seq<Json>, cs: seq<Tree>)
    requires |items| == |cs| && forall i :: 0 <= i < |cs| ==> Mirrors(items[i], cs[i])
    ensures NodesAll(cs) == CountAll(items, None) && RegexpsAll(cs) == CountAll(items, Some("regexp"))
    decreases cs, 1
  {
    if cs != [] {
      SameTotals(items[..|items| - 1], cs[..|cs| - 1]);
      SameCounts(items[|items| - 1], cs[|cs| - 1]);
    }
  }

  // ---------- a request reads nothing but its attributes ----------

  ghost predicate AgreeOn(a: Row, b: Row, attrs: Attributes) {
    attrs.Keys <= a.Keys && attrs.Keys <= b.Keys && forall n :: n in attrs ==> a[n] == b[n]
  }

  lemma {:induction false} SaysReadsOnly(engine: Engine, a: Row, b: Row, node: Json, attrs: Attributes, coerce: Coerce)
    requires Readable(node, attrs, coerce) && AgreeOn(a, b, attrs)
    ensures Says(engine, a, node, attrs, coerce) == Says(engine, b, node, attrs, coerce)
    decreases node
  {
    if IsOp(node, "and") || IsOp(node, "or") {
      forall i | 0 <= i < |node.fields["predicates"].items|
        ensures Says(engine, a, node.fields["predicates"].items[i], attrs, coerce) ==
                Says(engine, b, node.fields["predicates"].items[i], attrs, coerce)
      {
        SaysReadsOnly(engine, a, b, node.fields["predicates"].items[i], attrs, coerce);
      }
    } else if IsOp(node, "not") {
      SaysReadsOnly(engine, a, b, node.fields["predicate"], attrs, coerce);
    }
  }
}
