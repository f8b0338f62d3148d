/**
 Plans on tables that hold rows (schema/diff.py, create defaults): a required column cannot be added to a
 populated table without a DEFAULT, and the default does not outlive the statement that needed it.
 */
module PlanRows {
  import opened Prelude
  import opened Ordering
  import opened SchemaIR
  import opened Catalog
  import opened SchemaDiff
  import opened DiffMembers
  import opened DiffCorrect
  import opened DiffTheorems
  import opened DiffUnmanaged
  import opened PlanSteps

  // ---------- a default is dropped by the next operation ----------

  predicate DropsDefaultOf(op: Op, add: Op) {
    add.AddColumn? && op == DropColumnDefault(add.tableName, add.column.name)
  }

  /** An added column is followed by the drop of its default exactly when it has one, and no other default is dropped. */
  ghost predicate PairedAt(ops: seq<Op>, i: nat)
    requires i < |ops|
  {
    && (ops[i].AddColumn? ==> (ops[i].addDefault.Some? <==> i + 1 < |ops| && DropsDefaultOf(ops[i + 1], ops[i])))
    && (ops[i].DropColumnDefault? ==> i > 0 && DropsDefaultOf(ops[i], ops[i - 1]) && ops[i - 1].addDefault.Some?)
  }

  ghost predicate Paired(ops: seq<Op>) {
    forall i :: 0 <= i < |ops| ==> PairedAt(ops, i)
  }

  lemma PairedConcat(a: seq<Op>, b: seq<Op>)
    requires Paired(a) && Paired(b)
    ensures Paired(a + b)
  {
    forall i | 0 <= i < |a + b| ensures PairedAt(a + b, i) {
      if i < |a| {
        assert PairedAt(a, i);
        if b != [] {
          assert PairedAt(b, 0);
        }
      } else {
        assert PairedAt(b, i - |a|);
      }
    }
  }

  lemma {:induction false} PairedFlatMap<A(!new)>(xs: seq<A>, f: A -> seq<Op>)
    requires forall x :: x in xs ==> Paired(f(x))
    ensures Paired(FlatMap(xs, f))
  {
    if xs != [] {
      PairedFlatMap(xs[..|xs| - 1], f);
      assert xs[|xs| - 1] in xs;
      PairedConcat(FlatMap(xs[..|xs| - 1], f), f(xs[|xs| - 1]));
    }
  }

  lemma OtherPhasesPaired(ops: seq<Op>, from: nat, to: nat, d: SchemaIR, c: SchemaIR, defaults: Defaults)
    requires Segment(ops, from, to, d, c, defaults) && !(from <= 7 < to)
    ensures Paired(ops)
  {
    forall i | 0 <= i < |ops| ensures PhaseOf(ops[i]) != 7 {
      assert ops[i] in ops;
    }
  }

  lemma GrowPaired(d: SchemaIR, c: SchemaIR, defaults: Defaults)
    ensures Paired(FlatMap(SortedNames(Tables(d).Keys * Tables(c).Keys), t => GrowOps(Tables(d), Tables(c), defaults, t)))
  {
    var f := t => GrowOps(Tables(d), Tables(c), defaults, t);
    forall t ensures Paired(f(t)) {
      if t in Tables(d) && t in Tables(c) {
        PairedFlatMap(SortBy(Tables(d)[t].columns, ColumnName, StrLe), col => AddColumnOps(t, Tables(c)[t], col, defaults));
      }
    }
    PairedFlatMap(SortedNames(Tables(d).Keys * Tables(c).Keys), f);
  }

  /** The plan around its added columns. */
  lemma AroundGrow(d: SchemaIR, c: SchemaIR, defaults: Defaults, o: Orders) returns (before: seq<Op>, after: seq<Op>)
    requires UniqueNames(d) && UniqueNames(c) && ValidOrders(o, Tables(d), Tables(c))
    ensures var grow := FlatMap(SortedNames(Tables(d).Keys * Tables(c).Keys), t => GrowOps(Tables(d), Tables(c), defaults, t));
            Plan(d, c, defaults, o) == before + grow + after
    ensures Segment(before, 0, 7, d, c, defaults) && Segment(after, 8, 12, d, c, defaults)
  {
    var dt, ct := Tables(d), Tables(c);
    var shared := SortedNames(dt.Keys * ct.Keys);
    var p3 := FlatMap(shared, t => ReshapeOps(dt, ct, t));
    var p4 := DropTableOps(o.drops);
    var p5 := DropSequenceOps(SortedNames(Sequences(c).Keys - Sequences(d).Keys));
    var p6 := FlatMap(o.creates, t => CreateTableOp(dt, t));
    var p8 := FlatMap(SortedNames(Sequences(d).Keys - Sequences(c).Keys), n => CreateSequenceOp(Sequences(d), n));
    BeforeGrow(p3, p4, p5, p6, d, c, defaults, o);
    before := DetachPhase(dt, ct) + (p3 + p4 + p5 + p6);
    after := p8 + AttachPhase(dt, ct, o);
    CreateSequencesSegment(d, c, defaults);
    AttachSegment(d, c, defaults, o);
    Join(p8, AttachPhase(dt, ct, o), 8, 9, 12, d, c, defaults);
    Regroup(DetachPhase(dt, ct), p3 + p4 + p5 + p6, FlatMap(shared, t => GrowOps(dt, ct, defaults, t)), p8, AttachPhase(dt, ct, o));
  }

  lemma Regroup(a: seq<Op>, b: seq<Op>, grow: seq<Op>, s: seq<Op>, z: seq<Op>)
    ensures a + (b + grow + s) + z == (a + b) + grow + (s + z)
  {
  }

  lemma BeforeGrow(p3: seq<Op>, p4: seq<Op>, p5: seq<Op>, p6: seq<Op>, d: SchemaIR, c: SchemaIR, defaults: Defaults, o: Orders)
    requires UniqueNames(d) && UniqueNames(c) && ValidOrders(o, Tables(d), Tables(c))
    requires p3 == FlatMap(SortedNames(Tables(d).Keys * Tables(c).Keys), t => ReshapeOps(Tables(d), Tables(c), t))
    requires p4 == DropTableOps(o.drops)
    requires p5 == DropSequenceOps(SortedNames(Sequences(c).Keys - Sequences(d).Keys))
    requires p6 == FlatMap(o.creates, t => CreateTableOp(Tables(d), t))
    ensures Segment(DetachPhase(Tables(d), Tables(c)) + (p3 + p4 + p5 + p6), 0, 7, d, c, defaults)
  {
    DetachSegment(d, c, defaults);
    ReshapeSegment(d, c, defaults);
    DropTablesSegment(d, c, defaults, o);
    DropSequencesSegment(d, c, defaults);
    CreateTablesSegment(d, c, defaults, o);
    Join(p3, p4, 3, 4, 5, d, c, defaults);
    Join(p3 + p4, p5, 3, 5, 6, d, c, defaults);
    Join(p3 + p4 + p5, p6, 3, 6, 7, d, c, defaults);
    Join(DetachPhase(Tables(d), Tables(c)), p3 + p4 + p5 + p6, 0, 3, 7, d, c, defaults);
  }

  /** Every column is added with its create default, and a default is gone before anything else happens. */
  lemma DefaultsAreTemporary(d: SchemaIR, c: SchemaIR, defaults: Defaults, ops: seq<Op>, i: nat)
    requires UniqueNames(d) && UniqueNames(c) && IsPlan(d, c, defaults, ops) && i < |ops|
    ensures ops[i].AddColumn? ==>
              var t, col := ops[i].tableName, ops[i].column;
              && ops[i].addDefault == (if !col.nullable && (t, col.name) in defaults then Some(defaults[(t, col.name)]) else None)
              && (ops[i].addDefault.Some? <==> i + 1 < |ops| && ops[i + 1] == DropColumnDefault(t, col.name))
    ensures ops[i].DropColumnDefault? ==> i > 0 && DropsDefaultOf(ops[i], ops[i - 1]) && ops[i - 1].addDefault.Some?
  {
    var o :| ValidOrders(o, Tables(d), Tables(c)) && ops == Plan(d, c, defaults, o);
    PlanPaired(d, c, defaults, o);
    assert PairedAt(ops, i);
    if ops[i].AddColumn? {
      PlanIsTheDifference(d, c, defaults, ops);
      assert Wanted(ops[i], d, c, defaults);
    }
  }

  lemma PlanPaired(d: SchemaIR, c: SchemaIR, defaults: Defaults, o: Orders)
    requires UniqueNames(d) && UniqueNames(c) && ValidOrders(o, Tables(d), Tables(c))
    ensures Paired(Plan(d, c, defaults, o))
  {
    var before, after := AroundGrow(d, c, defaults, o);
    var grow := FlatMap(SortedNames(Tables(d).Keys * Tables(c).Keys), t => GrowOps(Tables(d), Tables(c), defaults, t));
    OtherPhasesPaired(before, 0, 7, d, c, defaults);
    OtherPhasesPaired(after, 8, 12, d, c, defaults);
    GrowPaired(d, c, defaults);
    PairedConcat(before, grow);
    PairedConcat(before + grow, after);
  }

  // ---------- populated tables ----------

  function Dropped(ops: seq<Op>): set<string> {
    set i | 0 <= i < |ops| && ops[i].DropTable? :: ops[i].tableName
  }

  /** The server refuses a required column without a default on a table that holds rows. */
  predicate RowsRefuse(op: Op, filled: set<string>) {
    op.AddColumn? && op.tableName in filled && !op.column.nullable && op.addDefault.None?
  }

  /** The statements on a database whose tables `filled` hold rows. */
  function RunFilled(c: Catalog, filled: set<string>, ops: seq<Op>, mentions: Mentions): Option<Catalog> {
    if ops == [] then Some(c)
    else
      var init, last := ops[..|ops| - 1], ops[|ops| - 1];
      match RunFilled(c, filled, init, mentions)
      case None => None
      case Some(c') => if RowsRefuse(last, filled - Dropped(init)) then None else Apply(c', last, mentions)
  }

  ghost predicate Blocked(ops: seq<Op>, filled: set<string>) {
    exists i :: 0 <= i < |ops| && RowsRefuse(ops[i], filled - Dropped(ops[..i]))
  }

  lemma {:induction false} RunFilledExactly(c: Catalog, filled: set<string>, ops: seq<Op>, mentions: Mentions)
    ensures RunFilled(c, filled, ops, mentions) == if Blocked(ops, filled) then None else Run(c, ops, mentions)
  {
    if ops != [] {
      var init := ops[..|ops| - 1];
      RunFilledExactly(c, filled, init, mentions);
      BlockedSnoc(init, ops[|ops| - 1], filled);
      assert ops == init + [ops[|ops| - 1]];
    }
  }

  lemma BlockedSnoc(init: seq<Op>, last: Op, filled: set<string>)
    ensures Blocked(init + [last], filled) <==> Blocked(init, filled) || RowsRefuse(last, filled - Dropped(init))
  {
    var ops := init + [last];
    assert ops[..|init|] == init && ops[|init|] == last;
    forall i | 0 <= i < |init|
      ensures RowsRefuse(ops[i], filled - Dropped(ops[..i])) <==> RowsRefuse(init[i], filled - Dropped(init[..i]))
    {
      assert ops[..i] == init[..i];
    }
    if Blocked(init, filled) {
      var i :| 0 <= i < |init| && RowsRefuse(init[i], filled - Dropped(init[..i]));
      assert RowsRefuse(ops[i], filled - Dropped(ops[..i]));
    }
    if RowsRefuse(last, filled - Dropped(init)) {
      assert RowsRefuse(ops[|init|], filled - Dropped(ops[..|init|]));
    }
    if Blocked(ops, filled) {
      var i :| 0 <= i < |ops| && RowsRefuse(ops[i], filled - Dropped(ops[..i]));
      assert i < |init| ==> RowsRefuse(init[i], filled - Dropped(init[..i]));
    }
  }

  /** Every new required column of a populated table has a create default. */
  ghost predicate RequiredHaveDefaults(d: SchemaIR, c: SchemaIR, defaults: Defaults, filled: set<string>) {
    forall t, col :: t in filled && WantsColumn(d, c, t, col) && !col.nullable ==> (t, col.name) in defaults
  }

  lemma BlockedIsMissing(d: SchemaIR, c: SchemaIR, defaults: Defaults, ops: seq<Op>, filled: set<string>)
    requires (forall op :: op in ops ==> Wanted(op, d, c, defaults)) && Blocked(ops, filled)
    ensures !RequiredHaveDefaults(d, c, defaults, filled)
  {
    var i :| 0 <= i < |ops| && RowsRefuse(ops[i], filled - Dropped(ops[..i]));
    assert ops[i] in ops && WantsColumn(d, c, ops[i].tableName, ops[i].column);
  }

  lemma MissingIsBlocked(d: SchemaIR, c: SchemaIR, defaults: Defaults, ops: seq<Op>, filled: set<string>)
    requires (forall op :: op in ops <==> Wanted(op, d, c, defaults)) && !RequiredHaveDefaults(d, c, defaults, filled)
    ensures Blocked(ops, filled)
  {
    var t, col :| t in filled && WantsColumn(d, c, t, col) && !col.nullable && (t, col.name) !in defaults;
    assert Wanted(AddColumn(t, col, None), d, c, defaults);
    var i :| 0 <= i < |ops| && ops[i] == AddColumn(t, col, None);
    SharedNotDropped(d, c, defaults, ops, ops[..i], t, col);
    assert RowsRefuse(ops[i], filled - Dropped(ops[..i]));
  }

  lemma PlanBlocked(d: SchemaIR, c: SchemaIR, defaults: Defaults, ops: seq<Op>, filled: set<string>)
    requires UniqueNames(d) && UniqueNames(c) && IsPlan(d, c, defaults, ops)
    ensures Blocked(ops, filled) <==> !RequiredHaveDefaults(d, c, defaults, filled)
  {
    PlanIsTheDifference(d, c, defaults, ops);
    if Blocked(ops, filled) {
      BlockedIsMissing(d, c, defaults, ops, filled);
    }
    if !RequiredHaveDefaults(d, c, defaults, filled) {
      MissingIsBlocked(d, c, defaults, ops, filled);
    }
  }

  lemma SharedNotDropped(d: SchemaIR, c: SchemaIR, defaults: Defaults, ops: seq<Op>, prefix: seq<Op>, t: string, col: ColumnIR)
    requires (forall op :: op in ops ==> Wanted(op, d, c, defaults)) && prefix <= ops && WantsColumn(d, c, t, col)
    ensures t !in Dropped(prefix)
  {
    if t in Dropped(prefix) {
      var i :| 0 <= i < |prefix| && prefix[i].DropTable? && prefix[i].tableName == t;
      assert prefix[i] == ops[i] && ops[i] in ops;
      assert HasTable(d, t);
    }
  }

  /**
   On a database with rows, whatever tables hold them: the plan passes and lands if and only if it lands on
   an empty one and every new required column of a populated table has a create default.
   */
  lemma PlanLandsOnRowsExactly(d: SchemaIR, c: SchemaIR, defaults: Defaults, ops: seq<Op>, filled: set<string>, mentions: Mentions)
    requires WellFormed(d, mentions) && WellFormed(c, mentions) && IsPlan(d, c, defaults, ops)
    ensures RunFilled(CatalogOf(c), filled, ops, mentions) == Some(Target(d, c)) <==>
            Plannable(d, c) && RequiredHaveDefaults(d, c, defaults, filled)
  {
    PlanBlocked(d, c, defaults, ops, filled);
    RunFilledExactly(CatalogOf(c), filled, ops, mentions);
    PlanLandsExactly(d, c, defaults, ops, mentions);
  }

  /** The same on a real database, with tables that the snapshot knows by name only. */
  lemma PlanLandsOnFilledDatabaseExactly(r: Catalog, d: SchemaIR, c: SchemaIR, defaults: Defaults, ops: seq<Op>,
                                         filled: set<string>, mentions: Mentions)
    requires WellFormed(d, mentions) && ShownBy(r, d, c, mentions) && IsPlan(d, c, defaults, ops)
    ensures RunFilled(r, filled, ops, mentions) == Some(Target(d, c)) <==>
            Plannable(d, c) && HiddenSpared(CatalogOf(d), r, HiddenTables(d, c)) && RequiredHaveDefaults(d, c, defaults, filled)
  {
    PlanBlocked(d, c, defaults, ops, filled);
    RunFilledExactly(r, filled, ops, mentions);
    PlanLandsOnDatabaseExactly(r, d, c, defaults, ops, mentions);
  }
}
