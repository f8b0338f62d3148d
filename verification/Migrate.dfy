/** Transactional apply behind the destructive gate (schema/migrate.py). */
module Migrate {
  import opened Prelude
  import opened SchemaIR
  import opened Catalog
  import opened SchemaDiff
  import opened DiffCorrect
  import opened DiffUnmanaged
  import CatalogLaws

  datatype Outcome =
    | NoChange
    | Refused(destructive: seq<Op>)   // DestructivePlanError
    | Applied
    | RolledBack                      // a statement failed; the error is re-raised

  function DestructiveOps(ops: seq<Op>): seq<Op> {
    Filter(ops, (op: Op) => op.Destructive())
  }

  /** A connection: DDL is transactional. `mentions` is the server's reading of CHECK text. */
  class Database {
    var catalog: Catalog
    const mentions: Mentions

    constructor (catalog: Catalog, mentions: Mentions)
      ensures this.catalog == catalog && this.mentions == mentions
    {
      this.catalog := catalog;
      this.mentions := mentions;
    }

    /** One statement. `dataFault` is a refusal because of stored rows, which the catalog cannot predict. */
    method Execute(op: Op, dataFault: bool) returns (ok: bool)
      modifies this
      ensures ok <==> !dataFault && Accepts(old(catalog), op, mentions)
      ensures if ok then Apply(old(catalog), op, mentions) == Some(catalog) else catalog == old(catalog)
    {
      ok := !dataFault && Accepts(catalog, op, mentions);
      if ok {
        catalog := Effect(catalog, op, mentions);
      }
    }

    /** All statements of a plan in one transaction; a failure restores the catalog. */
    method ApplyPlan(plan: seq<Op>, dataFault: nat -> bool) returns (ok: bool)
      modifies this
      ensures ok ==> Run(old(catalog), plan, mentions) == Some(catalog)
      ensures !ok ==> catalog == old(catalog)
      ensures !ok ==> Run(old(catalog), plan, mentions).None? || exists i: nat :: i < |plan| && dataFault(i)
    {
      var saved := catalog;
      var i := 0;
      while i < |plan|
        invariant 0 <= i <= |plan| && saved == old(catalog)
        invariant Run(saved, plan[..i], mentions) == Some(catalog)
      {
        assert plan[..i + 1] == plan[..i] + [plan[i]];
        RunSnoc(saved, plan[..i], plan[i], mentions);
        ok := Execute(plan[i], dataFault(i));
        if !ok {
          catalog := saved;
          RefusedMeansStuck(saved, plan, i, mentions);
          return false;
        }
        i := i + 1;
      }
      assert plan[..|plan|] == plan;
      return true;
    }

    /**
     `current` is what the introspection shows of the database; `dataFault(i)` says that statement `i` meets
     offending rows.
     */
    method Migrate(desired: SchemaIR, current: SchemaIR, defaults: Defaults, allowDestructive: bool,
                   dataFault: nat -> bool) returns (r: Outcome, plan: seq<Op>)
      modifies this
      ensures IsPlan(desired, current, defaults, plan)
      ensures r.NoChange? <==> plan == []
      ensures r.Refused? <==> !allowDestructive && DestructiveOps(plan) != []
      ensures r.Refused? ==> r.destructive == DestructiveOps(plan)
      ensures if r.Applied? then Run(old(catalog), plan, mentions) == Some(catalog) else catalog == old(catalog)
      ensures r.RolledBack? ==> Run(old(catalog), plan, mentions).None? || exists i: nat :: i < |plan| && dataFault(i)
    {
      plan := DiffSchemas(desired, current, defaults);
      if plan == [] {
        return NoChange, plan;
      }
      var destructive := DestructiveOps(plan);
      if destructive != [] && !allowDestructive {
        return Refused(destructive), plan;
      }
      var ok := ApplyPlan(plan, dataFault);
      r := if ok then Applied else RolledBack;
    }
  }

  /** What `Migrate` leaves behind, from its contract: the plan's result if applied, the old catalog if not. */
  ghost predicate MigrateEnds(c: Catalog, c': Catalog, plan: seq<Op>, r: Outcome, allowDestructive: bool, mentions: Mentions) {
    && (r.NoChange? <==> plan == [])
    && (r.Refused? <==> !allowDestructive && DestructiveOps(plan) != [])
    && (if r.Applied? then Run(c, plan, mentions) == Some(c') else c' == c)
  }

  /**
   With permission, or nothing destructive, and no offending rows, a migration of a database that its
   introspection shows reaches the target if and only if the plan's conditions hold.
   */
  lemma MigrationLandsExactly(before: Catalog, desired: SchemaIR, current: SchemaIR, defaults: Defaults, plan: seq<Op>,
                              r: Outcome, after: Catalog, allowDestructive: bool, mentions: Mentions)
    requires WellFormed(desired, mentions) && ShownBy(before, desired, current, mentions)
    requires IsPlan(desired, current, defaults, plan)
    requires MigrateEnds(before, after, plan, r, allowDestructive, mentions)
    requires r.RolledBack? ==> Run(before, plan, mentions).None?  // no offending rows
    requires allowDestructive || DestructiveOps(plan) == []
    ensures !r.RolledBack? && after == Target(desired, current) <==>
            Plannable(desired, current) && HiddenSpared(CatalogOf(desired), before, HiddenTables(desired, current))
  {
    PlanLandsOnDatabaseExactly(before, desired, current, defaults, plan, mentions);
  }

  /** Without permission nothing is ever lost, whatever the outcome. */
  lemma UnforcedMigrationPreserves(c: Catalog, after: Catalog, plan: seq<Op>, r: Outcome, mentions: Mentions)
    requires Consistent(c, mentions) && MigrateEnds(c, after, plan, r, false, mentions)
    ensures CatalogLaws.Preserves(c, after)
  {
    if r.Applied? {
      forall op | op in plan ensures !op.Destructive() {
        assert op !in DestructiveOps(plan);
      }
      CatalogLaws.NonDestructiveRunPreserves(c, plan, mentions);
    }
  }

  /** A refused statement in the middle leaves no way for the whole list to run. */
  lemma RefusedMeansStuck(c: Catalog, ops: seq<Op>, i: nat, mentions: Mentions)
    requires i < |ops|
    ensures Run(c, ops[..i + 1], mentions).None? ==> Run(c, ops, mentions).None?
  {
    assert ops == ops[..i + 1] + ops[i + 1..];
    RunConcat(c, ops[..i + 1], ops[i + 1..], mentions);
  }
}
