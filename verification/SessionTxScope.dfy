/** A chain deletion touches its own chain only, and all of it that its statements could see. */
module SessionTxScope {
  import opened Prelude
  import opened SessionStore
  import opened SessionTx
  import opened SessionTxSafe

  /** The session `id` of `user` is one that the deletion is about. */
  ghost predicate Within(t: Target, user: Id, id: Id) {
    user == t.user && (t.session == None || t.session == Some(id))
  }

  ghost predicate UsedWithin(d: Db, t: Target, gone: set<Token>) {
    gone <= SpentIn(d.log) && forall x :: x in gone && x in d.used ==> Within(t, d.used[x].user, d.used[x].session)
  }

  ghost predicate RowsWithin(d: Db, t: Target, rows: set<Id>) {
    rows <= d.created.Keys && forall i :: i in rows ==> Within(t, d.created[i].user, i)
  }

  ghost predicate InScope(d: Db, t: Tx) {
    match t
    case AwaitUsed(target, _, _, gone) => UsedWithin(d, target, gone)
    case DeleteRows(target, _, _, gone) => UsedWithin(d, target, gone)
    case AwaitRows(target, _, _, gone, rows) => UsedWithin(d, target, gone) && RowsWithin(d, target, rows)
    case Deleted(target, _, _, gone, rows) => UsedWithin(d, target, gone) && RowsWithin(d, target, rows)
    case _ => true
  }

  ghost predicate AllInScope(d: Db) {
    forall k :: k in d.txs ==> InScope(d, d.txs[k])
  }

  /** What later states keep: created sessions, spent tokens, and what was recorded for them. */
  ghost predicate Continues(d: Db, e: Db) {
    && (forall i :: i in d.created ==> i in e.created && e.created[i] == d.created[i])
    && SpentIn(d.log) <= SpentIn(e.log)
    && (forall x :: x in e.used && x in SpentIn(d.log) ==> x in d.used && e.used[x] == d.used[x])
  }

  lemma LogContinues(d: Db, e: Db, entry: Entry)
    requires e.created == d.created && e.log == d.log + [entry]
    requires forall x :: x in e.used && x in SpentIn(d.log) ==> x in d.used && e.used[x] == d.used[x]
    ensures Continues(d, e)
  {
    LogSnoc(d.log, entry);
  }

  lemma RotationContinues(d: Db, k: nat)
    requires Inv(d) && k in d.txs && d.txs[k].Renewed?
    ensures Continues(d, AdvanceTx(d, k))
  {
    var a := d.txs[k].a;
    TxFacts(d, k);
    assert a.before !in SpentIn(d.log);
    LogContinues(d, AdvanceTx(d, k), LogRotated(a.before, a.session));
  }

  /** Statements that commit nothing. */
  predicate Commits(t: Tx) {
    t.Renewed? || t.Deleted? || t.FirstWritten?
  }

  lemma PlainStep(d: Db, k: nat)
    requires k in d.txs && !Commits(d.txs[k])
    ensures var e := AdvanceTx(d, k);
            e.created == d.created && e.log == d.log && e.used == d.used
  {
  }

  /** What transaction `k` becomes. */
  function NextTx(d: Db, k: nat): Tx
    requires k in d.txs
  {
    if k in AdvanceTx(d, k).txs then AdvanceTx(d, k).txs[k] else d.txs[k]
  }

  ghost predicate OnlyMoves(d: Db, e: Db, k: nat) {
    e.txs.Keys == d.txs.Keys && forall j :: j in d.txs && j != k ==> e.txs[j] == d.txs[j]
  }

  predicate Rotating(t: Tx) {
    t.Select? || t.AwaitRow? || t.Locked? || t.Inserted? || t.Renewed? || t.Lookup?
  }

  lemma RotatingMoves(d: Db, k: nat)
    requires k in d.txs && Rotating(d.txs[k])
    ensures OnlyMoves(d, AdvanceTx(d, k), k)
  {
  }

  lemma OtherMoves(d: Db, k: nat)
    requires k in d.txs && !Rotating(d.txs[k])
    ensures OnlyMoves(d, AdvanceTx(d, k), k)
  {
  }

  /** No other transaction moves. */
  lemma AdvanceTxs(d: Db, k: nat)
    requires k in d.txs
    ensures OnlyMoves(d, AdvanceTx(d, k), k) && AdvanceTx(d, k).txs[k] == NextTx(d, k)
  {
    if Rotating(d.txs[k]) {
      RotatingMoves(d, k);
    } else {
      OtherMoves(d, k);
    }
  }

  lemma AdvanceContinues(d: Db, k: nat)
    requires Inv(d) && k in d.txs
    ensures Continues(d, AdvanceTx(d, k))
  {
    if d.txs[k].Renewed? {
      RotationContinues(d, k);
    } else if d.txs[k].Deleted? {
      var x := d.txs[k];
      LogContinues(d, AdvanceTx(d, k), LogDeleted(x.target, x.gone, x.rows));
    } else if d.txs[k].FirstWritten? {
      LogContinues(d, AdvanceTx(d, k), LogFirst(d.txs[k].f.session));
    } else {
      PlainStep(d, k);
    }
  }

  lemma SweepContinues(d: Db, e: Db, gone: set<Token>, rows: set<Id>)
    requires e.created == d.created && e.used == d.used - gone && e.log == d.log + [LogSwept(gone, rows)]
    ensures Continues(d, e)
  {
    LogContinues(d, e, LogSwept(gone, rows));
  }

  lemma InsertContinues(d: Db, id: Id, row: Row)
    ensures Continues(d, Next(d, Insert(id, row)))
  {
    if Next(d, Insert(id, row)).log != d.log {
      LogSnoc(d.log, LogCreated(id));
    }
  }

  lemma OthersContinue(d: Db, action: Action)
    requires !action.Advance?
    ensures Continues(d, Next(d, action))
  {
    var e := Next(d, action);
    if action.Insert? {
      InsertContinues(d, action.id, action.row);
    } else if e.log != d.log {
      SweepContinues(d, e, if action.SweepUsed? then action.gone else {}, if action.SweepUsed? then {} else action.ids);
    }
  }

  lemma ScopeContinues(d: Db, e: Db, t: Tx)
    requires Continues(d, e) && InScope(d, t)
    ensures InScope(e, t)
  {
  }

  lemma HitsAreWithin(d: Db, t: Target)
    requires Inv(d)
    ensures UsedWithin(d, t, UsedHit(d, t)) && RowsWithin(d, t, RowsHit(d, t))
  {
  }

  /** Only a deletion becomes a later deletion statement, with what it has just read. */
  ghost predicate NextStatement(d: Db, t: Tx, u: Tx) {
    && (u.AwaitUsed? ==> u == t || (t.DeleteUsed? && u.target == t.target && u.gone == UsedHit(d, t.target)))
    && (u.DeleteRows? ==> t.AwaitUsed? && u.target == t.target && u.gone <= t.gone)
    && (u.AwaitRows? ==> u == t || (t.DeleteRows? && u.target == t.target && u.gone == t.gone && u.rows == RowsHit(d, t.target)))
    && (u.Deleted? ==> t.AwaitRows? && u.target == t.target && u.gone == t.gone && u.rows <= t.rows)
  }

  lemma RotatingNext(d: Db, k: nat)
    requires k in d.txs && Rotating(d.txs[k])
    ensures NextStatement(d, d.txs[k], NextTx(d, k))
  {
  }

  lemma OtherNext(d: Db, k: nat)
    requires k in d.txs && !Rotating(d.txs[k])
    ensures NextStatement(d, d.txs[k], NextTx(d, k))
  {
  }

  lemma StepInScope(d: Db, k: nat)
    requires Inv(d) && k in d.txs && InScope(d, d.txs[k])
    ensures InScope(d, NextTx(d, k))
  {
    if Rotating(d.txs[k]) {
      RotatingNext(d, k);
    } else {
      OtherNext(d, k);
    }
    if d.txs[k].DeleteUsed? || d.txs[k].DeleteRows? {
      HitsAreWithin(d, d.txs[k].target);
    }
  }

  lemma AdvanceInScope(d: Db, k: nat)
    requires Inv(d) && AllInScope(d) && k in d.txs
    ensures AllInScope(AdvanceTx(d, k))
  {
    var e := AdvanceTx(d, k);
    AdvanceContinues(d, k);
    AdvanceTxs(d, k);
    StepInScope(d, k);
    forall j | j in e.txs ensures InScope(e, e.txs[j]) {
      ScopeContinues(d, e, if j == k then NextTx(d, k) else d.txs[j]);
    }
  }

  lemma OtherTxs(d: Db, action: Action, k: nat)
    requires !action.Advance? && k in Next(d, action).txs
    ensures var t := Next(d, action).txs[k];
            (k in d.txs && t == d.txs[k]) || t.Ended? || t.Select? || t.FirstRead? || t.DeleteUsed?
  {
  }

  lemma OthersInScope(d: Db, action: Action)
    requires Inv(d) && AllInScope(d) && !action.Advance?
    ensures AllInScope(Next(d, action))
  {
    var e := Next(d, action);
    OthersContinue(d, action);
    forall k | k in e.txs ensures InScope(e, e.txs[k]) {
      OtherTxs(d, action, k);
      if k in d.txs && e.txs[k] == d.txs[k] {
        ScopeContinues(d, e, d.txs[k]);
      }
    }
  }

  lemma NextInScope(d: Db, action: Action)
    requires Inv(d) && AllInScope(d)
    ensures AllInScope(Next(d, action))
  {
    if !action.Advance? {
      OthersInScope(d, action);
    } else if action.tx in d.txs {
      AdvanceInScope(d, action.tx);
    }
  }

  lemma {:induction false} ReachableInScope(actions: seq<Action>)
    ensures AllInScope(Reach(actions))
  {
    if actions != [] {
      ReachableInScope(actions[..|actions| - 1]);
      ReachableInv(actions[..|actions| - 1]);
      NextInScope(Reach(actions[..|actions| - 1]), actions[|actions| - 1]);
    }
  }

  /** From `d` to `e` only sessions and used tokens of the target went; of a removed session no used token is left. */
  ghost predicate ChainDeleted(d: Db, e: Db, t: Target) {
    && e.rows.Keys <= d.rows.Keys && (forall i :: i in e.rows ==> e.rows[i] == d.rows[i])
    && e.used.Keys <= d.used.Keys && (forall x :: x in e.used ==> e.used[x] == d.used[x])
    && (forall i :: i in d.rows && i !in e.rows ==> Within(t, d.rows[i].user, i))
    && (forall x :: x in d.used && x !in e.used ==> Within(t, d.used[x].user, d.used[x].session))
    && (forall i :: i in d.rows && t.session == Some(i) ==> i !in e.rows)
    && (forall x :: x in e.used ==> e.used[x].session in e.rows)
  }

  lemma DeletionRemoves(d: Db, k: nat)
    requires Inv(d) && k in d.txs && d.txs[k].Deleted? && InScope(d, d.txs[k])
    ensures ChainDeleted(d, Next(d, Advance(k)), d.txs[k].target)
  {
    TxFacts(d, k);
    assert Next(d, Advance(k)).rows == d.rows - d.txs[k].rows && Next(d, Advance(k)).used == d.used - d.txs[k].gone;
  }

  /** What a committed logout, hard reuse or password change removed, in every interleaving. */
  lemma DeletionIsExact(actions: seq<Action>, k: nat)
    requires k in Reach(actions).txs && Reach(actions).txs[k].Deleted?
    ensures ChainDeleted(Reach(actions), Next(Reach(actions), Advance(k)), Reach(actions).txs[k].target)
  {
    ReachableInv(actions);
    ReachableInScope(actions);
    DeletionRemoves(Reach(actions), k);
  }
}
