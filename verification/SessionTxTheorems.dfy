/** Single use, closed chains and the foreign-key race, for every interleaving of session transactions. */
module SessionTxTheorems {
  import opened Prelude
  import opened SessionStore
  import opened SessionTx
  import opened SessionTxSafe

  /** Each refresh token is exchanged by at most one committed rotation. */
  lemma RotatedAtMostOnce(actions: seq<Action>, i: nat, j: nat)
    requires var log := Reach(actions).log;
             i < j < |log| && log[i].LogRotated? && log[j].LogRotated?
    ensures Reach(actions).log[i].token != Reach(actions).log[j].token
  {
    ReachableInv(actions);
  }

  /** Used tokens on record are exactly the committed rotations that no commit has deleted, each with its session. */
  lemma UsedMatchesLog(actions: seq<Action>)
    ensures var d := Reach(actions);
            && d.used.Keys == SpentIn(d.log) - RemovedIn(d.log)
            && (forall x :: x in d.used ==> d.used[x].session in d.rows && d.rows[d.used[x].session].user == d.used[x].user)
            && (forall x :: x in SpentIn(d.log) ==> !LiveToken(d, x))
  {
    ReachableInv(actions);
  }

  /** Once a commit has removed a chain, no later commit rotates a token of that session or issues it one. */
  lemma ClosedStaysClosed(actions: seq<Action>, i: nat, j: nat)
    requires var log := Reach(actions).log;
             i < j < |log| && (log[j].LogRotated? || log[j].LogFirst?)
    ensures Reach(actions).log[j].session !in ClosedBy(Reach(actions).log[i])
  {
    ReachableInv(actions);
  }

  /** First refresh is committed at most once per session, and never for one created with a token. */
  lemma FirstOnce(actions: seq<Action>, j: nat)
    requires j < |Reach(actions).log| && Reach(actions).log[j].LogFirst?
    ensures var d := Reach(actions);
            && (forall i :: 0 <= i < j && d.log[i].LogFirst? ==> d.log[i].session != d.log[j].session)
            && d.log[j].session in d.created && d.created[d.log[j].session].hmac.None?
  {
    ReachableInv(actions);
    assert Reach(actions).log[j].session in FirstIn(Reach(actions).log);
  }

  /** No interleaving moves a session's absolute expiry or its owner, or lets a token outlive the session. */
  lemma ExpiryFixed(actions: seq<Action>, id: Id)
    requires id in Reach(actions).rows
    ensures var d := Reach(actions);
            && id in d.created && d.created[id].user == d.rows[id].user
            && d.created[id].sessionExpires == d.rows[id].sessionExpires
            && (d.rows[id].hmac.Some? ==> d.rows[id].refreshExpires <= d.created[id].sessionExpires)
  {
    ReachableInv(actions);
  }

  /** From `d` to `e` the row of the named session alone got a token, with the renewed expiry. */
  ghost predicate RowRenewed(d: Db, e: Db, session: Id, user: Id, token: Token, now: int, ttl: int)
    requires session in d.rows
  {
    && session in e.rows && e.rows == d.rows[session := e.rows[session]]
    && e.rows[session] == Row(user, Some(token), d.rows[session].sessionExpires, e.rows[session].refreshExpires)
    && IsRenewed(e.rows[session].refreshExpires, now, ttl, d.rows[session].sessionExpires)
  }

  /** The row still holds the presented token and has not expired, and the token is not on record. */
  ghost predicate StillRotatable(d: Db, a: RotateArgs) {
    && a.session in d.rows && a.before !in d.used
    && d.rows[a.session].hmac == Some(a.before) && d.rows[a.session].user == a.user
    && a.now < d.rows[a.session].sessionExpires && a.now < d.rows[a.session].refreshExpires
  }

  /** From `d` to `e` that row alone got the new token and the renewed expiry, and the old token was recorded. */
  ghost predicate RotationWritten(d: Db, e: Db, k: nat, a: RotateArgs)
    requires a.session in d.rows
  {
    && RowRenewed(d, e, a.session, a.user, a.after, a.now, a.refreshTtl)
    && k in e.txs && e.txs[k] == Ended(WasRotated(e.rows[a.session].refreshExpires, d.rows[a.session].sessionExpires))
    && e.used == d.used[a.before := Spending(a.user, a.session, a.now, a.now + 1000 * a.window)]
    && e.log == d.log + [LogRotated(a.before, a.session)]
  }

  lemma RenewedFacts(d: Db, k: nat)
    requires Inv(d) && k in d.txs && d.txs[k].Renewed?
    ensures StillRotatable(d, d.txs[k].a) && d.rows[d.txs[k].a.session] == d.txs[k].row
  {
    TxFacts(d, k);
    assert d.txs[k].a.before !in SpentIn(d.log);
  }

  lemma RotationWrites(d: Db, k: nat, a: RotateArgs, row: Row)
    requires k in d.txs && d.txs[k] == Renewed(a, row) && a.session in d.rows && d.rows[a.session] == row && row.user == a.user
    ensures RotationWritten(d, Next(d, Advance(k)), k, a)
  {
    assert Next(d, Advance(k)) == CommitRotation(d, k, a, row);
  }

  lemma RenewedCommits(d: Db, k: nat)
    requires Inv(d) && k in d.txs && d.txs[k].Renewed?
    ensures StillRotatable(d, d.txs[k].a) && RotationWritten(d, Next(d, Advance(k)), k, d.txs[k].a)
  {
    RenewedFacts(d, k);
    RotationWrites(d, k, d.txs[k].a, d.txs[k].row);
  }

  /** Every committed rotation, in every interleaving. */
  lemma RotationIsExact(actions: seq<Action>, k: nat)
    requires k in Reach(actions).txs && Reach(actions).txs[k].Renewed?
    ensures var d, a := Reach(actions), Reach(actions).txs[k].a;
            StillRotatable(d, a) && RotationWritten(d, Next(d, Advance(k)), k, a)
  {
    ReachableInv(actions);
    RenewedCommits(Reach(actions), k);
  }

  /** What a committed first refresh did: a session that still had no token gets one, with the renewed expiry. */
  lemma FirstIsExact(actions: seq<Action>, k: nat)
    requires k in Reach(actions).txs && Reach(actions).txs[k].FirstWritten?
    ensures var d, e, f := Reach(actions), Next(Reach(actions), Advance(k)), Reach(actions).txs[k].f;
            && f.session in d.rows && d.rows[f.session].user == f.user && d.rows[f.session].hmac.None?
            && RowRenewed(d, e, f.session, f.user, f.token, f.now, f.refreshTtl)
            && e.used == d.used && e.log == d.log + [LogFirst(f.session)]
  {
    ReachableInv(actions);
    TxFacts(Reach(actions), k);
  }

  /** A token that no session holds: unknown unless recorded for this chain, else soft within the grace period, else the chain goes. */
  lemma LookupDecides(d: Db, k: nat)
    requires k in d.txs && d.txs[k].Lookup?
    ensures var a, t := d.txs[k].a, Next(d, Advance(k)).txs[k];
            var recorded := a.before in d.used && d.used[a.before].user == a.user && d.used[a.before].session == a.session;
            && (t == Ended(WasUnknown) <==> !recorded)
            && (t == Ended(WasSoft) <==> recorded && a.now <= d.used[a.before].usedAt + 1000 * a.grace)
            && (t == DeleteUsed(Target(a.user, Some(a.session)), true) <==>
                recorded && a.now > d.used[a.before].usedAt + 1000 * a.grace)
  {
  }

  lemma HolderIsAlone(d: Db, k: nat)
    requires Inv(d) && k in d.txs && d.txs[k].Locked?
    ensures d.txs[k].a.before !in d.used && !Inserting(d, k, d.txs[k].a.before)
  {
    var a := d.txs[k].a;
    TxFacts(d, k);
    assert d.rows[a.session].hmac == Some(a.before);
    forall j | j in d.txs && j != k && (d.txs[j].Inserted? || d.txs[j].Renewed?) ensures d.txs[j].a.before != a.before {
      TxFacts(d, j);
      var b := d.txs[j].a;
      assert b.session in Holds(d.txs[j]) && a.session in Holds(d.txs[k]);
      assert d.rows[b.session].hmac == Some(b.before);
    }
  }

  /** After the row lock an unexpired rotation neither waits for nor violates the unique index on used tokens. */
  lemma InsertNeverConflicts(actions: seq<Action>, k: nat)
    requires k in Reach(actions).txs && Reach(actions).txs[k].Locked?
    ensures var d := Reach(actions);
            var a, row := d.txs[k].a, d.txs[k].row;
            Next(d, Advance(k)).txs[k] ==
            if a.now >= row.sessionExpires || a.now >= row.refreshExpires then Ended(WasExpired) else Inserted(a, row)
  {
    ReachableInv(actions);
    HolderIsAlone(Reach(actions), k);
  }

  /**
   A chain deletion that reaches its second statement fails on the foreign key exactly when a used
   token of a session it is about to delete was not in the first statement's snapshot; every such
   token was rotated after that snapshot.
   */
  lemma DeletionFailsExactly(actions: seq<Action>, k: nat)
    requires k in Reach(actions).txs && Reach(actions).txs[k].AwaitRows?
    requires FreeFor(Reach(actions), k, Reach(actions).txs[k].rows)
    ensures var d := Reach(actions);
            var t := d.txs[k];
            && (Next(d, Advance(k)).txs[k] == Ended(Aborted) <==>
                exists x :: x in d.used && x !in t.gone && d.used[x].session in t.rows)
            && (forall x :: x in d.used && x !in t.gone && Hits(t.target, d.used[x].user, d.used[x].session) ==>
                  RotatedSince(d.log, t.since, x))
  {
    ReachableInv(actions);
    var d := Reach(actions);
    TxFacts(d, k);
    if x :| x in d.used && x !in d.txs[k].gone && d.used[x].session in d.txs[k].rows {
      assert d.used[x].session in d.rows;
      assert Referenced(d, d.txs[k].gone, d.txs[k].rows * d.rows.Keys);
    }
  }

  // ---------- the race, concretely ----------

  const RACE_ROW := Row(7, Some(100), 900_000, 900_000)
  const RACE_ROTATION := RotateArgs(100, 101, 7, 1, 1000, 300, 15, 3600, None, None)
  const RACE_TARGET := Target(7, Some(1))

  /** A rotation that commits between the two statements of an invalidation makes the invalidation fail. */
  const RACE := [
    Insert(1, RACE_ROW),
    Begin(0, DeleteUsed(RACE_TARGET, false)), Begin(1, Select(RACE_ROTATION)),
    Advance(0), Advance(0),
    Advance(1), Advance(1), Advance(1), Advance(1), Advance(1),
    Advance(0), Advance(0)
  ]

  lemma ReachTo(actions: seq<Action>, i: nat, d: Db, e: Db)
    requires i < |actions| && Reach(actions[..i]) == d && Next(d, actions[i]) == e
    ensures Reach(actions[..i + 1]) == e
  {
    assert actions[..i + 1][..i] == actions[..i];
  }

  lemma TwoSteps(actions: seq<Action>, i: nat, d: Db, e: Db, f: Db)
    requires i + 1 < |actions| && Reach(actions[..i]) == d && Next(d, actions[i]) == e && Next(e, actions[i + 1]) == f
    ensures Reach(actions[..i + 2]) == f
  {
    ReachTo(actions, i, d, e);
    ReachTo(actions, i + 1, e, f);
  }

  /** One transaction has deleted the used tokens it saw (none); the other is about to rotate. */
  const RACE_FORK :=
    Db(map[1 := RACE_ROW], map[], map[0 := DeleteRows(RACE_TARGET, false, 1, {}), 1 := Select(RACE_ROTATION)],
       {100, 101}, map[1 := RACE_ROW], [LogCreated(1)])

  const RACE_RESULT := WasRotated(301_000, 900_000)

  /** The rotation has committed. */
  const RACE_ROTATED :=
    Db(map[1 := RotatedRow(RACE_ROW, RACE_ROTATION)], map[100 := Spending(7, 1, 1000, 3_601_000)],
       map[0 := DeleteRows(RACE_TARGET, false, 1, {}), 1 := Ended(RACE_RESULT)],
       {100, 101}, map[1 := RACE_ROW], [LogCreated(1), LogRotated(100, 1)])

  const RACE_INSERTED := Db(map[1 := RACE_ROW], map[], map[], {100}, map[1 := RACE_ROW], [LogCreated(1)])
  const RACE_LOGOUT := Put(RACE_INSERTED, 0, DeleteUsed(RACE_TARGET, false))
  const RACE_BOTH := Put(RACE_LOGOUT.(minted := {100, 101}), 1, Select(RACE_ROTATION))
  const RACE_SNAPSHOT := Put(RACE_BOTH, 0, AwaitUsed(RACE_TARGET, false, 1, {}))

  lemma RaceBegins()
    ensures Next(START, RACE[0]) == RACE_INSERTED
    ensures Next(RACE_INSERTED, RACE[1]) == RACE_LOGOUT
    ensures Next(RACE_LOGOUT, RACE[2]) == RACE_BOTH
  {
    assert {100} + {101} == {100, 101};
  }

  lemma RaceSnapshots()
    ensures Next(RACE_BOTH, RACE[3]) == RACE_SNAPSHOT
    ensures Next(RACE_SNAPSHOT, RACE[4]) == RACE_FORK
  {
    assert UsedHit(RACE_BOTH, RACE_TARGET) == {};
    assert RACE_SNAPSHOT.txs[0] == AwaitUsed(RACE_TARGET, false, 1, {});
    assert {} * RACE_SNAPSHOT.used.Keys == {};
    assert RACE_FORK.txs == RACE_SNAPSHOT.txs[0 := DeleteRows(RACE_TARGET, false, 1, {})];
  }

  lemma RaceStarts()
    ensures Reach(RACE[..3]) == RACE_BOTH
  {
    RaceBegins();
    assert RACE[..0] == [];
    ReachTo(RACE, 0, START, RACE_INSERTED);
    ReachTo(RACE, 1, RACE_INSERTED, RACE_LOGOUT);
    ReachTo(RACE, 2, RACE_LOGOUT, RACE_BOTH);
  }

  lemma RaceForks()
    ensures Reach(RACE[..5]) == RACE_FORK
  {
    RaceStarts();
    RaceSnapshots();
    TwoSteps(RACE, 3, RACE_BOTH, RACE_SNAPSHOT, RACE_FORK);
  }

  lemma RaceLocks()
    ensures Next(RACE_FORK, Advance(1)) == Put(RACE_FORK, 1, AwaitRow(RACE_ROTATION))
    ensures Next(Put(RACE_FORK, 1, AwaitRow(RACE_ROTATION)), Advance(1)) == Put(RACE_FORK, 1, Locked(RACE_ROTATION, RACE_ROW))
  {
  }

  lemma RaceWrites()
    ensures Next(Put(RACE_FORK, 1, Locked(RACE_ROTATION, RACE_ROW)), Advance(1)) ==
            Put(RACE_FORK, 1, Inserted(RACE_ROTATION, RACE_ROW))
    ensures Next(Put(RACE_FORK, 1, Inserted(RACE_ROTATION, RACE_ROW)), Advance(1)) ==
            Put(RACE_FORK, 1, Renewed(RACE_ROTATION, RACE_ROW))
    ensures Next(Put(RACE_FORK, 1, Renewed(RACE_ROTATION, RACE_ROW)), Advance(1)) == RACE_ROTATED
  {
  }

  lemma RaceReachesLock()
    ensures Reach(RACE[..7]) == Put(RACE_FORK, 1, Locked(RACE_ROTATION, RACE_ROW))
  {
    RaceForks();
    RaceLocks();
    ReachTo(RACE, 5, RACE_FORK, Put(RACE_FORK, 1, AwaitRow(RACE_ROTATION)));
    ReachTo(RACE, 6, Put(RACE_FORK, 1, AwaitRow(RACE_ROTATION)), Put(RACE_FORK, 1, Locked(RACE_ROTATION, RACE_ROW)));
  }

  lemma RaceRotates()
    ensures Reach(RACE[..10]) == RACE_ROTATED
  {
    RaceReachesLock();
    RaceWrites();
    var locked := Put(RACE_FORK, 1, Locked(RACE_ROTATION, RACE_ROW));
    var inserted := Put(RACE_FORK, 1, Inserted(RACE_ROTATION, RACE_ROW));
    var renewed := Put(RACE_FORK, 1, Renewed(RACE_ROTATION, RACE_ROW));
    assert RACE[7] == Advance(1) && RACE[8] == Advance(1) && RACE[9] == Advance(1);
    TwoSteps(RACE, 7, locked, inserted, renewed);
    ReachTo(RACE, 9, renewed, RACE_ROTATED);
  }

  const RACE_WAITING := Put(RACE_ROTATED, 0, AwaitRows(RACE_TARGET, false, 1, {}, {1}))

  lemma RaceFails()
    ensures Next(RACE_ROTATED, Advance(0)) == RACE_WAITING
    ensures Next(RACE_WAITING, Advance(0)) == Put(RACE_WAITING, 0, Ended(Aborted))
  {
    assert RowsHit(RACE_ROTATED, RACE_TARGET) == {1};
    assert 100 in RACE_WAITING.used && RACE_WAITING.used[100].session in {1} * RACE_WAITING.rows.Keys;
    assert Referenced(RACE_WAITING, {}, {1} * RACE_WAITING.rows.Keys);
  }

  /** The two forms differ here: with atomic steps the logout would have removed the chain. */
  lemma LogoutCanLoseToRotation()
    ensures var d := Reach(RACE);
            && d.txs.Keys == {0, 1} && d.txs[0] == Ended(Aborted)
            && d.rows == RACE_ROTATED.rows && d.used == RACE_ROTATED.used
  {
    RaceRotates();
    RaceFails();
    ReachTo(RACE, 10, RACE_ROTATED, RACE_WAITING);
    ReachTo(RACE, 11, RACE_WAITING, Put(RACE_WAITING, 0, Ended(Aborted)));
    assert RACE[..12] == RACE;
  }
}
