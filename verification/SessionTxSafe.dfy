/** The invariant of the interleaved session chain. */
module SessionTxSafe {
  import opened Prelude
  import opened SessionStore
  import opened SessionTx

  predicate RotatedSince(log: seq<Entry>, since: nat, token: Token) {
    exists i :: since <= i < |log| && log[i].LogRotated? && log[i].token == token
  }

  /** Every used token of the target was already seen by the deletion, or was committed after its snapshot. */
  ghost predicate SeenOrLater(d: Db, t: Target, since: nat, gone: set<Token>) {
    since <= |d.log| && gone <= SpentIn(d.log)
    && forall x :: x in d.used && Hits(t, d.used[x].user, d.used[x].session) && x !in gone ==> RotatedSince(d.log, since, x)
  }

  ghost predicate OwnsRow(d: Db, a: RotateArgs, row: Row) {
    && a.session in d.rows && d.rows[a.session] == row
    && row.hmac == Some(a.before) && row.user == a.user
  }

  ghost predicate CoversRows(d: Db, t: Target, rows: set<Id>) {
    t.session.Some? ==> forall i :: i in d.rows && i == t.session.value ==> i in rows
  }

  ghost predicate CoversUsed(d: Db, gone: set<Token>, rows: set<Id>) {
    forall x :: x in d.used && d.used[x].session in rows ==> x in gone
  }

  /** The refresh expiry that a first refresh has computed, from the absolute expiry the session was created with. */
  ghost predicate FirstTimes(d: Db, f: FirstArgs, expires: int) {
    f.session in d.created && IsRenewed(expires, f.now, f.refreshTtl, d.created[f.session].sessionExpires)
  }

  /** What the local state of a transaction says about the tables. */
  ghost predicate Fits(d: Db, t: Tx) {
    match t
    case Locked(a, row) => OwnsRow(d, a, row)
    case Inserted(a, row) => OwnsRow(d, a, row) && a.now < row.sessionExpires && a.now < row.refreshExpires
    case Renewed(a, row) => OwnsRow(d, a, row) && a.now < row.sessionExpires && a.now < row.refreshExpires
    case FirstUpdate(f, expires) => FirstTimes(d, f, expires)
    case AwaitFirst(f, expires) => FirstTimes(d, f, expires)
    case FirstWritten(f, expires) => Unissued(d, f) && FirstTimes(d, f, expires)
    case DeleteUsed(t, _) => Names(d, t)
    case AwaitUsed(t, _, since, gone) => Names(d, t) && SeenOrLater(d, t, since, gone)
    case DeleteRows(t, _, since, gone) => Names(d, t) && SeenOrLater(d, t, since, gone)
    case AwaitRows(t, _, since, gone, rows) =>
      Names(d, t) && SeenOrLater(d, t, since, gone) && CoversRows(d, t, rows)
    case Deleted(t, _, since, gone, rows) =>
      && Names(d, t) && SeenOrLater(d, t, since, gone)
      && CoversRows(d, t, rows) && rows <= d.rows.Keys && CoversUsed(d, gone, rows)
    case _ => true
  }

  ghost predicate TxsFit(d: Db) {
    forall k :: k in d.txs ==> Fits(d, d.txs[k])
  }

  ghost predicate LocksApart(d: Db) {
    forall j, k :: j in d.txs && k in d.txs && j != k ==> Holds(d.txs[j]) !! Holds(d.txs[k])
  }

  predicate LiveToken(d: Db, token: Token) {
    exists i :: i in d.rows && d.rows[i].hmac == Some(token)
  }

  /** Tokens that were minted but not yet committed. */
  ghost predicate PendingFresh(d: Db) {
    && (forall k :: k in d.txs ==> Pending(d.txs[k]) <= d.minted && Pending(d.txs[k]) !! SpentIn(d.log))
    && (forall k, x :: k in d.txs && x in Pending(d.txs[k]) ==> !LiveToken(d, x))
    && (forall j, k :: j in d.txs && k in d.txs && j != k ==> Pending(d.txs[j]) !! Pending(d.txs[k]))
  }

  ghost predicate LiveFresh(d: Db) {
    && (forall i :: i in d.rows && d.rows[i].hmac.Some? ==>
                      d.rows[i].hmac.value in d.minted && d.rows[i].hmac.value !in SpentIn(d.log))
    && (forall i, j :: i in d.rows && j in d.rows && d.rows[i].hmac.Some? && d.rows[i].hmac == d.rows[j].hmac ==> i == j)
  }

  ghost predicate RowsKnown(d: Db) {
    forall i :: i in d.rows ==>
                  && i in d.created && d.created[i].user == d.rows[i].user
                  && d.created[i].sessionExpires == d.rows[i].sessionExpires
                  && (d.created[i].hmac.Some? ==> d.rows[i].hmac.Some?)
                  && (d.rows[i].hmac.Some? ==> d.rows[i].refreshExpires <= d.rows[i].sessionExpires)
  }

  ghost predicate UsedKnown(d: Db) {
    forall x :: x in d.used ==> d.used[x].session in d.rows && d.rows[d.used[x].session].user == d.used[x].user
  }

  ghost predicate Ledger(d: Db) {
    && d.used.Keys == SpentIn(d.log) - RemovedIn(d.log)
    && SpentIn(d.log) <= d.minted
    && RemovedIn(d.log) <= SpentIn(d.log)
  }

  ghost predicate Closed(d: Db) {
    forall i :: i in ClosedIn(d.log) ==> i in d.created && i !in d.rows
  }

  ghost predicate FirstDone(d: Db) {
    forall i :: i in FirstIn(d.log) ==>
                  i in d.created && d.created[i].hmac.None? && (i in d.rows ==> d.rows[i].hmac.Some?)
  }

  /** Nothing is rotated twice, and nothing rotated after its session was closed. */
  ghost predicate LogSound(log: seq<Entry>) {
    && (forall i, j :: 0 <= i < j < |log| && log[i].LogRotated? && log[j].LogRotated? ==> log[i].token != log[j].token)
    && (forall i, j :: 0 <= i < j < |log| && log[i].LogFirst? && log[j].LogFirst? ==> log[i].session != log[j].session)
    && (forall i, j :: 0 <= i < j < |log| && (log[j].LogRotated? || log[j].LogFirst?) ==> log[j].session !in ClosedBy(log[i]))
  }

  ghost predicate Tables(d: Db) {
    LiveFresh(d) && RowsKnown(d) && UsedKnown(d) && Ledger(d) && Closed(d) && FirstDone(d) && LogSound(d.log)
  }

  ghost predicate Inv(d: Db) {
    Tables(d) && TxsFit(d) && LocksApart(d) && PendingFresh(d)
  }

  // ---------- steps that only move one transaction ----------

  /** A statement that changes no table keeps the invariant if its transaction's own state is right. */
  lemma LocalStep(d: Db, k: nat, t: Tx)
    requires Inv(d) && k in d.txs && Fits(d, t)
    requires Pending(t) <= Pending(d.txs[k])
    requires FreeFor(d, k, Holds(t))
    ensures Inv(Put(d, k, t))
  {
    var e := Put(d, k, t);
    LocalPending(d, k, t);
    LocalLocks(d, k, t);
    forall j | j in e.txs ensures Fits(e, e.txs[j]) {
      SameTablesSameFit(d, e, e.txs[j]);
    }
  }

  lemma LocalPending(d: Db, k: nat, t: Tx)
    requires PendingFresh(d) && k in d.txs && Pending(t) <= Pending(d.txs[k])
    ensures PendingFresh(Put(d, k, t))
  {
    var e := Put(d, k, t);
    assert forall x :: LiveToken(e, x) == LiveToken(d, x);
  }

  lemma LocalLocks(d: Db, k: nat, t: Tx)
    requires LocksApart(d) && k in d.txs && FreeFor(d, k, Holds(t))
    ensures LocksApart(Put(d, k, t))
  {
  }

  /** A commit releases its locks and leaves the other transactions alone. */
  lemma CommitKeeps(d: Db, k: nat, e: Db, result: TxResult)
    requires Inv(d) && k in d.txs && e.txs == d.txs[k := Ended(result)]
    requires Tables(e) && PendingFresh(e)
    requires forall j :: j in d.txs && j != k ==> Fits(e, d.txs[j])
    ensures Inv(e)
  {
    assert TxsFit(e);
    CommitLocks(d, k, e, result);
  }

  lemma CommitLocks(d: Db, k: nat, e: Db, result: TxResult)
    requires LocksApart(d) && k in d.txs && e.txs == d.txs[k := Ended(result)]
    ensures LocksApart(e)
  {
  }

  /** A transaction of a sound state and what it holds against the others. */
  lemma TxFacts(d: Db, k: nat)
    requires Inv(d) && k in d.txs
    ensures Fits(d, d.txs[k])
    ensures forall j :: j in d.txs && j != k ==> Fits(d, d.txs[j]) && Holds(d.txs[j]) !! Holds(d.txs[k])
    ensures Tables(d) && PendingFresh(d)
  {
  }

  lemma SameTablesSameFit(d: Db, e: Db, t: Tx)
    requires e.rows == d.rows && e.used == d.used && e.created == d.created && e.log == d.log && Fits(d, t)
    ensures Fits(e, t)
  {
  }

  lemma DeletionIsHeld(d: Db, k: nat, t: Target, hard: bool, since: nat, gone: set<Token>, rows: set<Id>)
    requires Inv(d) && k in d.txs && d.txs[k] == AwaitRows(t, hard, since, gone, rows)
    requires FreeFor(d, k, rows) && !Referenced(d, gone, rows * d.rows.Keys)
    ensures Inv(Put(d, k, Deleted(t, hard, since, gone, rows * d.rows.Keys)))
  {
    assert Fits(d, d.txs[k]);
    LocalStep(d, k, Deleted(t, hard, since, gone, rows * d.rows.Keys));
  }

  lemma SnapshotCovers(d: Db, k: nat, t: Target, hard: bool)
    requires Inv(d) && k in d.txs && d.txs[k] == DeleteUsed(t, hard)
    ensures Inv(Put(d, k, AwaitUsed(t, hard, |d.log|, UsedHit(d, t))))
  {
    assert Fits(d, d.txs[k]);
    LocalStep(d, k, AwaitUsed(t, hard, |d.log|, UsedHit(d, t)));
  }

  lemma RowsSnapshotCovers(d: Db, k: nat, t: Target, hard: bool, since: nat, gone: set<Token>)
    requires Inv(d) && k in d.txs && d.txs[k] == DeleteRows(t, hard, since, gone)
    ensures Inv(Put(d, k, AwaitRows(t, hard, since, gone, RowsHit(d, t))))
  {
    assert Fits(d, d.txs[k]);
    LocalStep(d, k, AwaitRows(t, hard, since, gone, RowsHit(d, t)));
  }

  lemma HardDeletionNames(d: Db, a: RotateArgs)
    requires Inv(d) && a.before in d.used && d.used[a.before].user == a.user && d.used[a.before].session == a.session
    ensures Names(d, Target(a.user, Some(a.session)))
  {
  }

  /** The statements of a rotation up to its commit. */
  lemma RotationStep(d: Db, k: nat)
    requires Inv(d) && k in d.txs
    requires d.txs[k].Select? || d.txs[k].AwaitRow? || d.txs[k].Locked? || d.txs[k].Inserted? || d.txs[k].Lookup?
    ensures Inv(AdvanceTx(d, k))
  {
    match d.txs[k]
    case Select(a) => LocalStep(d, k, if Selected(d, a) then AwaitRow(a) else Lookup(a));
    case AwaitRow(a) =>
      if FreeFor(d, k, {a.session}) {
        LocalStep(d, k, if Selected(d, a) then Locked(a, d.rows[a.session]) else Lookup(a));
      }
    case Locked(a, row) => LockedStep(d, k, a, row);
    case Inserted(a, row) =>
      assert Fits(d, d.txs[k]);
      HolderStays(d, k);
      LocalStep(d, k, Renewed(a, row));
    case Lookup(a) => LookupStep(d, k, a);
  }

  lemma LockedStep(d: Db, k: nat, a: RotateArgs, row: Row)
    requires Inv(d) && k in d.txs && d.txs[k] == Locked(a, row)
    ensures Inv(AdvanceTx(d, k))
  {
    assert Fits(d, d.txs[k]);
    HolderStays(d, k);
    if a.now >= row.sessionExpires || a.now >= row.refreshExpires {
      LocalStep(d, k, Ended(WasExpired));
    } else if !Inserting(d, k, a.before) {
      LocalStep(d, k, if a.before in d.used then Ended(Aborted) else Inserted(a, row));
    }
  }

  lemma LookupStep(d: Db, k: nat, a: RotateArgs)
    requires Inv(d) && k in d.txs && d.txs[k] == Lookup(a)
    ensures Inv(AdvanceTx(d, k))
  {
    if a.before in d.used && d.used[a.before].user == a.user && d.used[a.before].session == a.session {
      if WithinGrace(d.used[a.before].usedAt, a.now, a.grace) {
        LocalStep(d, k, Ended(WasSoft));
      } else {
        HardDeletionNames(d, a);
        LocalStep(d, k, DeleteUsed(Target(a.user, Some(a.session)), true));
      }
    } else {
      LocalStep(d, k, Ended(WasUnknown));
    }
  }

  lemma HolderStays(d: Db, k: nat)
    requires LocksApart(d) && k in d.txs
    ensures FreeFor(d, k, Holds(d.txs[k]))
  {
  }

  /** The statements of a deletion up to its commit. */
  lemma DeletionStep(d: Db, k: nat)
    requires Inv(d) && k in d.txs
    requires d.txs[k].DeleteUsed? || d.txs[k].AwaitUsed? || d.txs[k].DeleteRows? || d.txs[k].AwaitRows?
    ensures Inv(AdvanceTx(d, k))
  {
    assert Fits(d, d.txs[k]);
    match d.txs[k]
    case DeleteUsed(t, hard) => SnapshotCovers(d, k, t, hard);
    case AwaitUsed(t, hard, since, gone) => LocalStep(d, k, DeleteRows(t, hard, since, gone * d.used.Keys));
    case DeleteRows(t, hard, since, gone) => RowsSnapshotCovers(d, k, t, hard, since, gone);
    case AwaitRows(t, hard, since, gone, rows) =>
      LocalStep(d, k, Ended(Aborted));
      if FreeFor(d, k, rows) && !Referenced(d, gone, rows * d.rows.Keys) {
        DeletionIsHeld(d, k, t, hard, since, gone, rows);
      }
  }

  lemma FirstStep(d: Db, k: nat)
    requires Inv(d) && k in d.txs
    requires d.txs[k].FirstRead? || d.txs[k].FirstUpdate? || d.txs[k].AwaitFirst?
    ensures Inv(AdvanceTx(d, k))
  {
    var f := d.txs[k].f;
    if !Unissued(d, f) {
      LocalStep(d, k, Ended(WasRefused));
    } else {
      FirstAllowed(d, k, f);
    }
  }

  lemma FirstAllowed(d: Db, k: nat, f: FirstArgs)
    requires Inv(d) && k in d.txs && Unissued(d, f)
    requires d.txs[k] == FirstRead(f) || ((d.txs[k].FirstUpdate? || d.txs[k].AwaitFirst?) && d.txs[k].f == f)
    ensures Inv(AdvanceTx(d, k))
  {
    TxFacts(d, k);
    match d.txs[k]
    case FirstRead(_) =>
      LocalStep(d, k, FirstUpdate(f, RotateSessionTimes(f.now, d.rows[f.session].sessionExpires, f.refreshTtl).0));
    case FirstUpdate(_, expires) => LocalStep(d, k, AwaitFirst(f, expires));
    case AwaitFirst(_, expires) =>
      if FreeFor(d, k, {f.session}) {
        LocalStep(d, k, FirstWritten(f, expires));
      }
  }

  // ---------- commits ----------

  lemma LaterIsKept(log: seq<Entry>, e: Entry)
    ensures forall since: nat, x :: RotatedSince(log, since, x) ==> RotatedSince(log + [e], since, x)
  {
    forall since: nat, x | RotatedSince(log, since, x) ensures RotatedSince(log + [e], since, x) {
      var i :| since <= i < |log| && log[i].LogRotated? && log[i].token == x;
      assert (log + [e])[i] == log[i];
    }
  }

  lemma SoundSnoc(log: seq<Entry>, e: Entry)
    requires LogSound(log)
    requires e.LogRotated? ==> e.token !in SpentIn(log) && e.session !in ClosedIn(log)
    requires e.LogFirst? ==> e.session !in FirstIn(log) && e.session !in ClosedIn(log)
    ensures LogSound(log + [e])
  {
    var all := log + [e];
    forall i, j | 0 <= i < j < |all| && all[i].LogRotated? && all[j].LogRotated? ensures all[i].token != all[j].token {
      if j == |log| {
        assert log[i].token in SpentIn(log);
      }
    }
    forall i, j | 0 <= i < j < |all| && all[i].LogFirst? && all[j].LogFirst? ensures all[i].session != all[j].session {
      if j == |log| {
        assert log[i].session in FirstIn(log);
      }
    }
    forall i, j | 0 <= i < j < |all| && (all[j].LogRotated? || all[j].LogFirst?) ensures all[j].session !in ClosedBy(all[i]) {
      if j == |log| {
        assert forall x :: x in ClosedBy(log[i]) ==> x in ClosedIn(log);
      }
    }
  }

  /** Deletions that took their snapshot earlier see the new used token as later. */
  lemma RotationSeenLater(d: Db, e: Db, a: RotateArgs, t: Target, since: nat, gone: set<Token>)
    requires SeenOrLater(d, t, since, gone)
    requires e.log == d.log + [LogRotated(a.before, a.session)]
    requires forall x :: x in e.used && x != a.before ==> x in d.used && e.used[x] == d.used[x]
    ensures SeenOrLater(e, t, since, gone)
  {
    LogSnoc(d.log, LogRotated(a.before, a.session));
    LaterIsKept(d.log, LogRotated(a.before, a.session));
    assert e.log[|d.log|] == LogRotated(a.before, a.session);
    assert RotatedSince(e.log, since, a.before);
  }

  lemma RotationFits(d: Db, k: nat, a: RotateArgs, row: Row, t: Tx)
    requires OwnsRow(d, a, row) && Fits(d, t) && Holds(t) !! {a.session}
    ensures Fits(CommitRotation(d, k, a, row), t)
  {
    var e := CommitRotation(d, k, a, row);
    if t.AwaitUsed? || t.DeleteRows? || t.AwaitRows? || t.Deleted? {
      RotationSeenLater(d, e, a, t.target, t.since, t.gone);
    }
  }

  lemma RotationLiveTokens(d: Db, k: nat, a: RotateArgs, row: Row, x: Token)
    requires OwnsRow(d, a, row) && LiveToken(CommitRotation(d, k, a, row), x)
    ensures x == a.after || LiveToken(d, x)
  {
  }

  lemma RotationPending(d: Db, k: nat, a: RotateArgs, row: Row)
    requires PendingFresh(d) && OwnsRow(d, a, row) && k in d.txs && d.txs[k] == Renewed(a, row)
    ensures PendingFresh(CommitRotation(d, k, a, row))
  {
    var e := CommitRotation(d, k, a, row);
    LogSnoc(d.log, LogRotated(a.before, a.session));
    assert a.after in Pending(d.txs[k]);
    assert LiveToken(d, a.before);
    assert Pending(e.txs[k]) == {};
    forall j, x | j in e.txs && x in Pending(e.txs[j]) ensures !LiveToken(e, x) && x !in SpentIn(e.log) && x in e.minted {
      assert j != k && x in Pending(d.txs[j]);
      if LiveToken(e, x) {
        RotationLiveTokens(d, k, a, row, x);
      }
    }
  }

  lemma RotationLive(d: Db, k: nat, a: RotateArgs, row: Row)
    requires LiveFresh(d) && PendingFresh(d) && OwnsRow(d, a, row) && k in d.txs && d.txs[k] == Renewed(a, row)
    ensures LiveFresh(CommitRotation(d, k, a, row))
  {
    LogSnoc(d.log, LogRotated(a.before, a.session));
    assert a.after in Pending(d.txs[k]) && !LiveToken(d, a.after);
    assert LiveToken(d, a.before);
  }

  lemma RotationKnown(d: Db, k: nat, a: RotateArgs, row: Row)
    requires RowsKnown(d) && UsedKnown(d) && OwnsRow(d, a, row)
    ensures RowsKnown(CommitRotation(d, k, a, row)) && UsedKnown(CommitRotation(d, k, a, row))
  {
  }

  lemma RotationLedger(d: Db, k: nat, a: RotateArgs, row: Row)
    requires LiveFresh(d) && Ledger(d) && OwnsRow(d, a, row)
    ensures Ledger(CommitRotation(d, k, a, row))
  {
  }

  lemma RotationLog(d: Db, k: nat, a: RotateArgs, row: Row)
    requires LiveFresh(d) && Closed(d) && FirstDone(d) && LogSound(d.log) && OwnsRow(d, a, row)
    ensures var e := CommitRotation(d, k, a, row); Closed(e) && FirstDone(e) && LogSound(e.log)
  {
    LogSnoc(d.log, LogRotated(a.before, a.session));
    SoundSnoc(d.log, LogRotated(a.before, a.session));
  }

  lemma RotationCommits(d: Db, k: nat)
    requires Inv(d) && k in d.txs && d.txs[k].Renewed?
    ensures Inv(AdvanceTx(d, k))
  {
    var a, row := d.txs[k].a, d.txs[k].row;
    var e := CommitRotation(d, k, a, row);
    TxFacts(d, k);
    RotationLive(d, k, a, row);
    RotationKnown(d, k, a, row);
    RotationLedger(d, k, a, row);
    RotationLog(d, k, a, row);
    RotationPending(d, k, a, row);
    forall j | j in d.txs && j != k ensures Fits(e, d.txs[j]) {
      RotationFits(d, k, a, row, d.txs[j]);
    }
    CommitKeeps(d, k, e, WasRotated(RotatedRow(row, a).refreshExpires, row.sessionExpires));
  }

  lemma DeletionSeenLater(d: Db, e: Db, entry: Entry, t: Target, since: nat, gone: set<Token>)
    requires SeenOrLater(d, t, since, gone)
    requires e.log == d.log + [entry]
    requires forall x :: x in e.used ==> x in d.used && e.used[x] == d.used[x]
    ensures SeenOrLater(e, t, since, gone)
  {
    LogSnoc(d.log, entry);
    LaterIsKept(d.log, entry);
  }

  /** Removing rows that nobody else holds leaves the other transactions right. */
  lemma RemovalFits(d: Db, e: Db, entry: Entry, gone: set<Token>, rows: set<Id>, t: Tx)
    requires Fits(d, t) && Holds(t) !! rows
    requires e.rows == d.rows - rows && e.used == d.used - gone && e.created == d.created && e.log == d.log + [entry]
    ensures Fits(e, t)
  {
    if t.AwaitUsed? || t.DeleteRows? || t.AwaitRows? || t.Deleted? {
      DeletionSeenLater(d, e, entry, t.target, t.since, t.gone);
    }
  }

  lemma RemovalRows(d: Db, e: Db, entry: Entry, gone: set<Token>, rows: set<Id>)
    requires LiveFresh(d) && RowsKnown(d) && UsedKnown(d)
    requires e.rows == d.rows - rows && e.used == d.used - gone && e.created == d.created && e.minted == d.minted
    requires e.log == d.log + [entry] && !entry.LogRotated? && CoversUsed(d, gone, rows)
    ensures LiveFresh(e) && RowsKnown(e) && UsedKnown(e)
  {
  }

  lemma RemovalLog(d: Db, e: Db, entry: Entry, gone: set<Token>, rows: set<Id>)
    requires Ledger(d) && Closed(d) && FirstDone(d) && LogSound(d.log)
    requires e.rows == d.rows - rows && e.used == d.used - gone && e.created == d.created && e.minted == d.minted
    requires e.log == d.log + [entry] && RemovedBy(entry) == gone && !entry.LogRotated? && !entry.LogFirst?
    requires gone <= SpentIn(d.log)
    requires forall i :: i in ClosedBy(entry) ==> i in d.created && i !in e.rows
    ensures Ledger(e) && Closed(e) && FirstDone(e) && LogSound(e.log)
  {
    LogSnoc(d.log, entry);
    SoundSnoc(d.log, entry);
  }

  lemma RemovalTables(d: Db, e: Db, entry: Entry, gone: set<Token>, rows: set<Id>)
    requires Tables(d)
    requires e.rows == d.rows - rows && e.used == d.used - gone && e.created == d.created && e.minted == d.minted
    requires e.log == d.log + [entry] && RemovedBy(entry) == gone && !entry.LogRotated? && !entry.LogFirst?
    requires gone <= SpentIn(d.log) && CoversUsed(d, gone, rows)
    requires forall i :: i in ClosedBy(entry) ==> i in d.created && i !in e.rows
    ensures Tables(e)
  {
    RemovalRows(d, e, entry, gone, rows);
    RemovalLog(d, e, entry, gone, rows);
  }

  lemma RemovalPending(d: Db, e: Db, entry: Entry)
    requires PendingFresh(d)
    requires e.rows.Keys <= d.rows.Keys && (forall i :: i in e.rows ==> e.rows[i] == d.rows[i]) && e.minted == d.minted
    requires e.log == d.log + [entry] && !entry.LogRotated?
    requires e.txs.Keys == d.txs.Keys && forall j :: j in d.txs ==> e.txs[j] == d.txs[j] || Pending(e.txs[j]) == {}
    ensures PendingFresh(e)
  {
    LogSnoc(d.log, entry);
    forall x | LiveToken(e, x) ensures LiveToken(d, x) {
    }
    forall j, x | j in e.txs && x in Pending(e.txs[j]) ensures !LiveToken(e, x) {
      assert x in Pending(d.txs[j]);
    }
  }

  lemma DeletionReady(d: Db, x: Tx)
    requires Tables(d) && x.Deleted? && Fits(d, x)
    ensures x.gone <= SpentIn(d.log) && CoversUsed(d, x.gone, x.rows)
    ensures forall i :: i in ClosedBy(LogDeleted(x.target, x.gone, x.rows)) ==> i in d.created && i !in d.rows - x.rows
  {
  }

  lemma DeletionOthers(d: Db, k: nat, e: Db)
    requires TxsFit(d) && LocksApart(d) && k in d.txs && d.txs[k].Deleted?
    requires e.rows == d.rows - d.txs[k].rows && e.used == d.used - d.txs[k].gone && e.created == d.created
    requires e.log == d.log + [LogDeleted(d.txs[k].target, d.txs[k].gone, d.txs[k].rows)]
    ensures forall j :: j in d.txs && j != k ==> Fits(e, d.txs[j])
  {
    var x := d.txs[k];
    forall j | j in d.txs && j != k ensures Fits(e, d.txs[j]) {
      RemovalFits(d, e, LogDeleted(x.target, x.gone, x.rows), x.gone, x.rows, d.txs[j]);
    }
  }

  lemma DeletionEffect(d: Db, k: nat)
    requires k in d.txs && d.txs[k].Deleted?
    ensures var x := d.txs[k]; AdvanceTx(d, k) == CommitDeletion(d, k, x.target, x.hard, x.gone, x.rows)
  {
  }

  lemma DeletionTables(d: Db, k: nat)
    requires Tables(d) && PendingFresh(d) && k in d.txs && d.txs[k].Deleted? && Fits(d, d.txs[k])
    ensures Tables(AdvanceTx(d, k)) && PendingFresh(AdvanceTx(d, k))
  {
    DeletionEffect(d, k);
    CommittedDeletion(d, k, d.txs[k]);
  }

  lemma CommittedDeletion(d: Db, k: nat, x: Tx)
    requires Tables(d) && PendingFresh(d) && k in d.txs && x == d.txs[k] && x.Deleted? && Fits(d, x)
    ensures var e := CommitDeletion(d, k, x.target, x.hard, x.gone, x.rows); Tables(e) && PendingFresh(e)
  {
    var e := CommitDeletion(d, k, x.target, x.hard, x.gone, x.rows);
    var entry := LogDeleted(x.target, x.gone, x.rows);
    DeletionReady(d, x);
    RemovalTables(d, e, entry, x.gone, x.rows);
    RemovalPending(d, e, entry);
  }

  lemma DeletionCommits(d: Db, k: nat)
    requires Inv(d) && k in d.txs && d.txs[k].Deleted?
    ensures Inv(AdvanceTx(d, k))
  {
    TxFacts(d, k);
    DeletionTables(d, k);
    DeletionOthers(d, k, AdvanceTx(d, k));
    CommitKeeps(d, k, AdvanceTx(d, k), if d.txs[k].hard then WasHard else WasRemoved);
  }

  lemma SweepKeeps(d: Db, gone: set<Token>, rows: set<Id>)
    requires Inv(d) && gone <= d.used.Keys && rows <= d.rows.Keys && CoversUsed(d, gone, rows)
    requires forall j :: j in d.txs ==> Holds(d.txs[j]) !! rows
    ensures Inv(d.(rows := d.rows - rows, used := d.used - gone, log := d.log + [LogSwept(gone, rows)]))
  {
    var e := d.(rows := d.rows - rows, used := d.used - gone, log := d.log + [LogSwept(gone, rows)]);
    var entry := LogSwept(gone, rows);
    RemovalTables(d, e, entry, gone, rows);
    RemovalPending(d, e, entry);
    forall j | j in e.txs ensures Fits(e, e.txs[j]) {
      RemovalFits(d, e, entry, gone, rows, d.txs[j]);
    }
  }

  lemma FirstFits(d: Db, k: nat, f: FirstArgs, expires: int, t: Tx)
    requires Unissued(d, f) && Fits(d, t) && Holds(t) !! {f.session}
    ensures Fits(CommitFirst(d, k, f, expires), t)
  {
    var e := CommitFirst(d, k, f, expires);
    if t.AwaitUsed? || t.DeleteRows? || t.AwaitRows? || t.Deleted? {
      DeletionSeenLater(d, e, LogFirst(f.session), t.target, t.since, t.gone);
    }
  }

  lemma FirstLive(d: Db, k: nat, f: FirstArgs, expires: int)
    requires LiveFresh(d) && PendingFresh(d) && Unissued(d, f) && k in d.txs && d.txs[k] == FirstWritten(f, expires)
    ensures LiveFresh(CommitFirst(d, k, f, expires))
  {
    LogSnoc(d.log, LogFirst(f.session));
    assert f.token in Pending(d.txs[k]) && !LiveToken(d, f.token);
  }

  lemma FirstTables(d: Db, k: nat, f: FirstArgs, expires: int)
    requires Tables(d) && Unissued(d, f) && LiveFresh(CommitFirst(d, k, f, expires))
    requires f.session in d.created && expires <= d.created[f.session].sessionExpires
    ensures Tables(CommitFirst(d, k, f, expires))
  {
    FirstLog(d, k, f, expires);
  }

  lemma FirstLog(d: Db, k: nat, f: FirstArgs, expires: int)
    requires RowsKnown(d) && Ledger(d) && Closed(d) && FirstDone(d) && LogSound(d.log) && Unissued(d, f)
    ensures var e := CommitFirst(d, k, f, expires); Ledger(e) && Closed(e) && FirstDone(e) && LogSound(e.log)
  {
    FirstLedger(d, k, f, expires);
    SoundSnoc(d.log, LogFirst(f.session));
  }

  lemma FirstLedger(d: Db, k: nat, f: FirstArgs, expires: int)
    requires RowsKnown(d) && Ledger(d) && Closed(d) && FirstDone(d) && Unissued(d, f)
    ensures var e := CommitFirst(d, k, f, expires); Ledger(e) && Closed(e) && FirstDone(e)
    ensures f.session !in FirstIn(d.log) && f.session !in ClosedIn(d.log)
  {
  }

  lemma FirstLiveTokens(d: Db, k: nat, f: FirstArgs, expires: int, x: Token)
    requires Unissued(d, f) && LiveToken(CommitFirst(d, k, f, expires), x)
    ensures x == f.token || LiveToken(d, x)
  {
  }

  lemma FirstPending(d: Db, k: nat, f: FirstArgs, expires: int)
    requires PendingFresh(d) && Unissued(d, f) && k in d.txs && d.txs[k] == FirstWritten(f, expires)
    ensures PendingFresh(CommitFirst(d, k, f, expires))
  {
    var e := CommitFirst(d, k, f, expires);
    LogSnoc(d.log, LogFirst(f.session));
    assert f.token in Pending(d.txs[k]);
    assert Pending(e.txs[k]) == {};
    forall j, x | j in e.txs && x in Pending(e.txs[j]) ensures !LiveToken(e, x) && x in e.minted && x !in SpentIn(e.log) {
      assert j != k && x in Pending(d.txs[j]);
      if LiveToken(e, x) {
        FirstLiveTokens(d, k, f, expires, x);
      }
    }
  }

  lemma FirstCommits(d: Db, k: nat)
    requires Inv(d) && k in d.txs && d.txs[k].FirstWritten?
    ensures Inv(AdvanceTx(d, k))
  {
    var f, expires := d.txs[k].f, d.txs[k].refreshExpires;
    var e := CommitFirst(d, k, f, expires);
    TxFacts(d, k);
    FirstLive(d, k, f, expires);
    FirstTables(d, k, f, expires);
    FirstPending(d, k, f, expires);
    forall j | j in d.txs && j != k ensures Fits(e, d.txs[j]) {
      FirstFits(d, k, f, expires, d.txs[j]);
    }
    CommitKeeps(d, k, e, WasFirst);
  }

  // ---------- the remaining actions ----------

  lemma BeginKeeps(d: Db, k: nat, t: Tx)
    requires Inv(d) && k !in d.txs && CanBegin(d, t)
    ensures Inv(Put(d.(minted := d.minted + Pending(t)), k, t))
  {
    var e := Put(d.(minted := d.minted + Pending(t)), k, t);
    BeginPending(d, k, t);
    BeginTxs(d, k, t);
    assert Ledger(e) && LiveFresh(e) && FirstDone(e) && Closed(e);
  }

  lemma BeginTxs(d: Db, k: nat, t: Tx)
    requires TxsFit(d) && LocksApart(d) && k !in d.txs && CanBegin(d, t)
    ensures var e := Put(d.(minted := d.minted + Pending(t)), k, t); TxsFit(e) && LocksApart(e)
  {
    var e := Put(d.(minted := d.minted + Pending(t)), k, t);
    forall j | j in e.txs ensures Fits(e, e.txs[j]) {
      SameTablesSameFit(d, e, e.txs[j]);
    }
    assert Holds(t) == {};
  }

  lemma BeginPending(d: Db, k: nat, t: Tx)
    requires PendingFresh(d) && LiveFresh(d) && Ledger(d) && k !in d.txs && CanBegin(d, t)
    ensures PendingFresh(Put(d.(minted := d.minted + Pending(t)), k, t))
  {
    var e := Put(d.(minted := d.minted + Pending(t)), k, t);
    assert forall x :: LiveToken(e, x) == LiveToken(d, x);
    assert forall x :: LiveToken(d, x) ==> x in d.minted;
    assert forall j :: j in d.txs ==> Pending(d.txs[j]) <= d.minted;
  }

  function Created(d: Db, id: Id, row: Row): Db {
    d.(rows := d.rows[id := row], created := d.created[id := row], minted := d.minted + RowTokens(row),
    log := d.log + [LogCreated(id)])
  }

  lemma InsertFits(d: Db, id: Id, row: Row, t: Tx)
    requires Fits(d, t) && id !in d.created && RowsKnown(d) && UsedKnown(d)
    ensures Fits(Created(d, id, row), t)
  {
    var e := Created(d, id, row);
    if t.AwaitUsed? || t.DeleteRows? || t.AwaitRows? || t.Deleted? {
      DeletionSeenLater(d, e, LogCreated(id), t.target, t.since, t.gone);
    }
  }

  lemma InsertRows(d: Db, id: Id, row: Row)
    requires LiveFresh(d) && RowsKnown(d) && UsedKnown(d) && id !in d.created && RowTokens(row) !! d.minted
    requires BornWithin(row)
    requires SpentIn(d.log) <= d.minted
    ensures var e := Created(d, id, row); LiveFresh(e) && RowsKnown(e) && UsedKnown(e)
  {
    LogSnoc(d.log, LogCreated(id));
    assert row.hmac.Some? ==> row.hmac.value in RowTokens(row);
  }

  lemma InsertLog(d: Db, id: Id, row: Row)
    requires Ledger(d) && Closed(d) && FirstDone(d) && LogSound(d.log) && id !in d.created
    ensures var e := Created(d, id, row); Ledger(e) && Closed(e) && FirstDone(e) && LogSound(e.log)
  {
    LogSnoc(d.log, LogCreated(id));
    SoundSnoc(d.log, LogCreated(id));
  }

  lemma InsertTables(d: Db, id: Id, row: Row)
    requires Tables(d) && id !in d.created && RowTokens(row) !! d.minted && BornWithin(row)
    ensures Tables(Created(d, id, row))
  {
    InsertRows(d, id, row);
    InsertLog(d, id, row);
  }

  lemma InsertPending(d: Db, id: Id, row: Row)
    requires PendingFresh(d) && id !in d.rows && RowTokens(row) !! d.minted
    ensures PendingFresh(Created(d, id, row))
  {
    var e := Created(d, id, row);
    LogSnoc(d.log, LogCreated(id));
    forall j, x | j in e.txs && x in Pending(e.txs[j]) ensures !LiveToken(e, x) {
      assert x in Pending(d.txs[j]) && !LiveToken(d, x);
      assert row.hmac.Some? ==> row.hmac.value in RowTokens(row);
    }
  }

  lemma InsertKeeps(d: Db, id: Id, row: Row)
    requires Inv(d) && id !in d.created && RowTokens(row) !! d.minted && BornWithin(row)
    ensures Inv(Created(d, id, row))
  {
    var e := Created(d, id, row);
    InsertTables(d, id, row);
    InsertPending(d, id, row);
    forall j | j in e.txs ensures Fits(e, e.txs[j]) {
      InsertFits(d, id, row, d.txs[j]);
    }
  }

  lemma AdvanceKeeps(d: Db, k: nat)
    requires Inv(d) && k in d.txs
    ensures Inv(AdvanceTx(d, k))
  {
    match d.txs[k]
    case Renewed(_, _) => RotationCommits(d, k);
    case Deleted(_, _, _, _, _) => DeletionCommits(d, k);
    case FirstWritten(_, _) => FirstCommits(d, k);
    case Ended(_) =>
    case Select(_) => RotationStep(d, k);
    case AwaitRow(_) => RotationStep(d, k);
    case Locked(_, _) => RotationStep(d, k);
    case Inserted(_, _) => RotationStep(d, k);
    case Lookup(_) => RotationStep(d, k);
    case FirstRead(_) => FirstStep(d, k);
    case FirstUpdate(_, _) => FirstStep(d, k);
    case AwaitFirst(_, _) => FirstStep(d, k);
    case _ => DeletionStep(d, k);
  }

  lemma NextKeeps(d: Db, action: Action)
    requires Inv(d)
    ensures Inv(Next(d, action))
  {
    match action
    case Insert(id, row) =>
      if id !in d.created && RowTokens(row) !! d.minted && BornWithin(row) {
        InsertKeeps(d, id, row);
      }
    case Begin(k, t) =>
      if k !in d.txs && CanBegin(d, t) {
        BeginKeeps(d, k, t);
      }
    case Advance(k) =>
      if k in d.txs {
        AdvanceKeeps(d, k);
      }
    case Abort(k) =>
      if k in d.txs {
        LocalStep(d, k, Ended(Aborted));
      }
    case SweepUsed(now, gone) => SweepUsedKeeps(d, now, gone);
    case SweepRows(now, ids) => SweepRowsKeeps(d, now, ids);
  }

  lemma SweepUsedKeeps(d: Db, now: int, gone: set<Token>)
    requires Inv(d)
    ensures Inv(Next(d, SweepUsed(now, gone)))
  {
    if forall x :: x in gone ==> x in d.used && d.used[x].expiresAt <= now {
      SweepKeeps(d, gone, {});
      assert d.rows - {} == d.rows;
    }
  }

  lemma SweepRowsKeeps(d: Db, now: int, ids: set<Id>)
    requires Inv(d)
    ensures Inv(Next(d, SweepRows(now, ids)))
  {
    if (forall i :: i in ids ==> i in d.rows) && (forall j :: j in d.txs ==> Holds(d.txs[j]) !! ids)
       && !Referenced(d, {}, ids) {
      SweepKeeps(d, {}, ids);
      assert d.used - {} == d.used;
    }
  }

  lemma {:induction false} ReachableInv(actions: seq<Action>)
    ensures Inv(Reach(actions))
  {
    if actions == [] {
      assert Inv(START);
    } else {
      ReachableInv(actions[..|actions| - 1]);
      NextKeeps(Reach(actions[..|actions| - 1]), actions[|actions| - 1]);
    }
  }
}
