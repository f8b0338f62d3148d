/**
 The same session chain as interleaved database transactions (auth/src/sessions.ts,
 change_password_apply.ts, session_cleanup.ts) at read-committed isolation: every statement sees
 the committed state, a row lock makes the next statement wait and check its predicate again,
 nothing of a transaction is visible before its commit, and any transaction may abort.
 */
module SessionTx {
  import opened Prelude
  import opened SessionStore

  /** A row of user_session and one of used_refresh_token; the tables are keyed by id and by token. */
  datatype Row = Row(user: Id, hmac: Option<Token>, sessionExpires: int, refreshExpires: int)
  datatype Spending = Spending(user: Id, session: Id, usedAt: int, expiresAt: int)

  /** One chain of a user, or all of them. */
  datatype Target = Target(user: Id, session: Option<Id>)

  predicate Hits(t: Target, user: Id, session: Id) {
    t.user == user && (t.session.None? || t.session.value == session)
  }

  datatype TxResult =
    | WasRotated(refreshExpires: int, sessionExpires: int)
    | WasExpired
    | WasSoft
    | WasHard
    | WasUnknown
    | WasRemoved
    | WasFirst
    | WasRefused
    | Aborted

  /**
   A transaction by the statement it executes next; `gone` and `rows` are its uncommitted deletes.
   `since` is the length of the log when the deletion took its first snapshot.
   */
  datatype Tx =
    | Select(a: RotateArgs)
    | AwaitRow(a: RotateArgs)
    | Locked(a: RotateArgs, row: Row)
    | Inserted(a: RotateArgs, row: Row)
    | Renewed(a: RotateArgs, row: Row)
    | Lookup(a: RotateArgs)
    | DeleteUsed(target: Target, hard: bool)
    | AwaitUsed(target: Target, hard: bool, since: nat, gone: set<Token>)
    | DeleteRows(target: Target, hard: bool, since: nat, gone: set<Token>)
    | AwaitRows(target: Target, hard: bool, since: nat, gone: set<Token>, rows: set<Id>)
    | Deleted(target: Target, hard: bool, since: nat, gone: set<Token>, rows: set<Id>)
    | FirstRead(f: FirstArgs)
    | FirstUpdate(f: FirstArgs, refreshExpires: int)
    | AwaitFirst(f: FirstArgs, refreshExpires: int)
    | FirstWritten(f: FirstArgs, refreshExpires: int)
    | Ended(result: TxResult)

  /** What was committed, in order. */
  datatype Entry =
    | LogCreated(id: Id)
    | LogRotated(token: Token, session: Id)
    | LogDeleted(target: Target, gone: set<Token>, rows: set<Id>)
    | LogFirst(session: Id)
    | LogSwept(gone: set<Token>, rows: set<Id>)

  datatype Db = Db(rows: map<Id, Row>, used: map<Token, Spending>, txs: map<nat, Tx>,
                   minted: set<Token>, created: map<Id, Row>, log: seq<Entry>)

  const START := Db(map[], map[], map[], {}, map[], [])

  datatype Action =
    | Insert(id: Id, row: Row)
    | Begin(tx: nat, first: Tx)
    | Advance(tx: nat)
    | Abort(tx: nat)
    | SweepUsed(now: int, gone: set<Token>)
    | SweepRows(now: int, ids: set<Id>)

  // ---------- locks ----------

  function Holds(t: Tx): set<Id> {
    match t
    case Locked(a, _) => {a.session}
    case Inserted(a, _) => {a.session}
    case Renewed(a, _) => {a.session}
    case Deleted(_, _, _, _, rows) => rows
    case FirstWritten(f, _) => {f.session}
    case _ => {}
  }

  /** Used tokens that an open transaction has deleted. */
  function HoldsUsed(t: Tx): set<Token> {
    match t
    case DeleteRows(_, _, _, gone) => gone
    case AwaitRows(_, _, _, gone, _) => gone
    case Deleted(_, _, _, gone, _) => gone
    case _ => {}
  }

  predicate FreeFor(d: Db, k: nat, ids: set<Id>) {
    forall j :: j in d.txs && j != k ==> Holds(d.txs[j]) !! ids
  }

  predicate UsedFreeFor(d: Db, k: nat, tokens: set<Token>) {
    forall j :: j in d.txs && j != k ==> HoldsUsed(d.txs[j]) !! tokens
  }

  /** Another transaction has inserted this token without committing: the unique index makes us wait. */
  predicate Inserting(d: Db, k: nat, token: Token) {
    exists j :: j in d.txs && j != k && (d.txs[j].Inserted? || d.txs[j].Renewed?) && d.txs[j].a.before == token
  }

  // ---------- statements ----------

  predicate Selected(d: Db, a: RotateArgs) {
    a.session in d.rows && d.rows[a.session].hmac == Some(a.before) && d.rows[a.session].user == a.user
  }

  predicate Unissued(d: Db, f: FirstArgs) {
    f.session in d.rows && d.rows[f.session].user == f.user && d.rows[f.session].hmac.None?
  }

  function UsedHit(d: Db, t: Target): set<Token> {
    set x | x in d.used && Hits(t, d.used[x].user, d.used[x].session)
  }

  function RowsHit(d: Db, t: Target): set<Id> {
    set i | i in d.rows && Hits(t, d.rows[i].user, i)
  }

  /** The foreign key: a used token left behind refers to one of these rows. */
  predicate Referenced(d: Db, gone: set<Token>, ids: set<Id>) {
    exists x :: x in d.used && x !in gone && d.used[x].session in ids
  }

  function Put(d: Db, k: nat, t: Tx): Db {
    d.(txs := d.txs[k := t])
  }

  function RotatedRow(row: Row, a: RotateArgs): Row {
    row.(hmac := Some(a.after), refreshExpires := RotateSessionTimes(a.now, row.sessionExpires, a.refreshTtl).0)
  }

  function CommitRotation(d: Db, k: nat, a: RotateArgs, row: Row): Db {
    d.(rows := if a.session in d.rows then d.rows[a.session := RotatedRow(row, a)] else d.rows,
    used := d.used[a.before := Spending(a.user, a.session, a.now, a.now + a.window * 1000)],
    txs := d.txs[k := Ended(WasRotated(RotatedRow(row, a).refreshExpires, row.sessionExpires))],
    log := d.log + [LogRotated(a.before, a.session)])
  }

  function CommitDeletion(d: Db, k: nat, t: Target, hard: bool, gone: set<Token>, rows: set<Id>): Db {
    d.(rows := d.rows - rows, used := d.used - gone,
    txs := d.txs[k := Ended(if hard then WasHard else WasRemoved)],
    log := d.log + [LogDeleted(t, gone, rows)])
  }

  function CommitFirst(d: Db, k: nat, f: FirstArgs, refreshExpires: int): Db {
    d.(rows := if f.session in d.rows
               then d.rows[f.session := d.rows[f.session].(hmac := Some(f.token), refreshExpires := refreshExpires)]
               else d.rows,
    txs := d.txs[k := Ended(WasFirst)],
    log := d.log + [LogFirst(f.session)])
  }

  /** The next statement of transaction `k`; a statement that waits changes nothing. */
  function AdvanceTx(d: Db, k: nat): Db
    requires k in d.txs
  {
    match d.txs[k]
    case Select(a) => Put(d, k, if Selected(d, a) then AwaitRow(a) else Lookup(a))
    case AwaitRow(a) =>
      if !FreeFor(d, k, {a.session}) then d
      else Put(d, k, if Selected(d, a) then Locked(a, d.rows[a.session]) else Lookup(a))
    case Locked(a, row) =>
      if a.now >= row.sessionExpires || a.now >= row.refreshExpires then Put(d, k, Ended(WasExpired))
      else if Inserting(d, k, a.before) then d
      else Put(d, k, if a.before in d.used then Ended(Aborted) else Inserted(a, row))
    case Inserted(a, row) => Put(d, k, Renewed(a, row))
    case Renewed(a, row) => CommitRotation(d, k, a, row)
    case Lookup(a) =>
      if a.before in d.used && d.used[a.before].user == a.user && d.used[a.before].session == a.session then
        if WithinGrace(d.used[a.before].usedAt, a.now, a.grace) then Put(d, k, Ended(WasSoft))
        else Put(d, k, DeleteUsed(Target(a.user, Some(a.session)), true))
      else Put(d, k, Ended(WasUnknown))
    case DeleteUsed(t, hard) => Put(d, k, AwaitUsed(t, hard, |d.log|, UsedHit(d, t)))
    case AwaitUsed(t, hard, since, gone) =>
      if !UsedFreeFor(d, k, gone) then d else Put(d, k, DeleteRows(t, hard, since, gone * d.used.Keys))
    case DeleteRows(t, hard, since, gone) => Put(d, k, AwaitRows(t, hard, since, gone, RowsHit(d, t)))
    case AwaitRows(t, hard, since, gone, rows) =>
      if !FreeFor(d, k, rows) then d
      else if Referenced(d, gone, rows * d.rows.Keys) then Put(d, k, Ended(Aborted))
      else Put(d, k, Deleted(t, hard, since, gone, rows * d.rows.Keys))
    case Deleted(t, hard, _, gone, rows) => CommitDeletion(d, k, t, hard, gone, rows)
    case FirstRead(f) =>
      Put(d, k, if Unissued(d, f)
                then FirstUpdate(f, RotateSessionTimes(f.now, d.rows[f.session].sessionExpires, f.refreshTtl).0)
                else Ended(WasRefused))
    case FirstUpdate(f, expires) => Put(d, k, if Unissued(d, f) then AwaitFirst(f, expires) else Ended(WasRefused))
    case AwaitFirst(f, expires) =>
      if !FreeFor(d, k, {f.session}) then d
      else Put(d, k, if Unissued(d, f) then FirstWritten(f, expires) else Ended(WasRefused))
    case FirstWritten(f, expires) => CommitFirst(d, k, f, expires)
    case Ended(_) => d
  }

  /** The token a transaction was started with to hand out. */
  function Pending(t: Tx): set<Token> {
    match t
    case Select(a) => {a.after}
    case AwaitRow(a) => {a.after}
    case Locked(a, _) => {a.after}
    case Inserted(a, _) => {a.after}
    case Renewed(a, _) => {a.after}
    case Lookup(a) => {a.after}
    case FirstRead(f) => {f.token}
    case FirstUpdate(f, _) => {f.token}
    case AwaitFirst(f, _) => {f.token}
    case FirstWritten(f, _) => {f.token}
    case _ => {}
  }

  /** A session is named by an access token, which is signed only after its row was committed. */
  predicate Names(d: Db, t: Target) {
    t.session.Some? ==> t.session.value in d.created && d.created[t.session.value].user == t.user
  }

  /** Transactions start with a new token, at their first statement. */
  predicate CanBegin(d: Db, t: Tx) {
    Pending(t) !! d.minted && (t.Select? || t.FirstRead? || (t.DeleteUsed? && Names(d, t.target)))
  }

  function RowTokens(row: Row): set<Token> {
    if row.hmac.Some? then {row.hmac.value} else {}
  }

  /** Rows are created with the login times: with a token, the refresh expiry lies within the session. */
  predicate BornWithin(row: Row) {
    row.hmac.Some? ==> row.refreshExpires <= row.sessionExpires
  }

  /** One step of the system; an action that is not possible changes nothing. */
  function Next(d: Db, action: Action): Db {
    match action
    case Insert(id, row) =>
      if id in d.created || !(RowTokens(row) !! d.minted) || !BornWithin(row) then d
      else d.(rows := d.rows[id := row], created := d.created[id := row], minted := d.minted + RowTokens(row),
              log := d.log + [LogCreated(id)])
    case Begin(k, t) =>
      if k in d.txs || !CanBegin(d, t) then d else Put(d.(minted := d.minted + Pending(t)), k, t)
    case Advance(k) => if k in d.txs then AdvanceTx(d, k) else d
    case Abort(k) => if k in d.txs && !d.txs[k].Ended? then Put(d, k, Ended(Aborted)) else d
    case SweepUsed(now, gone) =>
      // The statement's snapshot may be older than its effect, so any set of expired tokens will do.
      if (forall x :: x in gone ==> x in d.used && d.used[x].expiresAt <= now)
         && (forall j :: j in d.txs ==> HoldsUsed(d.txs[j]) !! gone)
      then d.(used := d.used - gone, log := d.log + [LogSwept(gone, {})]) else d
    case SweepRows(now, ids) =>
      if (forall i :: i in ids ==> i in d.rows && (d.rows[i].sessionExpires <= now || d.rows[i].refreshExpires <= now))
         && (forall j :: j in d.txs ==> Holds(d.txs[j]) !! ids) && !Referenced(d, {}, ids)
      then d.(rows := d.rows - ids, log := d.log + [LogSwept({}, ids)]) else d
  }

  /** The state after a sequence of actions. */
  function Reach(actions: seq<Action>): Db {
    if actions == [] then START else Next(Reach(actions[..|actions| - 1]), actions[|actions| - 1])
  }

  // ---------- what the log says ----------

  function SpentIn(log: seq<Entry>): set<Token> {
    set i | 0 <= i < |log| && log[i].LogRotated? :: log[i].token
  }

  function RemovedBy(e: Entry): set<Token> {
    match e
    case LogDeleted(_, gone, _) => gone
    case LogSwept(gone, _) => gone
    case _ => {}
  }

  function RemovedIn(log: seq<Entry>): set<Token> {
    if log == [] then {} else RemovedIn(log[..|log| - 1]) + RemovedBy(log[|log| - 1])
  }

  /** Sessions that a commit removed, or found already removed. */
  function ClosedBy(e: Entry): set<Id> {
    match e
    case LogDeleted(t, _, rows) => rows + if t.session.Some? then {t.session.value} else {}
    case LogSwept(_, rows) => rows
    case _ => {}
  }

  function ClosedIn(log: seq<Entry>): set<Id> {
    set i, x | 0 <= i < |log| && x in ClosedBy(log[i]) :: x
  }

  function FirstIn(log: seq<Entry>): set<Id> {
    set i | 0 <= i < |log| && log[i].LogFirst? :: log[i].session
  }

  lemma LogSnoc(log: seq<Entry>, e: Entry)
    ensures SpentIn(log + [e]) == SpentIn(log) + if e.LogRotated? then {e.token} else {}
    ensures RemovedIn(log + [e]) == RemovedIn(log) + RemovedBy(e)
    ensures ClosedIn(log + [e]) == ClosedIn(log) + ClosedBy(e)
    ensures FirstIn(log + [e]) == FirstIn(log) + if e.LogFirst? then {e.session} else {}
  {
    var all := log + [e];
    assert all[..|log|] == log && all[|log|] == e;
    forall i | 0 <= i < |log| ensures all[i] == log[i] {
    }
    forall x | x in SpentIn(log) ensures x in SpentIn(all) {
      var i :| 0 <= i < |log| && log[i].LogRotated? && log[i].token == x;
      assert all[i] == log[i];
    }
    forall x | x in ClosedIn(log) ensures x in ClosedIn(all) {
      var i :| 0 <= i < |log| && x in ClosedBy(log[i]);
      assert x in ClosedBy(all[i]);
    }
    forall x | x in FirstIn(log) ensures x in FirstIn(all) {
      var i :| 0 <= i < |log| && log[i].LogFirst? && log[i].session == x;
      assert all[i] == log[i];
    }
    forall x | x in ClosedBy(e) ensures x in ClosedIn(all) {
      assert x in ClosedBy(all[|log|]);
    }
    assert all[|log|].LogRotated? ==> all[|log|].token in SpentIn(all);
    assert all[|log|].LogFirst? ==> all[|log|].session in FirstIn(all);
    forall x | x in ClosedIn(all) ensures x in ClosedIn(log) + ClosedBy(e) {
      var i :| 0 <= i < |all| && x in ClosedBy(all[i]);
      if i < |log| {
        assert x in ClosedBy(log[i]);
      }
    }
  }
}
