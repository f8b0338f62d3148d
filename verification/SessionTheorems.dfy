/** Single use, absolute lifetime, replay answers and cleanup over runs of the session store. */
module SessionTheorems {
  import opened Prelude
  import opened SessionStore
  import opened SessionRuns

  /** In every run, rotations and first refreshes keep their promises: the store is always keyed. */
  lemma EveryRotationKeepsPromise(run: Run, i: nat)
    requires IsRun(run) && i < |run.events|
    ensures var s, t := run.worlds[i].store, run.worlds[i + 1].store;
            match run.events[i]
            case Rotation(a) =>
              AnswerAt(run, i).Answered? && RotationAnswer(s, a, AnswerAt(run, i).outcome)
              && RotationResult(s, a, t, AnswerAt(run, i).outcome)
            case First(f) => AnswerAt(run, i).Issued? && FirstResult(s, f, t, AnswerAt(run, i).maxAge)
            case _ => true
  {
    RunIsGood(run, i);
    assert StepAt(run, i);
    match run.events[i]
    case Rotation(a) => RotationKeepsPromise(run.worlds[i].store, a);
    case First(f) => FirstKeepsPromise(run.worlds[i].store, f);
    case _ =>
  }

  // ---------- monotone facts ----------

  ghost predicate Spent(w: World, token: Token) {
    token in w.minted && !Live(w.store, token)
  }

  ghost predicate Renews(w: World, e: Event, r: Session) {
    && r.hmac.Some? && r.hmac.value in Minted(e)
    && exists q :: q in w.store.rows && q.id == r.id && q.user == r.user && q.sessionExpires == r.sessionExpires
  }

  /** Where a row of the next store comes from. */
  lemma RowOrigin(w: World, e: Event, next: World, r: Session)
    requires Good(w) && StepsTo(w, e, next) && r in next.store.rows
    ensures r in w.store.rows || (e.Login? && r == NewRow(e)) || Renews(w, e, r)
  {
    match e
    case Rotation(a) =>
      var index := FirstIndex(w.store.rows, HoldsToken(a.before, a.user, a.session));
      if AttemptRotate(w.store, a).1.Rotated? {
        ReplacedRows(w.store.rows, index.value, Reissued(w.store.rows[index.value], a));
        assert w.store.rows[index.value] in w.store.rows;
      }
    case First(f) =>
      var index := FirstIndex(w.store.rows, IsSession(f.user, f.session));
      if index.Some? && w.store.rows[index.value].hmac.None? {
        ReplacedRows(w.store.rows, index.value, next.store.rows[index.value]);
        assert w.store.rows[index.value] in w.store.rows;
      }
    case _ =>
  }

  lemma SpentStaysSpent(w: World, e: Event, next: World, token: Token)
    requires Good(w) && StepsTo(w, e, next) && Spent(w, token)
    ensures Spent(next, token)
  {
    forall r | r in next.store.rows ensures r.hmac != Some(token) {
      RowOrigin(w, e, next, r);
      assert r in w.store.rows ==> r.hmac != Some(token);
      assert e.Login? && r == NewRow(e) && r.hmac.Some? ==> r.hmac.value in Minted(e);
    }
  }

  lemma {:induction false} SpentForever(run: Run, i: nat, j: nat, token: Token)
    requires IsRun(run) && i <= j <= |run.events| && Spent(run.worlds[i], token)
    ensures Spent(run.worlds[j], token)
  {
    if i < j {
      SpentForever(run, i, j - 1, token);
      RunIsGood(run, j - 1);
      assert StepAt(run, j - 1);
      SpentStaysSpent(run.worlds[j - 1], run.events[j - 1], run.worlds[j], token);
    }
  }

  predicate RotatesAt(run: Run, i: nat)
    requires i < |run.events| < |run.worlds|
  {
    run.events[i].Rotation? && AttemptRotate(run.worlds[i].store, run.events[i].rotate).1.Rotated?
  }

  /** What a successful rotation needs and leaves behind. */
  lemma RotationEffect(w: World, a: RotateArgs, next: World)
    requires Good(w) && StepsTo(w, Rotation(a), next) && AttemptRotate(w.store, a).1.Rotated?
    ensures Live(w.store, a.before)
    ensures Spent(next, a.before) && Live(next.store, a.after) && Consumed(a) in next.store.used
  {
    var i := FirstIndex(w.store.rows, HoldsToken(a.before, a.user, a.session)).value;
    var row := w.store.rows[i];
    assert row in w.store.rows;
    ReplacedRows(w.store.rows, i, Reissued(row, a));
    assert next.store == Store(w.store.rows[i := Reissued(row, a)], w.store.used + [Consumed(a)]);
    assert Reissued(row, a) in next.store.rows;
    assert a.after in Minted(Rotation(a));
    assert forall r :: r in w.store.rows && r.id != row.id ==> r.hmac != row.hmac;
  }

  lemma RotatesAtEffect(run: Run, i: nat)
    requires IsRun(run) && i < |run.events| && RotatesAt(run, i)
    ensures var a := run.events[i].rotate;
            && Live(run.worlds[i].store, a.before) && Spent(run.worlds[i + 1], a.before)
            && Consumed(a) in run.worlds[i + 1].store.used
  {
    RunIsGood(run, i);
    assert StepAt(run, i);
    RotationEffect(run.worlds[i], run.events[i].rotate, run.worlds[i + 1]);
  }

  /** A refresh token is exchanged at most once in any run. */
  lemma RotatedAtMostOnce(run: Run, i: nat, j: nat)
    requires IsRun(run) && i < j < |run.events| && RotatesAt(run, i) && RotatesAt(run, j)
    ensures run.events[i].rotate.before != run.events[j].rotate.before
  {
    RotatesAtEffect(run, i);
    RotatesAtEffect(run, j);
    SpentForever(run, i + 1, j, run.events[i].rotate.before);
  }

  lemma StepKnows(w: World, e: Event, next: World)
    requires StepsTo(w, e, next)
    ensures forall id :: id in w.known ==> id in next.known && next.known[id] == w.known[id]
  {
  }

  lemma {:induction false} KnownForever(run: Run, i: nat, j: nat)
    requires IsRun(run) && i <= j <= |run.events|
    ensures forall id :: id in run.worlds[i].known ==>
                           id in run.worlds[j].known && run.worlds[j].known[id] == run.worlds[i].known[id]
  {
    if i < j {
      KnownForever(run, i, j - 1);
      assert StepAt(run, j - 1);
      StepKnows(run.worlds[j - 1], run.events[j - 1], run.worlds[j]);
    }
  }

  /** Rotation, first refresh and everything else leave a session's absolute expiry and owner alone. */
  lemma AbsoluteExpiryFixed(run: Run, i: nat, j: nat, r: Session, q: Session)
    requires IsRun(run) && i <= j <= |run.events|
    requires r in run.worlds[i].store.rows && q in run.worlds[j].store.rows && r.id == q.id
    ensures r.sessionExpires == q.sessionExpires && r.user == q.user
    ensures r.hmac.Some? ==> r.refreshExpires <= q.sessionExpires
  {
    RunIsGood(run, i);
    RunIsGood(run, j);
    KnownForever(run, i, j);
  }

  // ---------- first refresh ----------

  ghost predicate HasToken(w: World, id: Id) {
    id in w.known && forall r :: r in w.store.rows && r.id == id ==> r.hmac.Some?
  }

  lemma TokenStays(w: World, e: Event, next: World, id: Id)
    requires Good(w) && StepsTo(w, e, next) && HasToken(w, id)
    ensures HasToken(next, id)
  {
    StepKnows(w, e, next);
    assert id !in Known(e);
    forall r | r in next.store.rows && r.id == id ensures r.hmac.Some? {
      RowOrigin(w, e, next, r);
      assert e.Login? ==> NewRow(e).id in Known(e);
    }
  }

  lemma {:induction false} TokenForever(run: Run, i: nat, j: nat, id: Id)
    requires IsRun(run) && i <= j <= |run.events| && HasToken(run.worlds[i], id)
    ensures HasToken(run.worlds[j], id)
  {
    if i < j {
      TokenForever(run, i, j - 1, id);
      RunIsGood(run, j - 1);
      assert StepAt(run, j - 1);
      TokenStays(run.worlds[j - 1], run.events[j - 1], run.worlds[j], id);
    }
  }

  lemma FirstRefreshEffect(w: World, f: FirstArgs, next: World)
    requires Good(w) && StepsTo(w, First(f), next) && FirstRefresh(w.store, f).1.Some?
    ensures !HasToken(w, f.session) && HasToken(next, f.session)
  {
    var i := FirstIndex(w.store.rows, IsSession(f.user, f.session)).value;
    assert w.store.rows[i] in w.store.rows;
    ReplacedRows(w.store.rows, i, next.store.rows[i]);
  }

  lemma LoginEffect(w: World, e: Event, next: World)
    requires Good(w) && StepsTo(w, e, next) && e.Login? && e.token.Some?
    ensures HasToken(next, e.id)
  {
  }

  predicate IssuesAt(run: Run, i: nat)
    requires i < |run.events| < |run.worlds|
  {
    run.events[i].First? && FirstRefresh(run.worlds[i].store, run.events[i].first).1.Some?
  }

  /** The session that step `i` gives its first refresh token, at login or after a password change. */
  function FirstTokenFor(run: Run, i: nat): Option<Id>
    requires i < |run.events| < |run.worlds|
  {
    match run.events[i]
    case Login(id, _, Some(_), _, _, _, _, _, _) => Some(id)
    case First(f) => if IssuesAt(run, i) then Some(f.session) else None
    case _ => None
  }

  lemma FirstTokenEffect(run: Run, i: nat)
    requires IsRun(run) && i < |run.events| && FirstTokenFor(run, i).Some?
    ensures HasToken(run.worlds[i + 1], FirstTokenFor(run, i).value)
    ensures IssuesAt(run, i) ==> !HasToken(run.worlds[i], FirstTokenFor(run, i).value)
  {
    RunIsGood(run, i);
    assert StepAt(run, i);
    if run.events[i].Login? {
      LoginEffect(run.worlds[i], run.events[i], run.worlds[i + 1]);
    } else {
      FirstRefreshEffect(run.worlds[i], run.events[i].first, run.worlds[i + 1]);
    }
  }

  /** A session gets its first refresh token at most once, and never again when it was created with one. */
  lemma FirstRefreshOnce(run: Run, i: nat, j: nat)
    requires IsRun(run) && i < j < |run.events| && FirstTokenFor(run, i).Some? && IssuesAt(run, j)
    ensures FirstTokenFor(run, i).value != run.events[j].first.session
  {
    FirstTokenEffect(run, i);
    FirstTokenEffect(run, j);
    TokenForever(run, i + 1, j, FirstTokenFor(run, i).value);
  }

  // ---------- lifetimes ----------

  /** Whole seconds a stored expiry still has, as the cookie code counts them. */
  function RemainingSeconds(expires: int, now: int): int {
    expires / 1000 - now / 1000
  }

  /** The remaining lifetime handed out with a rotated token (refresh_pipeline.ts). */
  function PipelineMaxAge(refreshExpires: int, now: int): int {
    Max(1, refreshExpires / 1000 - now / 1000)
  }

  /** A rotated session is never born expired, and the cookie lives exactly as long as the stored token. */
  lemma RotatedIsAlive(w: World, a: RotateArgs)
    requires Good(w) && a.refreshTtl >= 1 && AttemptRotate(w.store, a).1.Rotated?
    ensures var o := AttemptRotate(w.store, a).1;
            && a.now < o.refreshExpires <= o.sessionExpires
            && PipelineMaxAge(o.refreshExpires, a.now) == RemainingSeconds(o.refreshExpires, a.now)
            && RotateSessionTimes(a.now, o.sessionExpires, a.refreshTtl).1 == RemainingSeconds(o.refreshExpires, a.now)
  {
  }

  /** What a login stores: absolute expiry after the total lifetime, refresh expiry after the shorter of two, or the access lifetime. */
  lemma LoginStores(w: World, e: Event)
    requires e.Login?
    ensures var after := Step(w, e).store;
            && after.used == w.store.used && |after.rows| == |w.store.rows| + 1 && w.store.rows <= after.rows
            && var row := after.rows[|w.store.rows|];
               && row.id == e.id && row.user == e.user && row.hmac == e.token && row.ip == e.ip && row.agent == e.agent
               && row.sessionExpires == 1000 * (e.now / 1000 + e.totalTtl)
               && row.refreshExpires == 1000 * (e.now / 1000 + if e.token.None? then e.accessTtl
                                                               else if e.refreshTtl <= e.totalTtl then e.refreshTtl else e.totalTtl)
  {
  }

  /** Login: the token cookie lives exactly as long as the stored token; must-change sessions get none. */
  lemma LoginAges(w: World, e: Event)
    requires e.Login? && e.accessTtl >= 1 && e.refreshTtl >= 1 && e.totalTtl >= 1
    ensures var row := NewRow(e);
            var answer := StoreStep(w.store, e).1;
            && e.now < row.refreshExpires && e.now < row.sessionExpires
            && answer.accessMaxAge == RemainingSeconds(row.refreshExpires, e.now)
            && answer.refreshMaxAge == (if e.token.Some? then Some(RemainingSeconds(row.refreshExpires, e.now)) else None)
            && (e.token.Some? ==> row.refreshExpires <= row.sessionExpires)
  {
  }

  /**
   First refresh does not look at the session's absolute expiry, so its cookie age agrees with the
   stored expiry exactly when the session had not expired.
   */
  lemma FirstRefreshAge(w: World, f: FirstArgs, row: Session)
    requires Good(w) && f.refreshTtl >= 1 && row in w.store.rows
    requires row.id == f.session && row.user == f.user && row.hmac.None?
    ensures FirstRefresh(w.store, f).1.Some?
    ensures FirstRefresh(w.store, f).1.value ==
            RemainingSeconds(RotateSessionTimes(f.now, row.sessionExpires, f.refreshTtl).0, f.now)
            <==> f.now < row.sessionExpires
  {
    var index := FirstIndex(w.store.rows, IsSession(f.user, f.session));
    FirstExists(w.store.rows, IsSession(f.user, f.session), row);
    SameIdSameRow(w.store.rows, w.store.rows[index.value], row);
  }

  // ---------- replay ----------

  predicate TearsDown(s: Store, e: Event, user: Id, session: Id) {
    match e
    case Logout(u, i) => u == user && i == session
    case LogoutAll(u) => u == user
    case Rotation(a) => a.user == user && a.session == session && AttemptRotate(s, a).1.HardReuse?
    case _ => false
  }

  /** A used token stays on record until the chain is torn down or cleanup passes its window. */
  lemma UsedSurvives(w: World, e: Event, u: Used)
    requires u in w.store.used && !TearsDown(w.store, e, u.user, u.session)
    requires e.Sweep? ==> e.now < u.expiresAt
    ensures u in Step(w, e).store.used
  {
  }

  /** Step `k` neither tears the chain down nor cleans up with a clock ahead of `now`. */
  predicate Spares(run: Run, k: nat, user: Id, session: Id, now: int)
    requires k < |run.events| < |run.worlds|
  {
    !TearsDown(run.worlds[k].store, run.events[k], user, session)
    && (run.events[k].Sweep? ==> run.events[k].now <= now)
  }

  lemma {:induction false} UsedSurvivesRun(run: Run, i: nat, j: nat, u: Used, now: int)
    requires IsRun(run) && i <= j <= |run.events| && u in run.worlds[i].store.used && now < u.expiresAt
    requires forall k :: i <= k < j ==> Spares(run, k, u.user, u.session, now)
    ensures u in run.worlds[j].store.used
  {
    if i < j {
      UsedSurvivesRun(run, i, j - 1, u, now);
      assert Spares(run, j - 1, u.user, u.session, now) && StepAt(run, j - 1);
      UsedSurvives(run.worlds[j - 1], run.events[j - 1], u);
    }
  }

  ghost predicate WholeChainGone(before: Store, after: Store, session: Id) {
    && (forall r :: r in after.rows <==> r in before.rows && r.id != session)
    && (forall u :: u in after.used <==> u in before.used && u.session != session)
  }

  /**
   Replay of a token rotated at step `i`, before its window ends and while the chain stands: within
   the grace period the answer is soft and nothing changes; after it the answer is hard and the whole
   chain goes.  Cleanups in between (with a clock that does not run ahead) do not matter.
   */
  lemma ReplayAnswer(run: Run, i: nat, j: nat, a: RotateArgs, b: RotateArgs)
    requires IsRun(run) && i < j < |run.events| && RotatesAt(run, i)
    requires run.events[i] == Rotation(a) && run.events[j] == Rotation(b)
    requires b.before == a.before && b.user == a.user && b.session == a.session
    requires b.now < a.now + a.window * 1000
    requires forall k :: i < k < j ==> Spares(run, k, a.user, a.session, b.now)
    ensures b.now - a.now <= b.grace * 1000 ==>
              AnswerAt(run, j) == Answered(SoftReuse) && run.worlds[j + 1].store == run.worlds[j].store
    ensures b.now - a.now > b.grace * 1000 ==>
              AnswerAt(run, j) == Answered(HardReuse)
              && WholeChainGone(run.worlds[j].store, run.worlds[j + 1].store, a.session)
  {
    RotatesAtEffect(run, i);
    RunIsGood(run, j);
    SpentForever(run, i + 1, j, a.before);
    UsedSurvivesRun(run, i + 1, j, Consumed(a), b.now);
    ReplayOfRecorded(run.worlds[j], b, Consumed(a));
    assert StepAt(run, j);
  }

  lemma ReplayOfRecorded(w: World, b: RotateArgs, u: Used)
    requires Good(w) && u in w.store.used && !Live(w.store, b.before)
    requires u.hmac == b.before && u.user == b.user && u.session == b.session
    ensures b.now - u.usedAt <= b.grace * 1000 ==> AttemptRotate(w.store, b) == (w.store, SoftReuse)
    ensures b.now - u.usedAt > b.grace * 1000 ==>
              AttemptRotate(w.store, b).1 == HardReuse
              && WholeChainGone(w.store, AttemptRotate(w.store, b).0, b.session)
  {
  }

  // ---------- cleanup ----------

  /** Cleanup removes sessions exactly when no expired session still has a used token inside its window. */
  lemma CleanupCompletesExactly(w: World, now: int)
    requires Good(w)
    ensures Cleanup(w.store, now).1 <==>
            !exists u, r :: u in w.store.used && r in w.store.rows && u.session == r.id
                            && !Unexpired(now)(r) && now < u.expiresAt
  {
    var used := Filter(w.store.used, UnexpiredUsed(now));
    var rows := Filter(w.store.rows, Unexpired(now));
    if Cleanup(w.store, now).1 {
      forall u, r | u in w.store.used && r in w.store.rows && u.session == r.id && now < u.expiresAt
        ensures Unexpired(now)(r)
      {
        assert u in used;
        var j :| 0 <= j < |used| && used[j] == u;
        var i :| 0 <= i < |rows| && rows[i].id == used[j].session;
        assert rows[i] in rows;
        SameIdSameRow(w.store.rows, r, rows[i]);
      }
    } else {
      var j :| 0 <= j < |used| && !exists i :: 0 <= i < |rows| && rows[i].id == used[j].session;
      assert used[j] in used;
      var r :| r in w.store.rows && r.id == used[j].session && r.user == used[j].user;
      assert forall q :: q in rows ==> q.id != used[j].session;
      assert r !in rows;
    }
  }

  /** When it completes, no expired session and no used token past its window is left, and nothing else went. */
  lemma CleanupLeaves(w: World, now: int)
    requires Good(w) && Cleanup(w.store, now).1
    ensures var s := Cleanup(w.store, now).0;
            && (forall r :: r in s.rows <==> r in w.store.rows && now < r.sessionExpires && now < r.refreshExpires)
            && (forall u :: u in s.used <==> u in w.store.used && now < u.expiresAt)
  {
  }

  /** When it is blocked, expired used tokens are gone all the same, and every session stays. */
  lemma BlockedCleanupLeaves(s: Store, now: int)
    requires !Cleanup(s, now).1
    ensures Cleanup(s, now).0.rows == s.rows
    ensures forall u :: u in Cleanup(s, now).0.used <==> u in s.used && now < u.expiresAt
  {
  }

  /** Expired sessions of users 7 and 8; user 7 rotated once, one second after login. */
  const STALE_LOGIN := Login(1, 7, Some(100), 0, 900, 300, 300, None, None)
  const OTHER_LOGIN := Login(2, 8, Some(200), 0, 900, 300, 300, None, None)
  const LATE_ROTATION := RotateArgs(100, 101, 7, 1, 1000, 300, 15, 3600, None, None)
  const BLOCKED_EVENTS := [STALE_LOGIN, OTHER_LOGIN, Rotation(LATE_ROTATION), Sweep(400_000)]
  const OTHER_ROW := Session(2, 8, Some(200), 300_000, 300_000, None, None)

  const LOGGED_IN := Step(Step(START, STALE_LOGIN), OTHER_LOGIN)
  const ROTATED := Step(LOGGED_IN, Rotation(LATE_ROTATION))
  const BLOCKED_RUN :=
    Run(BLOCKED_EVENTS, [START, Step(START, STALE_LOGIN), LOGGED_IN, ROTATED, Step(ROTATED, Sweep(400_000))])

  lemma BlockedLogins()
    ensures LOGGED_IN.store == Store([Session(1, 7, Some(100), 300_000, 300_000, None, None), OTHER_ROW], [])
    ensures LOGGED_IN.minted == {100, 200} && LOGGED_IN.known.Keys == {1, 2}
    ensures StepsTo(START, STALE_LOGIN, Step(START, STALE_LOGIN))
    ensures StepsTo(Step(START, STALE_LOGIN), OTHER_LOGIN, LOGGED_IN)
  {
  }

  lemma BlockedState()
    ensures ROTATED.store ==
            Store([Session(1, 7, Some(101), 300_000, 300_000, None, None), OTHER_ROW], [Consumed(LATE_ROTATION)])
    ensures StepsTo(LOGGED_IN, Rotation(LATE_ROTATION), ROTATED)
  {
  }

  lemma SweepIsFresh(w: World, now: int)
    ensures StepsTo(w, Sweep(now), Step(w, Sweep(now)))
  {
  }

  lemma BlockedSweep(w: World, u: Used, stale: Session, other: Session, now: int)
    requires Good(w) && w.store == Store([stale, other], [u])
    requires u.session == stale.id && !Unexpired(now)(stale) && now < u.expiresAt
    ensures !Cleanup(w.store, now).1 && Cleanup(w.store, now).0.rows == [stale, other]
  {
    assert w.store.used[0] in w.store.used && w.store.rows[0] in w.store.rows;
    CleanupCompletesExactly(w, now);
  }

  lemma FourSteps(run: Run)
    requires |run.events| == 4 && |run.worlds| == 5 && run.worlds[0] == START
    requires StepAt(run, 0) && StepAt(run, 1) && StepAt(run, 2) && StepAt(run, 3)
    ensures IsRun(run)
  {
  }

  /** The last step of a run is a sweep at `now` that an expired session with a recent used token blocks. */
  lemma BlockedRun(run: Run, u: Used, stale: Session, other: Session, now: int)
    requires IsRun(run) && |run.events| == 4 && run.events[3] == Sweep(now)
    requires run.worlds[3].store == Store([stale, other], [u])
    requires u.session == stale.id && !Unexpired(now)(stale) && now < u.expiresAt
    ensures AnswerAt(run, 3) == Swept(false) && run.worlds[4].store.rows == [stale, other]
  {
    RunIsGood(run, 3);
    assert StepAt(run, 3);
    BlockedSweep(run.worlds[3], u, stale, other, now);
  }

  /**
   One user who let a session expire soon after a rotation keeps every other user's expired session
   in the table: the delete fails as a whole.
   */
  lemma OneChainBlocksCleanup()
    ensures IsRun(BLOCKED_RUN)
    ensures AnswerAt(BLOCKED_RUN, 3) == Swept(false)
    ensures OTHER_ROW in BLOCKED_RUN.worlds[4].store.rows && OTHER_ROW.sessionExpires < 400_000 && OTHER_ROW.user != 7
  {
    BlockedLogins();
    BlockedState();
    SweepIsFresh(ROTATED, 400_000);
    var stale := Session(1, 7, Some(101), 300_000, 300_000, None, None);
    FourSteps(BLOCKED_RUN);
    BlockedRun(BLOCKED_RUN, Consumed(LATE_ROTATION), stale, OTHER_ROW, 400_000);
    assert OTHER_ROW == [stale, OTHER_ROW][1];
  }
}
