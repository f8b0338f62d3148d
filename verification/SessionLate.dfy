/** A first refresh token that is dead on arrival (auth/src/change_password.ts): when, and a run that meets it. */
module SessionLate {
  import opened Prelude
  import opened SessionStore
  import opened SessionRuns
  import opened SessionTheorems

  /** The session has expired while the access token it was created with still lives. */
  predicate OnlyAccessLives(row: Session, now: int) {
    row.hmac.None? && row.sessionExpires <= now < row.refreshExpires
  }

  /**
   A must-change session keeps the end of its access token as its refresh expiry.  That token can outlive
   the session exactly when the access lifetime is longer than the total one, which no setting rules out.
   */
  lemma AccessOutlivesSessionExactly(e: Event)
    requires e.Login? && e.token.None?
    ensures (exists now :: OnlyAccessLives(NewRow(e), now)) <==> e.totalTtl < e.accessTtl
  {
    var row := NewRow(e);
    if e.totalTtl < e.accessTtl {
      assert OnlyAccessLives(row, row.sessionExpires);
    }
  }

  /** What a first refresh stores, when the session exists and has no token. */
  lemma FirstRefreshStores(w: World, f: FirstArgs, row: Session)
    requires Good(w) && row in w.store.rows && row.id == f.session && row.user == f.user && row.hmac.None?
    ensures var times := RotateSessionTimes(f.now, row.sessionExpires, f.refreshTtl);
            var after, age := FirstRefresh(w.store, f).0, FirstRefresh(w.store, f).1;
            && age == Some(times.1) && after.used == w.store.used
            && row.(hmac := Some(f.token), refreshExpires := times.0, ip := f.ip, agent := f.agent) in after.rows
  {
    var index := FirstIndex(w.store.rows, IsSession(f.user, f.session));
    FirstExists(w.store.rows, IsSession(f.user, f.session), row);
    SameIdSameRow(w.store.rows, w.store.rows[index.value], row);
    var after := FirstRefresh(w.store, f).0;
    assert after.rows[index.value] in after.rows;
  }

  lemma ExpiredIsRefused(s: Store, a: RotateArgs, row: Session)
    requires row in s.rows && row.hmac == Some(a.before) && row.user == a.user && row.id == a.session
    requires row.sessionExpires <= a.now && DistinctIds(s.rows)
    ensures AttemptRotate(s, a) == (s, Expired)
  {
    FirstExists(s.rows, HoldsToken(a.before, a.user, a.session), row);
    SameIdSameRow(s.rows, s.rows[FirstIndex(s.rows, HoldsToken(a.before, a.user, a.session)).value], row);
  }

  /**
   Issued after the session's absolute expiry, a first refresh token comes with a cookie of one second, a
   stored expiry that has passed already, and is refused by every rotation that follows.
   */
  lemma LateFirstRefreshIsUseless(w: World, f: FirstArgs, row: Session, next: World, a: RotateArgs)
    requires Good(w) && StepsTo(w, First(f), next)
    requires row in w.store.rows && row.id == f.session && row.user == f.user && row.hmac.None?
    requires row.sessionExpires <= f.now
    requires a.before == f.token && a.user == f.user && a.session == f.session && f.now <= a.now
    ensures FirstRefresh(w.store, f).1 == Some(1)
    ensures exists r :: r in next.store.rows && r.hmac == Some(f.token) && r.refreshExpires <= f.now
    ensures AttemptRotate(next.store, a) == (next.store, Expired)
  {
    FirstRefreshStores(w, f, row);
    StepKeepsGood(w, First(f), next);
    var times := RotateSessionTimes(f.now, row.sessionExpires, f.refreshTtl);
    var issued := row.(hmac := Some(f.token), refreshExpires := times.0, ip := f.ip, agent := f.agent);
    AtMostSession(f.now, row.sessionExpires, f.refreshTtl);
    assert row.sessionExpires / 1000 <= f.now / 1000;
    assert issued in next.store.rows;
    ExpiredIsRefused(next.store, a, issued);
  }

  // ---------- a run ----------

  /** Access tokens live 900 seconds, sessions 300; the password is changed after 600 and the token used at once. */
  const MUST_CHANGE := Login(1, 7, None, 0, 900, 300, 300, None, None)
  const CHANGE := FirstArgs(7, 1, 100, 600_000, 300, None, None)
  const USE := RotateArgs(100, 101, 7, 1, 600_000, 300, 15, 3600, None, None)
  const WAITING := Session(1, 7, None, 300_000, 900_000, None, None)

  const LOGGED := Step(SessionRuns.START, MUST_CHANGE)
  const CHANGED := Step(LOGGED, First(CHANGE))
  const LATE_RUN := Run([MUST_CHANGE, First(CHANGE), Rotation(USE)],
                        [SessionRuns.START, LOGGED, CHANGED, Step(CHANGED, Rotation(USE))])

  lemma LateLogin()
    ensures StepsTo(SessionRuns.START, MUST_CHANGE, LOGGED)
    ensures LOGGED.store == Store([WAITING], []) && LOGGED.minted == {}
  {
  }

  lemma LateChange()
    ensures StepsTo(LOGGED, First(CHANGE), CHANGED) && CHANGED.minted == {100}
    ensures StepsTo(CHANGED, Rotation(USE), Step(CHANGED, Rotation(USE)))
  {
    LateLogin();
    assert {} + {100} == {100};
  }

  lemma LateIsRun()
    ensures IsRun(LATE_RUN)
  {
    LateLogin();
    LateChange();
    assert StepAt(LATE_RUN, 0) && StepAt(LATE_RUN, 1) && StepAt(LATE_RUN, 2);
  }

  lemma LateAnswers()
    ensures WAITING in LATE_RUN.worlds[1].store.rows
    ensures AnswerAt(LATE_RUN, 1) == Issued(FirstRefresh(LOGGED.store, CHANGE).1)
    ensures AnswerAt(LATE_RUN, 2) == Answered(AttemptRotate(CHANGED.store, USE).1)
  {
    LateLogin();
    assert LOGGED.store.rows[0] == WAITING;
  }

  /**
   Reachable: while the access token still lives, the password change answers with a cookie age of one
   second, stores an expiry five minutes in the past, and the rotation that follows is refused.
   */
  lemma LateFirstRefreshIsReachable()
    ensures IsRun(LATE_RUN)
    ensures WAITING in LATE_RUN.worlds[1].store.rows && OnlyAccessLives(WAITING, CHANGE.now)
    ensures AnswerAt(LATE_RUN, 1) == Issued(Some(1))
    ensures exists r :: r in LATE_RUN.worlds[2].store.rows && r.hmac == Some(100) && r.refreshExpires <= CHANGE.now
    ensures AnswerAt(LATE_RUN, 2) == Answered(Expired)
  {
    LateIsRun();
    RunIsGood(LATE_RUN, 1);
    LateAnswers();
    LateLogin();
    LateChange();
    LateFirstRefreshIsUseless(LOGGED, CHANGE, WAITING, CHANGED, USE);
  }
}
