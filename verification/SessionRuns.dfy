/** What holds over every run of logins, rotations, password changes, logouts and cleanups. */
module SessionRuns {
  import opened Prelude
  import opened SessionStore

  datatype Event =
    | Login(id: Id, user: Id, token: Option<Token>, now: int, accessTtl: int, refreshTtl: int, totalTtl: int,
            ip: Option<string>, agent: Option<string>)
    | Rotation(rotate: RotateArgs)
    | First(first: FirstArgs)
    | Logout(user: Id, session: Id)
    | LogoutAll(user: Id)
    | Sweep(now: int)

  datatype Answer =
    | Created(accessMaxAge: int, refreshMaxAge: Option<int>)
    | Answered(outcome: Outcome)
    | Issued(maxAge: Option<int>)
    | Removed
    | Swept(complete: bool)

  /** The store, every token minted so far and every session as it was created. */
  datatype World = World(store: Store, minted: set<Token>, known: map<Id, Session>)

  const START := World(EMPTY, {}, map[])

  /** A login without a token is one that must change its password first. */
  function NewRow(e: Event): Session
    requires e.Login?
  {
    var times := LoginSessionTimes(e.now, e.accessTtl, e.refreshTtl, e.totalTtl, e.token.None?);
    Session(e.id, e.user, e.token, times.sessionExpires, times.refreshExpires, e.ip, e.agent)
  }

  function Minted(e: Event): set<Token> {
    match e
    case Login(_, _, Some(t), _, _, _, _, _, _) => {t}
    case Rotation(a) => {a.after}
    case First(f) => {f.token}
    case _ => {}
  }

  function Known(e: Event): map<Id, Session> {
    if e.Login? then map[e.id := NewRow(e)] else map[]
  }

  function StoreStep(s: Store, e: Event): (Store, Answer) {
    match e
    case Login(_, _, _, now, accessTtl, refreshTtl, totalTtl, _, _) =>
      var times := LoginSessionTimes(now, accessTtl, refreshTtl, totalTtl, e.token.None?);
      (Create(s, NewRow(e)), Created(times.accessMaxAge, times.refreshMaxAge))
    case Rotation(a) => var (after, outcome) := AttemptRotate(s, a); (after, Answered(outcome))
    case First(f) => var (after, age) := FirstRefresh(s, f); (after, Issued(age))
    case Logout(user, session) => (RemoveChain(s, user, session), Removed)
    case LogoutAll(user) => (RemoveUser(s, user), Removed)
    case Sweep(now) => var (after, complete) := Cleanup(s, now); (after, Swept(complete))
  }

  function Step(w: World, e: Event): World {
    World(StoreStep(w.store, e).0, w.minted + Minted(e), w.known + Known(e))
  }

  /** Minted tokens and session ids are new. */
  predicate Fresh(w: World, e: Event) {
    Minted(e) !! w.minted && Known(e).Keys !! w.known.Keys
  }

  ghost predicate StepsTo(w: World, e: Event, next: World) {
    Fresh(w, e) && next == Step(w, e)
  }

  /** A run with the worlds between its events. */
  datatype Run = Run(events: seq<Event>, worlds: seq<World>)

  ghost predicate StepAt(run: Run, i: nat)
    requires i < |run.events| < |run.worlds|
  {
    StepsTo(run.worlds[i], run.events[i], run.worlds[i + 1])
  }

  ghost predicate IsRun(run: Run) {
    && |run.worlds| == |run.events| + 1
    && run.worlds[0] == START
    && forall i :: 0 <= i < |run.events| ==> StepAt(run, i)
  }

  function AnswerAt(run: Run, i: nat): Answer
    requires i < |run.events| < |run.worlds|
  {
    StoreStep(run.worlds[i].store, run.events[i]).1
  }

  // ---------- the invariant ----------

  ghost predicate RowsGood(w: World) {
    && DistinctIds(w.store.rows)
    && (forall r :: r in w.store.rows ==>
          && r.id in w.known && w.known[r.id].user == r.user && w.known[r.id].sessionExpires == r.sessionExpires
          && r.sessionExpires % 1000 == 0
          && (r.hmac.Some? ==> r.refreshExpires <= r.sessionExpires && r.hmac.value in w.minted))
    && (forall r, q :: r in w.store.rows && q in w.store.rows && r.hmac.Some? && r.hmac == q.hmac ==> r.id == q.id)
  }

  ghost predicate HasRow(rows: seq<Session>, u: Used) {
    exists r :: r in rows && r.id == u.session && r.user == u.user
  }

  ghost predicate UsedGood(w: World) {
    && (forall u :: u in w.store.used ==> u.hmac in w.minted && HasRow(w.store.rows, u))
    && (forall u, v :: u in w.store.used && v in w.store.used && u.hmac == v.hmac ==> u == v)
  }

  predicate Live(s: Store, token: Token) {
    exists r :: r in s.rows && r.hmac == Some(token)
  }

  ghost predicate LiveNotUsed(w: World) {
    forall u :: u in w.store.used ==> !Live(w.store, u.hmac)
  }

  ghost predicate Good(w: World) {
    RowsGood(w) && UsedGood(w) && LiveNotUsed(w)
  }

  lemma {:induction false} FilterDistinctIds(rows: seq<Session>, p: Session -> bool)
    requires DistinctIds(rows)
    ensures DistinctIds(Filter(rows, p))
  {
    if rows != [] {
      var init, last := rows[..|rows| - 1], rows[|rows| - 1];
      FilterDistinctIds(init, p);
      forall x | x in Filter(init, p) ensures x.id != last.id {
        var k :| 0 <= k < |init| && init[k] == x;
      }
    }
  }

  lemma SameIdSameRow(rows: seq<Session>, r: Session, q: Session)
    requires DistinctIds(rows) && r in rows && q in rows && r.id == q.id
    ensures r == q
  {
  }

  /** Removing rows and used tokens is safe when no kept used token loses its session. */
  lemma RemovalKeepsGood(w: World, keep: Session -> bool, keepUsed: Used -> bool, minted: set<Token>, known: map<Id, Session>)
    requires Good(w) && minted >= w.minted && known == w.known
    requires forall u, r :: u in w.store.used && keepUsed(u) && r in w.store.rows && r.id == u.session && r.user == u.user ==> keep(r)
    ensures Good(World(Store(Filter(w.store.rows, keep), Filter(w.store.used, keepUsed)), minted, known))
  {
    var s := Store(Filter(w.store.rows, keep), Filter(w.store.used, keepUsed));
    FilterDistinctIds(w.store.rows, keep);
    forall u | u in s.used ensures HasRow(s.rows, u) && !Live(s, u.hmac) {
      assert u in w.store.used;
      var r :| r in w.store.rows && r.id == u.session && r.user == u.user;
      assert r in s.rows;
      if Live(s, u.hmac) {
        assert Live(w.store, u.hmac);
      }
    }
  }

  lemma {:induction false} KeepsAll<T(!new)>(s: seq<T>, p: T -> bool)
    requires forall x :: p(x)
    ensures Filter(s, p) == s
  {
    if s != [] {
      KeepsAll(s[..|s| - 1], p);
      assert s == s[..|s| - 1] + [s[|s| - 1]];
    }
  }

  lemma SweepKeepsGood(w: World, now: int)
    requires Good(w)
    ensures Good(World(Cleanup(w.store, now).0, w.minted, w.known))
  {
    var used := Filter(w.store.used, UnexpiredUsed(now));
    var rows := Filter(w.store.rows, Unexpired(now));
    if References(used, rows) {
      forall u, r | u in w.store.used && UnexpiredUsed(now)(u) && r in w.store.rows && r.id == u.session && r.user == u.user
        ensures Unexpired(now)(r)
      {
        var j :| 0 <= j < |used| && used[j] == u;
        var i :| 0 <= i < |rows| && rows[i].id == used[j].session;
        assert rows[i] in rows;
        SameIdSameRow(w.store.rows, r, rows[i]);
      }
      RemovalKeepsGood(w, Unexpired(now), UnexpiredUsed(now), w.minted, w.known);
    } else {
      var all := (r: Session) => true;
      RemovalKeepsGood(w, all, UnexpiredUsed(now), w.minted, w.known);
      KeepsAll(w.store.rows, all);
    }
  }

  lemma NewRowGood(e: Event)
    requires e.Login?
    ensures var row := NewRow(e);
            row.id == e.id && row.sessionExpires % 1000 == 0
            && (row.hmac.Some? ==> row.refreshExpires <= row.sessionExpires && Minted(e) == {row.hmac.value})
  {
  }

  lemma LoginKeepsGood(w: World, e: Event)
    requires Good(w) && e.Login? && Fresh(w, e)
    ensures Good(Step(w, e))
  {
    var after := Step(w, e);
    var row := NewRow(e);
    assert after == World(w.store.(rows := w.store.rows + [row]), w.minted + Minted(e), w.known[e.id := row]);
    NewRowGood(e);
    assert e.id !in w.known by { assert e.id in Known(e); }
    forall u | u in after.store.used ensures HasRow(after.store.rows, u) {
      var r :| r in w.store.rows && r.id == u.session && r.user == u.user;
      assert r in after.store.rows;
    }
    forall u | u in after.store.used ensures !Live(after.store, u.hmac) {
      assert !Live(w.store, u.hmac);
    }
  }

  /** The rows after one of them got a new token. */
  lemma ReplacedRows(rows: seq<Session>, i: nat, row: Session)
    requires DistinctIds(rows) && i < |rows| && row.id == rows[i].id
    ensures DistinctIds(rows[i := row])
    ensures forall r :: r in rows[i := row] <==> r == row || (r in rows && r.id != row.id)
  {
    forall r | r in rows && r.id != row.id ensures r in rows[i := row] {
      var k :| 0 <= k < |rows| && rows[k] == r;
      assert rows[i := row][k] == r;
    }
    assert rows[i := row][i] == row;
  }

  lemma ReissueKeepsGood(w: World, i: nat, row: Session, used: seq<Used>, after: World)
    requires Good(w) && i < |w.store.rows|
    requires row.id == w.store.rows[i].id && row.user == w.store.rows[i].user
    requires row.sessionExpires == w.store.rows[i].sessionExpires && row.refreshExpires <= row.sessionExpires
    requires row.hmac.Some? && row.hmac.value !in w.minted
    requires used == w.store.used || (exists u :: used == w.store.used + [u]
                                               && w.store.rows[i].hmac == Some(u.hmac)
                                               && u.session == row.id && u.user == row.user)
    requires after == World(Store(w.store.rows[i := row], used), w.minted + {row.hmac.value}, w.known)
    ensures Good(after)
  {
    var rows := w.store.rows;
    var was := rows[i];
    assert was in rows;
    ReplacedRows(rows, i, row);
    forall u | u in used ensures u in w.store.used || (Some(u.hmac) == was.hmac && u.session == row.id && u.user == row.user) {
    }
    assert row in after.store.rows;
    forall u | u in used ensures u.hmac in after.minted && HasRow(after.store.rows, u) {
      if u in w.store.used {
        var r :| r in rows && r.id == u.session && r.user == u.user;
        if r.id != row.id {
          assert r in after.store.rows;
        }
      }
    }
    forall u | u in used ensures !Live(after.store, u.hmac) {
      if r :| r in after.store.rows && r.hmac == Some(u.hmac) {
        if r != row {
          assert r in rows;
          assert Live(w.store, u.hmac);
        }
      }
    }
    assert was.hmac.Some? ==> Live(w.store, was.hmac.value);
  }

  lemma AtMostSession(now: int, sessionExpires: int, refreshTtl: int)
    ensures RotateSessionTimes(now, sessionExpires, refreshTtl).0 <= sessionExpires
  {
  }

  lemma RotationKeepsGood(w: World, e: Event)
    requires Good(w) && e.Rotation? && Fresh(w, e)
    ensures Good(Step(w, e))
  {
    var a := e.rotate;
    var s := w.store;
    var after := Step(w, e);
    assert after == World(AttemptRotate(s, a).0, w.minted + {a.after}, w.known);
    match AttemptRotate(s, a).1
    case Rotated(_, _) =>
      var i := FirstIndex(s.rows, HoldsToken(a.before, a.user, a.session)).value;
      AtMostSession(a.now, s.rows[i].sessionExpires, a.refreshTtl);
      assert after.store.used == s.used + [Consumed(a)];
      ReissueKeepsGood(w, i, Reissued(s.rows[i], a), after.store.used, after);
    case HardReuse =>
      RemovalKeepsGood(w, OutsideChain(a.user, a.session), UsedOutsideChain(a.user, a.session), after.minted, w.known);
    case _ =>
      MintingKeepsGood(w, {a.after});
  }

  lemma MintingKeepsGood(w: World, tokens: set<Token>)
    requires Good(w)
    ensures Good(w.(minted := w.minted + tokens))
  {
  }

  lemma FirstKeepsGood(w: World, e: Event)
    requires Good(w) && e.First? && Fresh(w, e)
    ensures Good(Step(w, e))
  {
    var f := e.first;
    var s := w.store;
    var after := Step(w, e);
    var index := FirstIndex(s.rows, IsSession(f.user, f.session));
    if index.Some? && s.rows[index.value].hmac.None? {
      var row := s.rows[index.value];
      AtMostSession(f.now, row.sessionExpires, f.refreshTtl);
      ReissueKeepsGood(w, index.value, after.store.rows[index.value], s.used, after);
    } else {
      MintingKeepsGood(w, {f.token});
    }
  }

  lemma StepKeepsGood(w: World, e: Event, next: World)
    requires Good(w) && StepsTo(w, e, next)
    ensures Good(next)
  {
    match e
    case Login(_, _, _, _, _, _, _, _, _) => LoginKeepsGood(w, e);
    case Rotation(_) => RotationKeepsGood(w, e);
    case First(_) => FirstKeepsGood(w, e);
    case Logout(user, session) =>
      RemovalKeepsGood(w, OutsideChain(user, session), UsedOutsideChain(user, session), w.minted, w.known);
    case LogoutAll(user) => RemovalKeepsGood(w, OtherUser(user), UsedByOther(user), w.minted, w.known);
    case Sweep(now) => SweepKeepsGood(w, now);
  }

  /**
   In every run: a live token is never among the used ones, no two sessions share a token, a session
   with a token never outlives its absolute expiry, and every used token still has its session.
   */
  lemma {:induction false} RunIsGood(run: Run, i: nat)
    requires IsRun(run) && i <= |run.events|
    ensures Good(run.worlds[i])
  {
    if i == 0 {
      assert Good(START);
    } else {
      RunIsGood(run, i - 1);
      assert StepAt(run, i - 1);
      StepKeepsGood(run.worlds[i - 1], run.events[i - 1], run.worlds[i]);
    }
  }
}
