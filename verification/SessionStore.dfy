/**
 Refresh-token sessions with atomic steps (auth/src/sessions.ts, session_issue.ts,
 change_password_apply.ts, session_cleanup.ts).  Times are milliseconds, lifetimes are seconds.
 */
module SessionStore {
  import opened Prelude

  /** Token HMACs, session ids and user ids are opaque: only their equality is used. */
  type Token = nat
  type Id = nat

  datatype Session = Session(id: Id, user: Id, hmac: Option<Token>, sessionExpires: int, refreshExpires: int,
                             ip: Option<string>, agent: Option<string>)

  datatype Used = Used(hmac: Token, user: Id, session: Id, usedAt: int, expiresAt: int)

  datatype Store = Store(rows: seq<Session>, used: seq<Used>)

  datatype RotateArgs = RotateArgs(before: Token, after: Token, user: Id, session: Id, now: int,
                                   refreshTtl: int, grace: int, window: int,
                                   ip: Option<string>, agent: Option<string>)

  datatype Outcome =
    | Rotated(refreshExpires: int, sessionExpires: int)
    | Expired
    | SoftReuse
    | HardReuse
    | Unknown

  // ---------- lifetimes ----------

  datatype LoginTimes = LoginTimes(sessionExpires: int, refreshExpires: int, accessMaxAge: int, refreshMaxAge: Option<int>)

  function Min(a: int, b: int): int {
    if a <= b then a else b
  }

  function Max(a: int, b: int): int {
    if a >= b then a else b
  }

  function LoginSessionTimes(now: int, accessTtl: int, refreshTtl: int, totalTtl: int, mustChange: bool): LoginTimes {
    var issued := now / 1000;
    var sessionExp := issued + totalTtl;
    if mustChange then
      LoginTimes(sessionExp * 1000, (issued + accessTtl) * 1000, Max(1, accessTtl), None)
    else
      var refreshExp := Min(issued + refreshTtl, sessionExp);
      var remaining := Max(1, refreshExp - issued);
      LoginTimes(sessionExp * 1000, refreshExp * 1000, remaining, Some(remaining))
  }

  /** New refresh expiry and cookie max-age. */
  function RotateSessionTimes(now: int, sessionExpires: int, refreshTtl: int): (int, int) {
    var issued := now / 1000;
    var refreshExp := Min(issued + refreshTtl, sessionExpires / 1000);
    (refreshExp * 1000, Max(1, refreshExp - issued))
  }

  predicate WithinGrace(usedAt: int, now: int, grace: int) {
    now - usedAt <= grace * 1000
  }

  // ---------- steps ----------

  const EMPTY := Store([], [])

  /** Index of the first element that satisfies `p`. */
  function FirstIndex<T>(s: seq<T>, p: T -> bool): (r: Option<nat>)
    ensures r.Some? ==> r.value < |s| && p(s[r.value]) && forall k :: 0 <= k < r.value ==> !p(s[k])
    ensures r.None? ==> forall k :: 0 <= k < |s| ==> !p(s[k])
  {
    FirstFrom(s, p, 0)
  }

  function FirstFrom<T>(s: seq<T>, p: T -> bool, i: nat): (r: Option<nat>)
    requires i <= |s|
    ensures r.Some? ==> i <= r.value < |s| && p(s[r.value]) && forall k :: i <= k < r.value ==> !p(s[k])
    ensures r.None? ==> forall k :: i <= k < |s| ==> !p(s[k])
    decreases |s| - i
  {
    if i == |s| then None else if p(s[i]) then Some(i) else FirstFrom(s, p, i + 1)
  }

  lemma FirstExists<T>(s: seq<T>, p: T -> bool, x: T)
    requires x in s && p(x)
    ensures FirstIndex(s, p).Some?
  {
    var k :| 0 <= k < |s| && s[k] == x;
  }

  function HoldsToken(token: Token, user: Id, session: Id): Session -> bool {
    (r: Session) => r.hmac == Some(token) && r.user == user && r.id == session
  }

  function SpentToken(token: Token, user: Id, session: Id): Used -> bool {
    (u: Used) => u.hmac == token && u.user == user && u.session == session
  }

  function IsSession(user: Id, session: Id): Session -> bool {
    (r: Session) => r.id == session && r.user == user
  }

  function OutsideChain(user: Id, session: Id): Session -> bool {
    (r: Session) => !(r.id == session && r.user == user)
  }

  function UsedOutsideChain(user: Id, session: Id): Used -> bool {
    (u: Used) => !(u.session == session && u.user == user)
  }

  function OtherUser(user: Id): Session -> bool {
    (r: Session) => r.user != user
  }

  function UsedByOther(user: Id): Used -> bool {
    (u: Used) => u.user != user
  }

  function Create(s: Store, row: Session): Store {
    s.(rows := s.rows + [row])
  }

  function RemoveChain(s: Store, user: Id, session: Id): Store {
    Store(Filter(s.rows, OutsideChain(user, session)), Filter(s.used, UsedOutsideChain(user, session)))
  }

  function RemoveUser(s: Store, user: Id): Store {
    Store(Filter(s.rows, OtherUser(user)), Filter(s.used, UsedByOther(user)))
  }

  function Reissued(row: Session, a: RotateArgs): Session {
    row.(hmac := Some(a.after), refreshExpires := RotateSessionTimes(a.now, row.sessionExpires, a.refreshTtl).0,
    ip := a.ip, agent := a.agent)
  }

  function Consumed(a: RotateArgs): Used {
    Used(a.before, a.user, a.session, a.now, a.now + a.window * 1000)
  }

  function AttemptRotate(s: Store, a: RotateArgs): (Store, Outcome) {
    match FirstIndex(s.rows, HoldsToken(a.before, a.user, a.session))
    case Some(i) =>
      var row := s.rows[i];
      if a.now >= row.sessionExpires || a.now >= row.refreshExpires then (s, Expired)
      else
        (Store(s.rows[i := Reissued(row, a)], s.used + [Consumed(a)]),
         Rotated(Reissued(row, a).refreshExpires, row.sessionExpires))
    case None =>
      match FirstIndex(s.used, SpentToken(a.before, a.user, a.session))
      case None => (s, Unknown)
      case Some(j) =>
        if WithinGrace(s.used[j].usedAt, a.now, a.grace) then (s, SoftReuse)
        else (RemoveChain(s, a.user, a.session), HardReuse)
  }

  datatype FirstArgs = FirstArgs(user: Id, session: Id, token: Token, now: int, refreshTtl: int,
                                 ip: Option<string>, agent: Option<string>)

  /** `issue_first_refresh`: only a session without a refresh token gets one. */
  function IssueFirst(s: Store, f: FirstArgs, refreshExpires: int): (Store, bool) {
    match FirstIndex(s.rows, IsSession(f.user, f.session))
    case None => (s, false)
    case Some(i) =>
      if s.rows[i].hmac.Some? then (s, false)
      else (s.(rows := s.rows[i := s.rows[i].(hmac := Some(f.token), refreshExpires := refreshExpires,
                                              ip := f.ip, agent := f.agent)]), true)
  }

  /** The token part of a password change: the max-age handed to the client, if a token was issued. */
  function FirstRefresh(s: Store, f: FirstArgs): (Store, Option<int>) {
    match FirstIndex(s.rows, IsSession(f.user, f.session))
    case None => (s, None)
    case Some(i) =>
      if s.rows[i].hmac.Some? then (s, None)
      else
        var times := RotateSessionTimes(f.now, s.rows[i].sessionExpires, f.refreshTtl);
        var (after, issued) := IssueFirst(s, f, times.0);
        (after, if issued then Some(times.1) else None)
  }

  /** The foreign key from used tokens to sessions. */
  predicate References(used: seq<Used>, rows: seq<Session>) {
    forall j :: 0 <= j < |used| ==> exists i :: 0 <= i < |rows| && rows[i].id == used[j].session
  }

  function Unexpired(now: int): Session -> bool {
    (r: Session) => !(r.sessionExpires <= now || r.refreshExpires <= now)
  }

  function UnexpiredUsed(now: int): Used -> bool {
    (u: Used) => !(u.expiresAt <= now)
  }

  /** Two statements, each on its own; the second fails as a whole when it would break the foreign key. */
  function Cleanup(s: Store, now: int): (Store, bool) {
    var used := Filter(s.used, UnexpiredUsed(now));
    var rows := Filter(s.rows, Unexpired(now));
    if References(used, rows) then (Store(rows, used), true) else (Store(s.rows, used), false)
  }

  // ---------- what each step promises, on any store with distinct ids and used tokens ----------

  predicate DistinctIds(rows: seq<Session>) {
    forall i, j :: 0 <= i < j < |rows| ==> rows[i].id != rows[j].id
  }

  /** Ids and used tokens are keys of their tables. */
  ghost predicate Keyed(s: Store) {
    DistinctIds(s.rows) && forall u, v :: u in s.used && v in s.used && u.hmac == v.hmac ==> u == v
  }

  predicate Shows(r: Session, a: RotateArgs) {
    r.hmac == Some(a.before) && r.user == a.user && r.id == a.session
  }

  predicate ShowsUsed(u: Used, a: RotateArgs) {
    u.hmac == a.before && u.user == a.user && u.session == a.session
  }

  /** The refresh lifetime from now, cut off at the session's end, in whole seconds. */
  ghost predicate IsRenewed(expires: int, now: int, ttl: int, sessionExpires: int) {
    var full, end := now / 1000 + ttl, sessionExpires / 1000;
    expires == 1000 * (if full <= end then full else end)
  }

  /** `r` after `was` got a token; id, owner and absolute expiry stay. */
  ghost predicate IsReissued(was: Session, r: Session, token: Token, now: int, ttl: int, ip: Option<string>, agent: Option<string>) {
    && r.id == was.id && r.user == was.user && r.sessionExpires == was.sessionExpires
    && r.hmac == Some(token) && r.ip == ip && r.agent == agent
    && IsRenewed(r.refreshExpires, now, ttl, was.sessionExpires)
  }

  ghost predicate ChainRemoved(s: Store, t: Store, user: Id, session: Id) {
    && (forall r :: r in t.rows <==> r in s.rows && !(r.id == session && r.user == user))
    && (forall u :: u in t.used <==> u in s.used && !(u.session == session && u.user == user))
  }

  /** Which answer a rotation gives. */
  ghost predicate RotationAnswer(s: Store, a: RotateArgs, o: Outcome) {
    && (o.Rotated? <==> exists r :: r in s.rows && Shows(r, a) && a.now < r.sessionExpires && a.now < r.refreshExpires)
    && (o.Expired? <==> exists r :: r in s.rows && Shows(r, a) && (r.sessionExpires <= a.now || r.refreshExpires <= a.now))
    && ((exists r :: r in s.rows && Shows(r, a)) ==> o.Rotated? || o.Expired?)
    && ((forall r :: r in s.rows ==> !Shows(r, a)) ==>
          && (o.SoftReuse? <==> exists u :: u in s.used && ShowsUsed(u, a) && a.now <= u.usedAt + 1000 * a.grace)
          && (o.HardReuse? <==> exists u :: u in s.used && ShowsUsed(u, a) && a.now > u.usedAt + 1000 * a.grace)
          && (o.Unknown? <==> forall u :: u in s.used ==> !ShowsUsed(u, a)))
  }

  /** What it leaves: the row renewed and the old token recorded; the chain gone; or nothing changed. */
  ghost predicate RotationResult(s: Store, a: RotateArgs, t: Store, o: Outcome) {
    match o
    case Rotated(refreshExpires, sessionExpires) =>
      && |t.rows| == |s.rows|
      && (forall i :: 0 <= i < |s.rows| ==>
            if Shows(s.rows[i], a)
            then IsReissued(s.rows[i], t.rows[i], a.after, a.now, a.refreshTtl, a.ip, a.agent)
                 && refreshExpires == t.rows[i].refreshExpires && sessionExpires == s.rows[i].sessionExpires
            else t.rows[i] == s.rows[i])
      && t.used == s.used + [Used(a.before, a.user, a.session, a.now, a.now + 1000 * a.window)]
    case HardReuse => ChainRemoved(s, t, a.user, a.session)
    case _ => t == s
  }

  lemma RotationKeepsPromise(s: Store, a: RotateArgs)
    requires Keyed(s)
    ensures RotationAnswer(s, a, AttemptRotate(s, a).1)
    ensures RotationResult(s, a, AttemptRotate(s, a).0, AttemptRotate(s, a).1)
  {
    var index := FirstIndex(s.rows, HoldsToken(a.before, a.user, a.session));
    if index.Some? {
      var row := s.rows[index.value];
      assert row in s.rows && Shows(row, a);
      forall r | r in s.rows && Shows(r, a) ensures r == row {
      }
    } else {
      var spent := FirstIndex(s.used, SpentToken(a.before, a.user, a.session));
      if spent.Some? {
        assert s.used[spent.value] in s.used && ShowsUsed(s.used[spent.value], a);
      }
    }
  }

  /** The first refresh token goes to the named session if it has none; nothing else changes. */
  ghost predicate FirstResult(s: Store, f: FirstArgs, t: Store, age: Option<int>) {
    && (age.Some? <==> exists r :: r in s.rows && r.id == f.session && r.user == f.user && r.hmac.None?)
    && (age.None? ==> t == s)
    && (age.Some? ==>
          && t.used == s.used && |t.rows| == |s.rows|
          && forall i :: 0 <= i < |s.rows| ==>
               if s.rows[i].id == f.session
               then IsReissued(s.rows[i], t.rows[i], f.token, f.now, f.refreshTtl, f.ip, f.agent)
                    && age.value == Max(1, t.rows[i].refreshExpires / 1000 - f.now / 1000)
               else t.rows[i] == s.rows[i])
  }

  lemma FirstKeepsPromise(s: Store, f: FirstArgs)
    requires DistinctIds(s.rows)
    ensures FirstResult(s, f, FirstRefresh(s, f).0, FirstRefresh(s, f).1)
  {
    var index := FirstIndex(s.rows, IsSession(f.user, f.session));
    if index.Some? {
      var row := s.rows[index.value];
      assert row in s.rows;
      forall r | r in s.rows && r.id == f.session ensures r == row {
      }
    }
  }

  // ---------- the in-memory store ----------

  /** One backward pass that splices out every element that fails `keep`. */
  method SpliceOut<T(!new)>(s: seq<T>, keep: T -> bool) returns (r: seq<T>)
    ensures r == Filter(s, keep)
  {
    r := s;
    var i := |s|;
    assert s[|s|..] == [];
    while i > 0
      invariant 0 <= i <= |s|
      invariant r == s[..i] + Filter(s[i..], keep)
    {
      i := i - 1;
      assert s[..i + 1] == s[..i] + [s[i]] && s[i..] == [s[i]] + s[i + 1..];
      SpliceOne(s[..i], s[i], Filter(s[i + 1..], keep));
      FilterCons(s[i], s[i + 1..], keep);
      if !keep(r[i]) {
        r := r[..i] + r[i + 1..];
      }
    }
    assert s[0..] == s;
  }

  lemma SpliceOne<T>(before: seq<T>, x: T, after: seq<T>)
    ensures var whole := before + [x] + after;
            whole[|before|] == x
            && whole[..|before|] + whole[|before| + 1..] == before + after
            && whole == before + ([x] + after)
  {
  }

  lemma {:induction false} FilterCons<T(!new)>(x: T, b: seq<T>, p: T -> bool)
    ensures Filter([x] + b, p) == (if p(x) then [x] else []) + Filter(b, p)
  {
    if b == [] {
      assert [x] + b == [x] && [x][..0] == [];
    } else {
      var init, last := b[..|b| - 1], b[|b| - 1];
      FilterCons(x, init, p);
      assert [x] + b == ([x] + init) + [last];
      FilterSnoc([x] + init, last, p);
      var tail := if p(last) then [last] else [];
      assert Filter(b, p) == Filter(init, p) + tail;
      ConcatAssoc(if p(x) then [x] else [], Filter(init, p), tail);
    }
  }

  class MemorySessions {
    var rows: seq<Session>
    var used: seq<Used>

    function Contents(): Store
      reads this
    {
      Store(rows, used)
    }

    constructor ()
      ensures Contents() == EMPTY
    {
      rows := [];
      used := [];
    }

    method Add(row: Session)
      modifies this
      ensures Contents() == Create(old(Contents()), row)
    {
      rows := rows + [row];
    }

    method Invalidate(user: Id, session: Id)
      modifies this
      ensures ChainRemoved(old(Contents()), Contents(), user, session)
      ensures Contents() == RemoveChain(old(Contents()), user, session)
    {
      used := SpliceOut(used, UsedOutsideChain(user, session));
      rows := SpliceOut(rows, OutsideChain(user, session));
    }

    method InvalidateAll(user: Id)
      modifies this
      ensures forall r :: r in rows <==> r in old(rows) && r.user != user
      ensures forall u :: u in used <==> u in old(used) && u.user != user
      ensures Contents() == RemoveUser(old(Contents()), user)
    {
      used := SpliceOut(used, UsedByOther(user));
      rows := SpliceOut(rows, OtherUser(user));
    }

    method Rotate(a: RotateArgs) returns (outcome: Outcome)
      modifies this
      ensures Keyed(old(Contents())) ==>
                RotationAnswer(old(Contents()), a, outcome) && RotationResult(old(Contents()), a, Contents(), outcome)
      ensures (Contents(), outcome) == AttemptRotate(old(Contents()), a)
    {
      if Keyed(Contents()) {
        RotationKeepsPromise(Contents(), a);
      }
      var index := FirstIndex(rows, HoldsToken(a.before, a.user, a.session));
      if index.Some? {
        var row := rows[index.value];
        if a.now >= row.sessionExpires || a.now >= row.refreshExpires {
          return Expired;
        }
        var times := RotateSessionTimes(a.now, row.sessionExpires, a.refreshTtl);
        used := used + [Used(a.before, a.user, a.session, a.now, a.now + a.window * 1000)];
        rows := rows[index.value :=
          row.(hmac := Some(a.after), refreshExpires := times.0, ip := a.ip, agent := a.agent)];
        return Rotated(times.0, row.sessionExpires);
      }
      var spent := FirstIndex(used, SpentToken(a.before, a.user, a.session));
      if spent.None? {
        return Unknown;
      }
      if WithinGrace(used[spent.value].usedAt, a.now, a.grace) {
        return SoftReuse;
      }
      Invalidate(a.user, a.session);
      return HardReuse;
    }

    method IssueFirstRefresh(f: FirstArgs, refreshExpires: int) returns (issued: bool)
      modifies this
      ensures (Contents(), issued) == IssueFirst(old(Contents()), f, refreshExpires)
    {
      var index := FirstIndex(rows, IsSession(f.user, f.session));
      if index.None? || rows[index.value].hmac.Some? {
        return false;
      }
      rows := rows[index.value := rows[index.value].(hmac := Some(f.token), refreshExpires := refreshExpires,
                                                     ip := f.ip, agent := f.agent)];
      return true;
    }
  }
}
