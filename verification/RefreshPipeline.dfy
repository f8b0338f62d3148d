/** The refresh endpoint on top of the session store (auth/src/refresh_pipeline.ts). */
module RefreshPipeline {
  import opened Prelude
  import opened SessionStore
  import opened SessionRuns
  import SessionTheorems

  /** What verifying the access cookie yields. */
  datatype Access =
    | Missing
    | Invalid
    | Claims(user: Id, session: Option<Id>, mustChange: bool, exp: Option<int>)

  /** `presented` and `minted` are the HMACs of the old and the new refresh token. */
  datatype Request = Request(access: Access, presented: Option<Token>, minted: Token, now: int,
                             refreshTtl: int, grace: int, window: int, ip: Option<string>, agent: Option<string>)

  /** Which of the calls out of this module fail. */
  datatype Faults = Faults(draw: bool, rotate: bool, audit: bool, sign: bool, invalidate: bool)

  datatype Reply =
    | Success(newAccess: bool, refreshMaxAge: int, accessMaxAge: int)
    | Soft
    | Hard
    | Unavailable
    | InternalError

  predicate Rotates(q: Request) {
    q.access.Claims? && q.access.session.Some? && q.presented.Some? && !q.access.mustChange
  }

  function ArgsOf(q: Request): RotateArgs
    requires Rotates(q)
  {
    RotateArgs(q.presented.value, q.minted, q.access.user, q.access.session.value, q.now,
               q.refreshTtl, q.grace, q.window, q.ip, q.agent)
  }

  /** The session that a failed request may invalidate. */
  predicate Identifiable(q: Request) {
    q.access.Claims? && q.access.session.Some?
  }

  predicate AccessExpired(q: Request) {
    q.access.Claims? && q.access.exp.Some? && q.access.exp.value <= q.now / 1000
  }

  function Dropped(s: Store, q: Request, faults: Faults): Store {
    if Identifiable(q) && !faults.invalidate then RemoveChain(s, q.access.user, q.access.session.value) else s
  }

  function FailHard(s: Store, q: Request, faults: Faults): (Store, Reply) {
    if faults.audit then (Dropped(s, q, faults), Unavailable) else (s, Hard)
  }

  /** The store and the reply once the rotation has left `s` and answered `outcome`. */
  function ReplyTo(s: Store, q: Request, faults: Faults, outcome: Outcome): (Store, Reply) {
    match outcome
    case SoftReuse => (s, Soft)
    case HardReuse => (s, if faults.audit then Unavailable else Hard)
    case Expired => FailHard(s, q, faults)
    case Unknown => FailHard(s, q, faults)
    case Rotated(refreshExpires, _) =>
      if AccessExpired(q) && faults.sign then (Dropped(s, q, faults), InternalError)
      else if faults.audit then (Dropped(s, q, faults), Unavailable)
      else
        var age := SessionTheorems.PipelineMaxAge(refreshExpires, q.now);
        (s, Success(AccessExpired(q), age, age))
  }

  /** The store and the reply after one request. */
  function Refresh(s: Store, q: Request, faults: Faults): (Store, Reply) {
    if faults.draw then (s, InternalError)
    else if !Rotates(q) then FailHard(s, q, faults)
    else if faults.rotate then (s, InternalError)
    else
      var (after, outcome) := AttemptRotate(s, ArgsOf(q));
      ReplyTo(after, q, faults, outcome)
  }

  method FailHardOn(sessions: MemorySessions, faults: Faults, invalidate: Option<(Id, Id)>) returns (reply: Reply)
    modifies sessions
    ensures reply == if faults.audit then Unavailable else Hard
    ensures sessions.Contents() ==
            if faults.audit && invalidate.Some? && !faults.invalidate
            then RemoveChain(old(sessions.Contents()), invalidate.value.0, invalidate.value.1)
            else old(sessions.Contents())
  {
    if faults.audit {
      if invalidate.Some? && !faults.invalidate {
        sessions.Invalidate(invalidate.value.0, invalidate.value.1);
      }
      return Unavailable;
    }
    return Hard;
  }

  /** The reply after the store has answered the rotation. */
  method Conclude(sessions: MemorySessions, q: Request, faults: Faults, outcome: Outcome) returns (reply: Reply)
    requires Rotates(q)
    modifies sessions
    ensures (sessions.Contents(), reply) == ReplyTo(old(sessions.Contents()), q, faults, outcome)
  {
    if outcome.SoftReuse? {
      return Soft;
    }
    if outcome.HardReuse? {
      return if faults.audit then Unavailable else Hard;
    }
    if outcome.Expired? || outcome.Unknown? {
      reply := FailHardOn(sessions, faults, Some((q.access.user, q.access.session.value)));
      return;
    }
    var expired := q.access.exp.Some? && q.access.exp.value <= q.now / 1000;
    var remaining := Max(1, outcome.refreshExpires / 1000 - q.now / 1000);
    if expired && faults.sign {
      if !faults.invalidate {
        sessions.Invalidate(q.access.user, q.access.session.value);
      }
      return InternalError;
    }
    if faults.audit {
      if !faults.invalidate {
        sessions.Invalidate(q.access.user, q.access.session.value);
      }
      return Unavailable;
    }
    return Success(expired, remaining, remaining);
  }

  method RunRefresh(sessions: MemorySessions, q: Request, faults: Faults) returns (reply: Reply)
    modifies sessions
    ensures (sessions.Contents(), reply) == Refresh(old(sessions.Contents()), q, faults)
  {
    if faults.draw {
      return InternalError;
    }
    match q.access
    case Missing =>
      reply := FailHardOn(sessions, faults, None);
    case Invalid =>
      reply := FailHardOn(sessions, faults, None);
    case Claims(user, None, _, _) =>
      reply := FailHardOn(sessions, faults, None);
    case Claims(user, Some(session), mustChange, _) =>
      if q.presented.None? || mustChange {
        reply := FailHardOn(sessions, faults, Some((user, session)));
        return;
      }
      if faults.rotate {
        return InternalError;
      }
      var outcome := sessions.Rotate(RotateArgs(q.presented.value, q.minted, user, session, q.now,
                                                q.refreshTtl, q.grace, q.window, q.ip, q.agent));
      reply := Conclude(sessions, q, faults, outcome);
  }

  // ---------- which reply, from the request and the tables alone ----------

  /** Both tokens are there, the access token names a session, and no password change is due. */
  ghost predicate Complete(q: Request) {
    match q.access
    case Claims(_, Some(_), mustChange, _) => q.presented.Some? && !mustChange
    case _ => false
  }

  ghost predicate HeldBy(r: Session, q: Request)
    requires Complete(q)
  {
    r.id == q.access.session.value && r.user == q.access.user && r.hmac == q.presented
  }

  /** Some session holds the presented token and has not expired. */
  ghost predicate Exchangeable(s: Store, q: Request) {
    Complete(q) && exists r :: r in s.rows && HeldBy(r, q) && q.now < r.sessionExpires && q.now < r.refreshExpires
  }

  /** No session holds the presented token, and this chain used it within the grace period. */
  ghost predicate JustUsed(s: Store, q: Request) {
    && Complete(q) && (forall r :: r in s.rows ==> !HeldBy(r, q))
    && exists u :: u in s.used && Some(u.hmac) == q.presented && u.user == q.access.user
                   && u.session == q.access.session.value && q.now <= u.usedAt + 1000 * q.grace
  }

  /** The access token says when it ends, and that second has come. */
  ghost predicate AccessOver(q: Request) {
    match q.access
    case Claims(_, _, _, Some(exp)) => exp <= q.now / 1000
    case _ => false
  }

  ghost predicate ReplyFits(s: Store, q: Request, faults: Faults, reply: Reply) {
    match reply
    case Success(newAccess, refreshMaxAge, accessMaxAge) =>
      && !faults.draw && !faults.rotate && !faults.audit && Exchangeable(s, q) && !(AccessOver(q) && faults.sign)
      && newAccess == AccessOver(q) && refreshMaxAge == accessMaxAge
    case Soft => !faults.draw && !faults.rotate && JustUsed(s, q)
    case Hard =>
      !faults.draw && !faults.audit && (Complete(q) ==> !faults.rotate && !Exchangeable(s, q) && !JustUsed(s, q))
    case Unavailable =>
      && !faults.draw && faults.audit
      && (Complete(q) ==> !faults.rotate && !JustUsed(s, q) && !(Exchangeable(s, q) && AccessOver(q) && faults.sign))
    case InternalError =>
      faults.draw || (Complete(q) && faults.rotate) || (Exchangeable(s, q) && AccessOver(q) && faults.sign)
  }

  lemma RotationDecides(s: Store, q: Request)
    requires Keyed(s) && Complete(q)
    ensures Rotates(q)
    ensures AttemptRotate(s, ArgsOf(q)).1.Rotated? <==> Exchangeable(s, q)
    ensures AttemptRotate(s, ArgsOf(q)).1.SoftReuse? <==> JustUsed(s, q)
  {
    var a, o := ArgsOf(q), AttemptRotate(s, ArgsOf(q)).1;
    RotationKeepsPromise(s, a);
    assert forall r :: Shows(r, a) <==> HeldBy(r, q);
    if JustUsed(s, q) {
      var u :| u in s.used && Some(u.hmac) == q.presented && u.user == q.access.user
               && u.session == q.access.session.value && q.now <= u.usedAt + 1000 * q.grace;
      assert ShowsUsed(u, a);
    }
  }

  /** Every reply is the one that fits, and only one does. */
  lemma RepliesExactly(s: Store, q: Request, faults: Faults, reply: Reply)
    requires Keyed(s)
    ensures ReplyFits(s, q, faults, Refresh(s, q, faults).1)
    ensures ReplyFits(s, q, faults, reply) ==>
              var r := Refresh(s, q, faults).1;
              if r.Success? then reply.Success? && reply.newAccess == r.newAccess else reply == r
  {
    if Complete(q) {
      RotationDecides(s, q);
    }
  }

  // ---------- what a client can rely on ----------

  /** The request reached a rotation that the store committed. */
  predicate Committed(s: Store, q: Request, faults: Faults) {
    !faults.draw && Rotates(q) && !faults.rotate && AttemptRotate(s, ArgsOf(q)).1.Rotated?
  }

  lemma ChainTokenDead(w: World, user: Id, session: Id, token: Token)
    requires Good(w)
    requires exists r :: r in w.store.rows && r.id == session && r.user == user && r.hmac == Some(token)
    ensures !Live(RemoveChain(w.store, user, session), token)
  {
  }

  lemma NewTokenOwner(w: World, a: RotateArgs)
    requires Good(w) && Fresh(w, Rotation(a)) && AttemptRotate(w.store, a).1.Rotated?
    ensures exists r :: r in Step(w, Rotation(a)).store.rows && r.id == a.session && r.user == a.user && r.hmac == Some(a.after)
  {
    var i := FirstIndex(w.store.rows, HoldsToken(a.before, a.user, a.session)).value;
    assert Step(w, Rotation(a)).store.rows == w.store.rows[i := Reissued(w.store.rows[i], a)];
    assert w.store.rows[i := Reissued(w.store.rows[i], a)][i] == Reissued(w.store.rows[i], a);
  }

  lemma UnmintedIsDead(w: World, token: Token)
    requires Good(w) && token !in w.minted
    ensures !Live(w.store, token)
  {
  }

  /**
   The new token works afterwards exactly when the client received it, except that a failed audit or
   signature followed by a failed invalidation leaves a token that nobody holds.
   */
  lemma NewTokenLiveExactly(w: World, q: Request, faults: Faults)
    requires Good(w) && q.minted !in w.minted
    ensures Live(Refresh(w.store, q, faults).0, q.minted) <==>
            Refresh(w.store, q, faults).1.Success? || (Committed(w.store, q, faults) && faults.invalidate)
  {
    UnmintedIsDead(w, q.minted);
    var s := Refresh(w.store, q, faults).0;
    if Committed(w.store, q, faults) {
      var a := ArgsOf(q);
      var next := Step(w, Rotation(a));
      StepKeepsGood(w, Rotation(a), next);
      NewTokenOwner(w, a);
      ChainTokenDead(next, a.user, a.session, a.after);
    } else {
      assert forall r :: r in s.rows ==> r in w.store.rows;
    }
  }

  ghost predicate ChainGone(s: Store, user: Id, session: Id) {
    && (forall r :: r in s.rows ==> !(r.id == session && r.user == user))
    && (forall u :: u in s.used ==> !(u.session == session && u.user == user))
  }

  lemma RemovedIsGone(s: Store, user: Id, session: Id)
    ensures ChainGone(RemoveChain(s, user, session), user, session)
  {
  }

  /** A reuse is settled in the store: the hard one removes the chain, the soft one changes nothing. */
  lemma ReuseSettled(s: Store, a: RotateArgs)
    ensures AttemptRotate(s, a).1.HardReuse? ==> ChainGone(AttemptRotate(s, a).0, a.user, a.session)
    ensures AttemptRotate(s, a).1.SoftReuse? ==> AttemptRotate(s, a).0 == s
  {
  }

  /** What a reply may be while the audit sink is down, and what it then says of the store. */
  ghost predicate SettledWithoutAudit(before: Store, after: Store, user: Id, session: Id, failedEarly: bool, reply: Reply) {
    && !reply.Success? && !reply.Hard?
    && (reply.Unavailable? ==> ChainGone(after, user, session))
    && (reply.Soft? ==> after == before)
    && (reply.InternalError? ==> ChainGone(after, user, session) || (after == before && failedEarly))
  }

  lemma OutcomeSettled(before: Store, s: Store, q: Request, faults: Faults, outcome: Outcome)
    requires Rotates(q) && faults.audit && !faults.invalidate
    requires outcome.HardReuse? ==> ChainGone(s, q.access.user, q.access.session.value)
    requires outcome.SoftReuse? ==> s == before
    ensures SettledWithoutAudit(before, ReplyTo(s, q, faults, outcome).0, q.access.user, q.access.session.value, false,
                                ReplyTo(s, q, faults, outcome).1)
  {
    RemovedIsGone(s, q.access.user, q.access.session.value);
  }

  /**
   With the audit sink down nobody gets a token or a plain refusal.  The identified session is gone
   afterwards, except after a soft reuse, which is not audited, and when the request failed before the
   store was asked; then nothing has changed.
   */
  lemma NoAuditNoSession(s: Store, q: Request, faults: Faults)
    requires faults.audit && Identifiable(q) && !faults.invalidate
    ensures SettledWithoutAudit(s, Refresh(s, q, faults).0, q.access.user, q.access.session.value,
                                faults.draw || faults.rotate, Refresh(s, q, faults).1)
  {
    if !faults.draw && Rotates(q) && !faults.rotate {
      ReuseSettled(s, ArgsOf(q));
      OutcomeSettled(s, AttemptRotate(s, ArgsOf(q)).0, q, faults, AttemptRotate(s, ArgsOf(q)).1);
    } else {
      RemovedIsGone(s, q.access.user, q.access.session.value);
    }
  }

  /** The ages in a successful reply are exactly what the stored token has left. */
  lemma SuccessAges(w: World, q: Request, faults: Faults)
    requires Good(w) && q.minted !in w.minted && q.refreshTtl >= 1 && Refresh(w.store, q, faults).1.Success?
    ensures exists r :: r in Refresh(w.store, q, faults).0.rows && r.hmac == Some(q.minted)
                        && q.now < r.refreshExpires <= r.sessionExpires
                        && Refresh(w.store, q, faults).1.refreshMaxAge == SessionTheorems.RemainingSeconds(r.refreshExpires, q.now)
  {
    var a := ArgsOf(q);
    SessionTheorems.RotatedIsAlive(w, a);
    var i := FirstIndex(w.store.rows, HoldsToken(a.before, a.user, a.session)).value;
    var row := Reissued(w.store.rows[i], a);
    assert Refresh(w.store, q, faults).0.rows == w.store.rows[i := row];
    assert w.store.rows[i := row][i] == row;
  }
}
