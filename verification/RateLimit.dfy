/** The login rate limiter and its in-memory form (auth/src/rate_limit.ts).  Stamps are milliseconds. */
module RateLimit {
  import opened Prelude

  datatype Kind = User | Ip

  datatype Context = Context(lockoutUntil: Option<int>, graceUntil: Option<int>, failures: seq<int>)

  datatype Params = Params(threshold: nat, samplePeriod: nat, l1Delay: nat, l2Delay: nat, lockout: nat)

  datatype Settings = Settings(userThreshold: nat, userSamplePeriod: nat, ipThreshold: nat, ipSamplePeriod: nat,
                               l1Delay: nat, l2Delay: nat, lockout: nat, maxKib: nat)

  const CONTEXT_BASE_BYTES := 256
  const FAILURE_MEMBER_BYTES := 64
  const EMPTY_CONTEXT := Context(None, None, [])

  // ---------- one context ----------

  function AtLeast(cutoff: int): int -> bool {
    (stamp: int) => stamp >= cutoff
  }

  /** The time a number of sample periods ago. */
  function Cutoff(now: int, periods: nat, samplePeriod: nat): int {
    now - periods * samplePeriod * 1000
  }

  function PruneFailures(failures: seq<int>, now: int, samplePeriod: nat): seq<int> {
    Filter(failures, AtLeast(Cutoff(now, 3, samplePeriod)))
  }

  function Pruned(c: Context, now: int, samplePeriod: nat): Context {
    c.(failures := PruneFailures(c.failures, now, samplePeriod))
  }

  /** A lockout or grace end that is absent or has come. */
  predicate Over(until: Option<int>, now: int) {
    until.None? || now >= until.value
  }

  predicate IsExpired(c: Context, now: int) {
    |c.failures| == 0 && Over(c.lockoutUntil, now) && Over(c.graceUntil, now)
  }

  function EstimateBytes(c: Context): nat {
    CONTEXT_BASE_BYTES + |c.failures| * FAILURE_MEMBER_BYTES
  }

  function BudgetBytes(maxKib: nat): nat {
    maxKib * 1024
  }

  datatype Answer = Answer(delay: nat, lockout: bool)

  datatype Evaluation = Evaluation(answer: Answer, next: Option<Context>, started: bool)

  function EvaluateContext(state: Option<Context>, now: int, p: Params): Evaluation {
    match state
    case None => Evaluation(Answer(0, false), None, false)
    case Some(c) =>
      var failures := PruneFailures(c.failures, now, p.samplePeriod);
      var next := c.(failures := failures);
      if !Over(c.lockoutUntil, now) then Evaluation(Answer(p.l2Delay, true), Some(next), false)
      else
        var inGrace := !Over(c.graceUntil, now);
        var n1 := |Filter(failures, AtLeast(Cutoff(now, 1, p.samplePeriod)))|;
        var n2 := |Filter(failures, AtLeast(Cutoff(now, 2, p.samplePeriod)))|;
        var n3 := |failures|;
        if n3 > 3 * p.threshold && !inGrace then
          var until := now + p.lockout * 1000;
          Evaluation(Answer(p.l2Delay, true), Some(Context(Some(until), Some(until + p.lockout * 1000), failures)), true)
        else if n2 > 2 * p.threshold then Evaluation(Answer(p.l2Delay, false), Some(next), false)
        else if n1 > p.threshold then Evaluation(Answer(p.l1Delay, false), Some(next), false)
        else Evaluation(Answer(0, false), Some(next), false)
  }

  function RecordOnContext(state: Option<Context>, now: int): Context {
    var base := if state.Some? then state.value else EMPTY_CONTEXT;
    base.(failures := base.failures + [now])
  }

  /** A purge of one context: pruned, and dropped when nothing is left to remember. */
  function PurgeContext(c: Context, now: int, samplePeriod: nat): Option<Context> {
    var pruned := Pruned(c, now, samplePeriod);
    if IsExpired(pruned, now) then None else Some(pruned)
  }

  // ---------- keys ----------

  function KindText(kind: Kind): string {
    match kind case User => "user" case Ip => "ip"
  }

  function MapKey(kind: Kind, key: string): string {
    KindText(kind) + "\t" + key
  }

  function IndexOf(s: string, c: char, i: nat): (r: int)
    requires i <= |s|
    ensures r == -1 ==> forall k :: i <= k < |s| ==> s[k] != c
    ensures r != -1 ==> i <= r < |s| && s[r] == c && forall k :: i <= k < r ==> s[k] != c
    decreases |s| - i
  {
    if i == |s| then -1 else if s[i] == c then i else IndexOf(s, c, i + 1)
  }

  /** The kind text and the key; like `slice`, a missing tab counts as position -1. */
  function ParseMapKey(id: string): (string, string) {
    var tab := IndexOf(id, '\t', 0);
    if tab == -1 then (if id == [] then "" else id[..|id| - 1], id) else (id[..tab], id[tab + 1..])
  }

  /** Keys may hold tabs themselves: the first tab always separates. */
  lemma MapKeyRoundTrip(kind: Kind, key: string)
    ensures ParseMapKey(MapKey(kind, key)) == (KindText(kind), key)
  {
    var id := MapKey(kind, key);
    var n := |KindText(kind)|;
    assert id[n] == '\t';
    assert forall k :: 0 <= k < n ==> id[k] == KindText(kind)[k];
    assert IndexOf(id, '\t', 0) == n;
    assert id[..n] == KindText(kind) && id[n + 1..] == key;
  }

  function UserParams(s: Settings): Params {
    Params(s.userThreshold, s.userSamplePeriod, s.l1Delay, s.l2Delay, s.lockout)
  }

  function IpParams(s: Settings): Params {
    Params(s.ipThreshold, s.ipSamplePeriod, s.l1Delay, s.l2Delay, s.lockout)
  }

  /** The parameters that evaluation and purge use for a stored context. */
  function ParamsOf(id: string, s: Settings): Params {
    if ParseMapKey(id).0 == "ip" then IpParams(s) else UserParams(s)
  }

  // ---------- all contexts ----------

  type Contexts = map<string, Context>

  ghost function TotalBytes(m: Contexts): nat
    decreases |m|
  {
    if m == map[] then 0
    else
      var id :| id in m;
      EstimateBytes(m[id]) + TotalBytes(m - {id})
  }

  lemma {:induction false} TotalBytesRemove(m: Contexts, id: string)
    requires id in m
    ensures TotalBytes(m) == EstimateBytes(m[id]) + TotalBytes(m - {id})
    decreases |m|
  {
    var x :| x in m && TotalBytes(m) == EstimateBytes(m[x]) + TotalBytes(m - {x});
    if x != id {
      TotalBytesRemove(m - {x}, id);
      TotalBytesRemove(m - {id}, x);
      assert m - {x} - {id} == m - {id} - {x};
    }
  }

  lemma TotalBytesSave(m: Contexts, id: string, c: Context)
    ensures TotalBytes(m[id := c]) ==
            TotalBytes(m) + EstimateBytes(c) - (if id in m then EstimateBytes(m[id]) else 0)
  {
    var next := m[id := c];
    TotalBytesRemove(next, id);
    assert next - {id} == m - {id};
    if id in m {
      TotalBytesRemove(m, id);
    } else {
      assert m - {id} == m;
    }
  }

  function Lookup(m: Contexts, id: string): Option<Context> {
    if id in m then Some(m[id]) else None
  }

  function Store(m: Contexts, id: string, c: Option<Context>): Contexts {
    if c.Some? then m[id := c.value] else m
  }

  /** What a purge makes of the context stored under `id`. */
  function PurgeStored(id: string, c: Context, now: int, s: Settings): Option<Context> {
    PurgeContext(c, now, ParamsOf(id, s).samplePeriod)
  }

  /** Every context pruned, and the expired ones gone. */
  function PurgedContexts(m: Contexts, s: Settings, now: int): Contexts {
    map id | id in m && PurgeStored(id, m[id], now, s).Some? :: PurgeStored(id, m[id], now, s).value
  }

  /** The context under `id` while a purge still has `todo` to visit. */
  function Midway(start: Contexts, todo: set<string>, id: string, now: int, s: Settings): Option<Context> {
    if id !in start then None else if id in todo then Some(start[id]) else PurgeStored(id, start[id], now, s)
  }

  lemma PurgeComplete(m: Contexts, start: Contexts, now: int, s: Settings)
    requires forall id :: Lookup(m, id) == Midway(start, {}, id, now, s)
    ensures m == PurgedContexts(start, s, now)
  {
    forall id ensures id in m <==> id in PurgedContexts(start, s, now) {
      assert Lookup(m, id) == Midway(start, {}, id, now, s);
    }
    forall id | id in m ensures m[id] == PurgedContexts(start, s, now)[id] {
      assert Lookup(m, id) == Midway(start, {}, id, now, s);
    }
  }

  /** A failure opens no new context once the budget is used up. */
  ghost predicate Refuses(m: Contexts, id: string, s: Settings) {
    id !in m && TotalBytes(m) >= BudgetBytes(s.maxKib)
  }

  ghost function Recorded(m: Contexts, id: string, now: int, s: Settings): Contexts {
    if Refuses(m, id, s) then m else m[id := RecordOnContext(Lookup(m, id), now)]
  }

  // ---------- what the settings promise ----------

  /** How many stamps are not older than `since`. */
  ghost function CountSince(stamps: seq<int>, since: int): nat {
    |set i | 0 <= i < |stamps| && stamps[i] >= since|
  }

  lemma {:induction false} CountIsFilter(stamps: seq<int>, since: int)
    ensures |Filter(stamps, AtLeast(since))| == CountSince(stamps, since)
  {
    if stamps != [] {
      var init, n := stamps[..|stamps| - 1], |stamps| - 1;
      CountIsFilter(init, since);
      var kept := set i | 0 <= i < n && init[i] >= since;
      assert (set i | 0 <= i < |stamps| && stamps[i] >= since) == kept + if stamps[n] >= since then {n} else {};
    }
  }

  lemma {:induction false} FilterOccurrences(stamps: seq<int>, since: int, x: int)
    ensures multiset(Filter(stamps, AtLeast(since)))[x] == if x >= since then multiset(stamps)[x] else 0
  {
    if stamps != [] {
      FilterOccurrences(stamps[..|stamps| - 1], since, x);
      assert stamps == stamps[..|stamps| - 1] + [stamps[|stamps| - 1]];
    }
  }

  ghost predicate Locked(c: Context, now: int) {
    c.lockoutUntil.Some? && now < c.lockoutUntil.value
  }

  ghost predicate Graced(c: Context, now: int) {
    c.graceUntil.Some? && now < c.graceUntil.value
  }

  /** More than three thresholds of failures in three periods, with no lockout or grace in force. */
  ghost predicate LocksOut(c: Context, now: int, three: nat, threshold: nat) {
    !Locked(c, now) && !Graced(c, now) && three > 3 * threshold
  }

  /** The stages, from the failures of the last one, two and three periods. */
  ghost function Staged(c: Context, now: int, one: nat, two: nat, three: nat, threshold: nat, s: Settings): Answer {
    if Locked(c, now) || LocksOut(c, now, three, threshold) then Answer(s.l2Delay, true)
    else if two > 2 * threshold then Answer(s.l2Delay, false)
    else if one > threshold then Answer(s.l1Delay, false)
    else Answer(0, false)
  }

  /** What one context answers, by its threshold, its sample period in seconds and the shared delays. */
  ghost function AnswerFor(state: Option<Context>, now: int, threshold: nat, period: nat, s: Settings): Answer {
    if state.None? then Answer(0, false)
    else
      var stamps := state.value.failures;
      Staged(state.value, now, CountSince(stamps, now - 1000 * period), CountSince(stamps, now - 2000 * period),
             CountSince(stamps, now - 3000 * period), threshold, s)
  }

  /** `after` keeps exactly the stamps of `before` from the last three periods. */
  ghost predicate Forgets(before: seq<int>, after: seq<int>, now: int, period: nat) {
    forall x :: multiset(after)[x] == if x >= now - 3000 * period then multiset(before)[x] else 0
  }

  /** What is stored afterwards: old stamps go, and a lockout that starts sets both ends. */
  ghost predicate StoredAfter(state: Option<Context>, next: Option<Context>, now: int, threshold: nat, period: nat, s: Settings) {
    && (state.None? <==> next.None?)
    && (state.Some? ==>
          var c, d := state.value, next.value;
          && Forgets(c.failures, d.failures, now, period)
          && if LocksOut(c, now, CountSince(c.failures, now - 3000 * period), threshold)
             then d.lockoutUntil == Some(now + 1000 * s.lockout) && d.graceUntil == Some(now + 2000 * s.lockout)
             else d.lockoutUntil == c.lockoutUntil && d.graceUntil == c.graceUntil)
  }

  lemma Cutoffs(now: int, period: nat)
    ensures Cutoff(now, 1, period) == now - 1000 * period
    ensures Cutoff(now, 2, period) == now - 2000 * period
    ensures Cutoff(now, 3, period) == now - 3000 * period
  {
  }

  /** Counting fewer periods back gives the same before and after old stamps are dropped. */
  lemma PrunedCount(stamps: seq<int>, old3: int, since: int)
    requires old3 <= since
    ensures |Filter(Filter(stamps, AtLeast(old3)), AtLeast(since))| == CountSince(stamps, since)
  {
    CountIsFilter(stamps, since);
    FilterTwice(stamps, old3, since);
  }

  lemma PruneForgets(stamps: seq<int>, now: int, period: nat)
    ensures Forgets(stamps, PruneFailures(stamps, now, period), now, period)
    ensures |PruneFailures(stamps, now, period)| == CountSince(stamps, now - 3000 * period)
  {
    Cutoffs(now, period);
    CountIsFilter(stamps, now - 3000 * period);
    forall x
      ensures multiset(PruneFailures(stamps, now, period))[x] == if x >= now - 3000 * period then multiset(stamps)[x] else 0
    {
      FilterOccurrences(stamps, now - 3000 * period, x);
    }
  }

  /** The three counts that an evaluation takes. */
  lemma CountsAgree(stamps: seq<int>, now: int, period: nat)
    ensures var kept := PruneFailures(stamps, now, period);
            && |Filter(kept, AtLeast(Cutoff(now, 1, period)))| == CountSince(stamps, now - 1000 * period)
            && |Filter(kept, AtLeast(Cutoff(now, 2, period)))| == CountSince(stamps, now - 2000 * period)
            && |kept| == CountSince(stamps, now - 3000 * period)
  {
    Cutoffs(now, period);
    PruneForgets(stamps, now, period);
    PrunedCount(stamps, now - 3000 * period, now - 1000 * period);
    PrunedCount(stamps, now - 3000 * period, now - 2000 * period);
  }

  lemma EvaluationStages(c: Context, now: int, p: Params, s: Settings)
    requires p.l1Delay == s.l1Delay && p.l2Delay == s.l2Delay && p.lockout == s.lockout
    ensures var e := EvaluateContext(Some(c), now, p);
            var kept := PruneFailures(c.failures, now, p.samplePeriod);
            && e.answer == Staged(c, now, |Filter(kept, AtLeast(Cutoff(now, 1, p.samplePeriod)))|,
                                  |Filter(kept, AtLeast(Cutoff(now, 2, p.samplePeriod)))|, |kept|, p.threshold, s)
            && (e.started <==> LocksOut(c, now, |kept|, p.threshold))
            && e.next == Some(if LocksOut(c, now, |kept|, p.threshold)
                              then Context(Some(now + 1000 * s.lockout), Some(now + 2000 * s.lockout), kept)
                              else c.(failures := kept))
  {
  }

  lemma EvaluationExactly(state: Option<Context>, now: int, threshold: nat, period: nat, s: Settings)
    ensures var e := EvaluateContext(state, now, Params(threshold, period, s.l1Delay, s.l2Delay, s.lockout));
            && e.answer == AnswerFor(state, now, threshold, period, s)
            && StoredAfter(state, e.next, now, threshold, period, s)
            && (e.started <==> state.Some? && LocksOut(state.value, now, CountSince(state.value.failures, now - 3000 * period), threshold))
  {
    if state.Some? {
      EvaluationStages(state.value, now, Params(threshold, period, s.l1Delay, s.l2Delay, s.lockout), s);
      CountsAgree(state.value.failures, now, period);
      PruneForgets(state.value.failures, now, period);
    }
  }

  lemma {:induction false} FilterTwice(s: seq<int>, a: int, b: int)
    requires a <= b
    ensures Filter(Filter(s, AtLeast(a)), AtLeast(b)) == Filter(s, AtLeast(b))
  {
    if s != [] {
      var init, last := s[..|s| - 1], s[|s| - 1];
      FilterTwice(init, a, b);
      if last >= a {
        FilterSnoc(Filter(init, AtLeast(a)), last, AtLeast(b));
      } else {
        assert Filter(s, AtLeast(a)) == Filter(init, AtLeast(a));
        assert Filter(s, AtLeast(b)) == Filter(init, AtLeast(b));
      }
    }
  }

  /** Each kind of context has its own threshold and period; the delays and the lockout length are shared. */
  lemma SettingsOfContext(key: string, s: Settings)
    ensures MapKey(User, key) == "user\t" + key && MapKey(Ip, key) == "ip\t" + key
    ensures ParamsOf("user\t" + key, s) == Params(s.userThreshold, s.userSamplePeriod, s.l1Delay, s.l2Delay, s.lockout)
    ensures ParamsOf("ip\t" + key, s) == Params(s.ipThreshold, s.ipSamplePeriod, s.l1Delay, s.l2Delay, s.lockout)
  {
    MapKeyRoundTrip(User, key);
    MapKeyRoundTrip(Ip, key);
  }

  lemma KeysApart(username: string, sourceIp: string)
    ensures "user\t" + username != "ip\t" + sourceIp
  {
    assert ("user\t" + username)[0] == 'u' && ("ip\t" + sourceIp)[0] == 'i';
  }

  /** A failure is added to its context, or opens one unless the kibibytes are used up. */
  lemma RecordedExactly(m: Contexts, id: string, now: int, s: Settings)
    ensures id !in m && TotalBytes(m) >= 1024 * s.maxKib ==> Recorded(m, id, now, s) == m
    ensures id in m ==>
              && Recorded(m, id, now, s) == m[id := m[id].(failures := m[id].failures + [now])]
              && TotalBytes(Recorded(m, id, now, s)) == TotalBytes(m) + 64
    ensures id !in m && TotalBytes(m) < 1024 * s.maxKib ==>
              && Recorded(m, id, now, s) == m[id := Context(None, None, [now])]
              && TotalBytes(Recorded(m, id, now, s)) == TotalBytes(m) + 256 + 64
  {
    TotalBytesSave(m, id, RecordOnContext(Lookup(m, id), now));
    assert [] + [now] == [now];
  }

  /** A purge leaves nothing once every stamp is old and both ends have come, and else drops the old stamps only. */
  ghost predicate PurgeResult(state: Option<Context>, next: Option<Context>, now: int, period: nat) {
    && (next.Some? <==> state.Some? && (CountSince(state.value.failures, now - 3000 * period) > 0
                                        || Locked(state.value, now) || Graced(state.value, now)))
    && (next.Some? ==>
          && Forgets(state.value.failures, next.value.failures, now, period)
          && next.value.lockoutUntil == state.value.lockoutUntil && next.value.graceUntil == state.value.graceUntil)
  }

  lemma PurgedExactly(c: Context, now: int, period: nat)
    ensures PurgeResult(Some(c), PurgeContext(c, now, period), now, period)
  {
    PruneForgets(c.failures, now, period);
  }

  /** Over the whole store, each kind of context is purged by its own sample period. */
  lemma PurgeLeaves(m: Contexts, key: string, now: int, s: Settings)
    ensures var id := "user\t" + key;
            PurgeResult(Lookup(m, id), Lookup(PurgedContexts(m, s, now), id), now, s.userSamplePeriod)
    ensures var id := "ip\t" + key;
            PurgeResult(Lookup(m, id), Lookup(PurgedContexts(m, s, now), id), now, s.ipSamplePeriod)
  {
    SettingsOfContext(key, s);
    if "user\t" + key in m {
      PurgedExactly(m["user\t" + key], now, s.userSamplePeriod);
    }
    if "ip\t" + key in m {
      PurgedExactly(m["ip\t" + key], now, s.ipSamplePeriod);
    }
  }

  /** Above four fifths of the budget. */
  predicate OverTrigger(bytes: int, s: Settings) {
    10 * bytes > 8 * BudgetBytes(s.maxKib)
  }

  class MemoryRateLimit {
    var contexts: map<string, Context>
    var bytes: int
    var purgeCount: nat
    var purgeRunning: bool

    /** The byte counter is exactly the sum of the estimates. */
    ghost predicate Valid()
      reads this
    {
      bytes == TotalBytes(contexts)
    }

    constructor ()
      ensures Valid() && contexts == map[] && purgeCount == 0 && !purgeRunning
    {
      contexts := map[];
      bytes := 0;
      purgeCount := 0;
      purgeRunning := false;
    }

    method Save(id: string, c: Context)
      requires Valid()
      modifies this`contexts, this`bytes
      ensures Valid() && contexts == old(contexts)[id := c]
    {
      TotalBytesSave(contexts, id, c);
      if id in contexts {
        bytes := bytes - EstimateBytes(contexts[id]);
      }
      contexts := contexts[id := c];
      bytes := bytes + EstimateBytes(c);
    }

    method Remove(id: string)
      requires Valid()
      modifies this`contexts, this`bytes
      ensures Valid() && contexts == old(contexts) - {id}
    {
      if id in contexts {
        TotalBytesRemove(contexts, id);
        bytes := bytes - EstimateBytes(contexts[id]);
        contexts := contexts - {id};
      }
    }

    method EvalOne(kind: Kind, key: string, now: int, s: Settings) returns (answer: Answer, started: bool)
      requires Valid()
      modifies this`contexts, this`bytes
      ensures Valid()
      ensures var id := MapKey(kind, key);
              var e := EvaluateContext(Lookup(old(contexts), id), now, ParamsOf(id, s));
              && answer == e.answer && started == e.started
              && contexts == Store(old(contexts), id, e.next)
    {
      MapKeyRoundTrip(kind, key);
      var params := if kind == Ip then IpParams(s) else UserParams(s);
      var outcome := EvaluateContext(Lookup(contexts, MapKey(kind, key)), now, params);
      if outcome.next.Some? {
        Save(MapKey(kind, key), outcome.next.value);
      }
      return outcome.answer, outcome.started;
    }

    method RecordOne(kind: Kind, key: string, now: int, s: Settings)
      requires Valid()
      modifies this`contexts, this`bytes
      ensures Valid() && contexts == Recorded(old(contexts), MapKey(kind, key), now, s)
    {
      var existing := Lookup(contexts, MapKey(kind, key));
      if existing.None? && bytes >= BudgetBytes(s.maxKib) {
        return;
      }
      Save(MapKey(kind, key), RecordOnContext(existing, now));
    }

    method PurgeOne(id: string, now: int, s: Settings)
      requires Valid() && id in contexts
      modifies this`contexts, this`bytes
      ensures Valid()
      ensures forall x :: Lookup(contexts, x) ==
                          if x == id then PurgeStored(id, old(contexts)[id], now, s) else Lookup(old(contexts), x)
    {
      var pruned := Pruned(contexts[id], now, ParamsOf(id, s).samplePeriod);
      if IsExpired(pruned, now) {
        Remove(id);
      } else {
        Save(id, pruned);
      }
    }

    method ApplyPurge(now: int, s: Settings)
      requires Valid()
      modifies this
      ensures Valid() && contexts == PurgedContexts(old(contexts), s, now)
      ensures purgeCount == old(purgeCount) + 1 && !purgeRunning
    {
      ghost var start := contexts;
      var todo := contexts.Keys;
      while todo != {}
        invariant Valid() && todo <= start.Keys
        invariant forall id :: Lookup(contexts, id) == Midway(start, todo, id, now, s)
        invariant purgeCount == old(purgeCount)
        decreases |todo|
      {
        var id :| id in todo;
        assert Lookup(contexts, id) == Midway(start, todo, id, now, s);
        todo := todo - {id};
        PurgeOne(id, now, s);
      }
      PurgeComplete(contexts, start, now, s);
      purgeCount := purgeCount + 1;
      purgeRunning := false;
    }

    /** Both contexts of an attempt, each with its own reading of the clock: the delays add up and either may lock out. */
    method Evaluate(username: string, sourceIp: Option<string>, userNow: int, ipNow: int, s: Settings) returns (answer: Answer)
      requires Valid()
      modifies this`contexts, this`bytes
      ensures Valid()
      ensures var user := AnswerFor(Lookup(old(contexts), "user\t" + username), userNow, s.userThreshold, s.userSamplePeriod, s);
              if sourceIp.Some? && sourceIp.value != "" then
                var ip := AnswerFor(Lookup(old(contexts), "ip\t" + sourceIp.value), ipNow, s.ipThreshold, s.ipSamplePeriod, s);
                answer == Answer(user.delay + ip.delay, user.lockout || ip.lockout)
              else answer == user
      ensures StoredAfter(Lookup(old(contexts), "user\t" + username), Lookup(contexts, "user\t" + username), userNow,
                          s.userThreshold, s.userSamplePeriod, s)
      ensures sourceIp.Some? && sourceIp.value != "" ==>
                var id := "ip\t" + sourceIp.value;
                StoredAfter(Lookup(old(contexts), id), Lookup(contexts, id), ipNow, s.ipThreshold, s.ipSamplePeriod, s)
      ensures var user := MapKey(User, username);
              var e := EvaluateContext(Lookup(old(contexts), user), userNow, ParamsOf(user, s));
              var m := Store(old(contexts), user, e.next);
              if sourceIp.Some? && sourceIp.value != "" then
                var ip := MapKey(Ip, sourceIp.value);
                var f := EvaluateContext(Lookup(m, ip), ipNow, ParamsOf(ip, s));
                && answer == Answer(e.answer.delay + f.answer.delay, e.answer.lockout || f.answer.lockout)
                && contexts == Store(m, ip, f.next)
              else answer == e.answer && contexts == m
    {
      SettingsOfContext(username, s);
      EvaluationExactly(Lookup(contexts, "user\t" + username), userNow, s.userThreshold, s.userSamplePeriod, s);
      var user, _ := EvalOne(User, username, userNow, s);
      if sourceIp.Some? && sourceIp.value != "" {
        KeysApart(username, sourceIp.value);
        SettingsOfContext(sourceIp.value, s);
        EvaluationExactly(Lookup(contexts, "ip\t" + sourceIp.value), ipNow, s.ipThreshold, s.ipSamplePeriod, s);
        var ip, _ := EvalOne(Ip, sourceIp.value, ipNow, s);
        return Answer(user.delay + ip.delay, user.lockout || ip.lockout);
      }
      return user;
    }

    /** At most one purge is under way; `schedule` says that this call asked for one. */
    method RecordFailure(username: string, sourceIp: Option<string>, userNow: int, ipNow: int, s: Settings)
      returns (schedule: bool)
      requires Valid()
      modifies this`contexts, this`bytes, this`purgeRunning
      ensures Valid()
      ensures schedule <==> OverTrigger(bytes, s) && !old(purgeRunning)
      ensures purgeRunning == (old(purgeRunning) || schedule)
      ensures contexts ==
              var m := Recorded(old(contexts), MapKey(User, username), userNow, s);
              if sourceIp.Some? && sourceIp.value != "" then Recorded(m, MapKey(Ip, sourceIp.value), ipNow, s) else m
    {
      RecordOne(User, username, userNow, s);
      if sourceIp.Some? && sourceIp.value != "" {
        RecordOne(Ip, sourceIp.value, ipNow, s);
      }
      if 10 * bytes <= 8 * BudgetBytes(s.maxKib) || purgeRunning {
        return false;
      }
      purgeRunning := true;
      return true;
    }
  }
}
