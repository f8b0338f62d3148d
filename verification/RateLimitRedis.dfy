/**
 The shared rate limiter (auth/src/rate_limit_redis.ts): any number of clients that WATCH the two
 keys of a context, read them one command at a time, and commit with MULTI/EXEC.  The byte counter
 is not watched.
 */
module RateLimitRedis {
  import opened Prelude
  import opened Ordering
  import opened RateLimit
  import opened RateLimitRuns

  const WATCH_RETRY_LIMIT := 8

  /** The hash of a context; the absent value is written as an empty string. */
  datatype Ends = Ends(lockoutUntil: Option<int>, graceUntil: Option<int>)

  /** One call of `with_watch`; the clock and the settings are read when the body computes. */
  datatype Op =
    | EvalOp(id: string)
    | RecordOp(id: string)
    | PurgeOp(id: string)

  /**
   A client by its next command.  `seen` is the version of the watched keys at WATCH; `tick` and
   `next` are what the body prepared: the effect on the context and its new value (None: no writes,
   Some(None): delete).
   */
  datatype Client =
    | Idle
    | Watch(op: Op, attempt: nat)
    | Exists(op: Op, attempt: nat, seen: nat)
    | ReadHash(op: Op, attempt: nat, seen: nat)
    | ReadZset(op: Op, attempt: nat, seen: nat, ends: Ends)
    | Compute(op: Op, attempt: nat, seen: nat, state: Option<Context>)
    | Commit(op: Op, attempt: nat, seen: nat, state: Option<Context>, plan: Plan)
    | Done(reply: Option<Answer>)
    | Failed

  datatype Write = NoWrite | Put(context: Context) | Delete

  datatype Plan = Plan(tick: Option<Tick>, write: Write, reply: Option<Answer>)

  /** A committed operation: what it did to which context and what it answered. */
  datatype Entry = Entry(id: string, tick: Option<Tick>, reply: Option<Answer>)

  datatype Redis = Redis(hash: map<string, Ends>, zset: map<string, seq<int>>, counter: int,
                         version: map<string, nat>, clients: map<nat, Client>, log: seq<Entry>)

  const START := Redis(map[], map[], 0, map[], map[], [])

  // ---------- commands ----------

  function Version(d: Redis, id: string): nat {
    if id in d.version then d.version[id] else 0
  }

  function Members(d: Redis, id: string): seq<int> {
    if id in d.zset then d.zset[id] else []
  }

  /** What a load in one piece would return. */
  function Stored(d: Redis, id: string): Option<Context> {
    if id in d.hash then Some(Context(d.hash[id].lockoutUntil, d.hash[id].graceUntil, Members(d, id))) else None
  }

  function Same(x: int): int {
    x
  }

  predicate IntLe(a: int, b: int) {
    a <= b
  }

  /** A sorted set returns its members in score order. */
  function ByScore(stamps: seq<int>): seq<int> {
    SortBy(stamps, Same, IntLe)
  }

  function WriteState(d: Redis, id: string, c: Context): Redis {
    d.(hash := d.hash[id := Ends(c.lockoutUntil, c.graceUntil)],
    zset := if c.failures == [] then d.zset - {id} else d.zset[id := ByScore(c.failures)],
    version := d.version[id := Version(d, id) + 1])
  }

  function DeleteState(d: Redis, id: string): Redis {
    d.(hash := d.hash - {id}, zset := d.zset - {id}, version := d.version[id := Version(d, id) + 1])
  }

  function BytesOf(c: Option<Context>): nat {
    if c.Some? then EstimateBytes(c.value) else 0
  }

  /** The commands queued in MULTI; the counter moves by the difference to the state that was read. */
  function Apply(d: Redis, id: string, state: Option<Context>, write: Write): Redis {
    match write
    case NoWrite => d
    case Put(c) => WriteState(d, id, c).(counter := d.counter + EstimateBytes(c) - BytesOf(state))
    case Delete => DeleteState(d, id).(counter := d.counter - BytesOf(state))
  }

  // ---------- the body of each operation ----------

  function EvalPlan(state: Option<Context>, now: int, p: Params): Plan {
    var e := EvaluateContext(state, now, p);
    Plan(Some(Evaluated(now, p)), if e.next.Some? then Put(e.next.value) else NoWrite, Some(e.answer))
  }

  function RecordPlan(state: Option<Context>, now: int, used: int, maxKib: nat): Plan {
    if state.None? && used >= BudgetBytes(maxKib) then Plan(None, NoWrite, None)
    else Plan(Some(Admitted(now)), Put(RecordOnContext(state, now)), None)
  }

  function PurgePlan(state: Option<Context>, now: int, samplePeriod: nat): Plan {
    if state.None? then Plan(None, NoWrite, None)
    else
      var next := PurgeContext(state.value, now, samplePeriod);
      Plan(Some(PurgedBy(now, samplePeriod)), if next.None? then Delete else Put(next.value), None)
  }

  function PlanOf(op: Op, state: Option<Context>, now: int, used: int, s: Settings): Plan {
    var p := ParamsOf(op.id, s);
    match op
    case EvalOp(_) => EvalPlan(state, now, p)
    case RecordOp(_) => RecordPlan(state, now, used, s.maxKib)
    case PurgeOp(_) => PurgePlan(state, now, p.samplePeriod)
  }

  // ---------- steps ----------

  datatype Action =
    | Call(client: nat, op: Op)
    | Advance(client: nat, now: int, settings: Settings)
    | Crash(client: nat)

  function Set(d: Redis, k: nat, c: Client): Redis {
    d.(clients := d.clients[k := c])
  }

  /** A conflict starts over until the eighth attempt. */
  function Retry(op: Op, attempt: nat): Client {
    if attempt + 1 < WATCH_RETRY_LIMIT then Watch(op, attempt + 1) else Failed
  }

  /** The next command of client `k`; the clock and the settings matter only when the body computes. */
  function AdvanceClient(d: Redis, k: nat, now: int, s: Settings): Redis
    requires k in d.clients
  {
    match d.clients[k]
    case Watch(op, n) => Set(d, k, Exists(op, n, Version(d, op.id)))
    case Exists(op, n, seen) =>
      Set(d, k, if op.id in d.hash then ReadHash(op, n, seen) else Compute(op, n, seen, None))
    case ReadHash(op, n, seen) =>
      Set(d, k, ReadZset(op, n, seen, if op.id in d.hash then d.hash[op.id] else Ends(None, None)))
    case ReadZset(op, n, seen, ends) =>
      Set(d, k, Compute(op, n, seen, Some(Context(ends.lockoutUntil, ends.graceUntil, Members(d, op.id)))))
    case Compute(op, n, seen, state) => Set(d, k, Commit(op, n, seen, state, PlanOf(op, state, now, d.counter, s)))
    case Commit(op, n, seen, state, plan) =>
      if Version(d, op.id) != seen then Set(d, k, Retry(op, n))
      else
        Set(Apply(d, op.id, state, plan.write), k, Done(plan.reply))
          .(log := d.log + [Entry(op.id, plan.tick, plan.reply)])
    case _ => d
  }

  predicate Ready(d: Redis, k: nat) {
    k !in d.clients || d.clients[k].Idle? || d.clients[k].Done? || d.clients[k].Failed?
  }

  function Next(d: Redis, a: Action): Redis {
    match a
    case Call(k, op) => if Ready(d, k) then Set(d, k, Watch(op, 0)) else d
    case Advance(k, now, s) => if k in d.clients then AdvanceClient(d, k, now, s) else d
    case Crash(k) => Set(d, k, Failed)
  }

  function Reach(actions: seq<Action>): Redis {
    if actions == [] then START else Next(Reach(actions[..|actions| - 1]), actions[|actions| - 1])
  }

  // ---------- the sequential limiter the log describes ----------

  function TickStep(c: Option<Context>, t: Option<Tick>): Option<Context> {
    if t.Some? then StepContext(c, t.value) else c
  }

  /** One context after the committed operations, by the functions of the in-memory limiter. */
  function Replay(log: seq<Entry>, id: string): Option<Context> {
    if log == [] then None
    else
      var last := log[|log| - 1];
      var before := Replay(log[..|log| - 1], id);
      if last.id == id then TickStep(before, last.tick) else before
  }

  /** Equal up to the order of the failures. */
  ghost predicate Reordered(a: Option<Context>, b: Option<Context>) {
    || (a.None? && b.None?)
    || (a.Some? && b.Some? && a.value.lockoutUntil == b.value.lockoutUntil && a.value.graceUntil == b.value.graceUntil
        && multiset(a.value.failures) == multiset(b.value.failures))
  }

  // ---------- the invariant ----------

  ghost function StoredMap(d: Redis): Contexts {
    map id | id in d.hash :: Context(d.hash[id].lockoutUntil, d.hash[id].graceUntil, Members(d, id))
  }

  ghost predicate CounterExact(d: Redis) {
    d.counter == TotalBytes(StoredMap(d))
  }

  /** What a client read so far is current, unless its watched keys have changed. */
  ghost predicate ReadsHold(d: Redis, c: Client) {
    match c
    case Exists(op, _, seen) => seen <= Version(d, op.id)
    case ReadHash(op, _, seen) => seen <= Version(d, op.id) && (seen == Version(d, op.id) ==> op.id in d.hash)
    case ReadZset(op, _, seen, ends) =>
      seen <= Version(d, op.id) && (seen == Version(d, op.id) ==> op.id in d.hash && d.hash[op.id] == ends)
    case Compute(op, _, seen, state) =>
      seen <= Version(d, op.id) && (seen == Version(d, op.id) ==> state == Stored(d, op.id))
    case Commit(op, _, seen, state, plan) =>
      && seen <= Version(d, op.id) && (seen == Version(d, op.id) ==> state == Stored(d, op.id))
      && PlanFits(op, state, plan)
    case _ => true
  }

  /** A plan was made for this state with some clock, byte count and settings. */
  ghost predicate PlanFits(op: Op, state: Option<Context>, plan: Plan) {
    exists now: int, used: int, s: Settings :: plan == PlanOf(op, state, now, used, s)
  }

  ghost predicate Tidy(d: Redis) {
    forall id :: id in d.zset ==> id in d.hash
  }

  ghost predicate Replays(d: Redis) {
    forall id :: Reordered(Stored(d, id), Replay(d.log, id))
  }

  ghost predicate AnswerAt(log: seq<Entry>, i: nat)
    requires i < |log|
  {
    && (log[i].reply.Some? <==> log[i].tick.Some? && log[i].tick.value.Evaluated?)
    && (log[i].reply.Some? ==>
          var t := log[i].tick.value;
          log[i].reply.value == EvaluateContext(Replay(log[..i], log[i].id), t.now, t.params).answer)
  }

  ghost predicate Answers(log: seq<Entry>) {
    forall i :: 0 <= i < |log| ==> AnswerAt(log, i)
  }

  ghost predicate Inv(d: Redis) {
    && CounterExact(d) && Tidy(d) && Replays(d) && Answers(d.log)
    && forall k :: k in d.clients ==> ReadsHold(d, d.clients[k])
  }

  // ---------- order does not matter ----------

  lemma {:induction false} FilterCount(s: seq<int>, p: int -> bool, x: int)
    ensures multiset(Filter(s, p))[x] == if p(x) then multiset(s)[x] else 0
  {
    if s != [] {
      FilterCount(s[..|s| - 1], p, x);
      assert s == s[..|s| - 1] + [s[|s| - 1]];
    }
  }

  lemma FilterReordered(a: seq<int>, b: seq<int>, p: int -> bool)
    requires multiset(a) == multiset(b)
    ensures multiset(Filter(a, p)) == multiset(Filter(b, p)) && |Filter(a, p)| == |Filter(b, p)|
  {
    forall x ensures multiset(Filter(a, p))[x] == multiset(Filter(b, p))[x] {
      FilterCount(a, p, x);
      FilterCount(b, p, x);
    }
    SameSize(Filter(a, p), Filter(b, p));
  }

  lemma SameSize(a: seq<int>, b: seq<int>)
    requires multiset(a) == multiset(b)
    ensures |a| == |b|
  {
    assert |multiset(a)| == |a| && |multiset(b)| == |b|;
  }

  lemma ByScoreKeeps(s: seq<int>)
    ensures multiset(ByScore(s)) == multiset(s) && |ByScore(s)| == |s|
  {
    assert Preorder(IntLe);
    SortCorrect(s, Same, IntLe);
    SameSize(ByScore(s), s);
  }

  lemma CountsReordered(f: seq<int>, g: seq<int>, now: int, samplePeriod: nat)
    requires multiset(f) == multiset(g)
    ensures var x, y := PruneFailures(f, now, samplePeriod), PruneFailures(g, now, samplePeriod);
            && multiset(x) == multiset(y) && |x| == |y|
            && |Filter(x, AtLeast(Cutoff(now, 1, samplePeriod)))| == |Filter(y, AtLeast(Cutoff(now, 1, samplePeriod)))|
            && |Filter(x, AtLeast(Cutoff(now, 2, samplePeriod)))| == |Filter(y, AtLeast(Cutoff(now, 2, samplePeriod)))|
  {
    FilterReordered(f, g, AtLeast(Cutoff(now, 3, samplePeriod)));
    var x, y := PruneFailures(f, now, samplePeriod), PruneFailures(g, now, samplePeriod);
    FilterReordered(x, y, AtLeast(Cutoff(now, 1, samplePeriod)));
    FilterReordered(x, y, AtLeast(Cutoff(now, 2, samplePeriod)));
  }

  lemma EvaluateReordered(a: Option<Context>, b: Option<Context>, now: int, p: Params)
    requires Reordered(a, b)
    ensures EvaluateContext(a, now, p).answer == EvaluateContext(b, now, p).answer
    ensures Reordered(EvaluateContext(a, now, p).next, EvaluateContext(b, now, p).next)
  {
    if a.Some? {
      var s := Settings(0, 0, 0, 0, p.l1Delay, p.l2Delay, p.lockout, 0);
      CountsReordered(a.value.failures, b.value.failures, now, p.samplePeriod);
      EvaluationStages(a.value, now, p, s);
      EvaluationStages(b.value, now, p, s);
    }
  }

  lemma StepReordered(a: Option<Context>, b: Option<Context>, t: Option<Tick>)
    requires Reordered(a, b)
    ensures Reordered(TickStep(a, t), TickStep(b, t))
  {
    match t
    case None =>
    case Some(Evaluated(now, p)) => EvaluateReordered(a, b, now, p);
    case Some(Admitted(now)) =>
    case Some(PurgedBy(now, samplePeriod)) =>
      if a.Some? {
        FilterReordered(a.value.failures, b.value.failures, AtLeast(Cutoff(now, 3, samplePeriod)));
      }
  }

  // ---------- a commit ----------

  /** The stored context a write leaves behind. */
  function Written(state: Option<Context>, write: Write): Option<Context> {
    match write
    case NoWrite => state
    case Put(c) => Some(c.(failures := ByScore(c.failures)))
    case Delete => None
  }

  /** A plan writes what its tick means. */
  lemma PlanMeansTick(op: Op, state: Option<Context>, plan: Plan)
    requires PlanFits(op, state, plan)
    ensures Reordered(Written(state, plan.write), TickStep(state, plan.tick))
    ensures plan.reply.Some? <==> plan.tick.Some? && plan.tick.value.Evaluated?
    ensures plan.reply.Some? ==>
              plan.reply.value == EvaluateContext(state, plan.tick.value.now, plan.tick.value.params).answer
    ensures plan.write.Delete? ==> state.Some?
  {
    var now: int, used: int, s: Settings :| plan == PlanOf(op, state, now, used, s);
    if plan.write.Put? {
      ByScoreKeeps(plan.write.context.failures);
    }
    match op
    case EvalOp(id) => assert plan == EvalPlan(state, now, ParamsOf(id, s));
    case RecordOp(_) => assert plan == RecordPlan(state, now, used, s.maxKib);
    case PurgeOp(id) => assert plan == PurgePlan(state, now, ParamsOf(id, s).samplePeriod);
  }

  lemma ApplyStored(d: Redis, id: string, write: Write, e: Redis)
    requires Tidy(d) && e == Apply(d, id, Stored(d, id), write)
    ensures Stored(e, id) == Written(Stored(d, id), write)
    ensures forall x :: x != id ==> Stored(e, x) == Stored(d, x) && Version(e, x) == Version(d, x)
    ensures Tidy(e)
    ensures if write.NoWrite? then e == d else Version(e, id) == Version(d, id) + 1
  {
    if write.Put? {
      ByScoreKeeps(write.context.failures);
    }
  }

  lemma PutCounts(d: Redis, id: string, c: Context, e: Redis)
    requires Tidy(d) && CounterExact(d) && e == Apply(d, id, Stored(d, id), Put(c))
    ensures CounterExact(e)
  {
    ApplyStored(d, id, Put(c), e);
    var m, n := StoredMap(d), StoredMap(e);
    ByScoreKeeps(c.failures);
    var w := c.(failures := ByScore(c.failures));
    forall x ensures Lookup(n, x) == Lookup(m[id := w], x) {
      assert Lookup(n, x) == Stored(e, x) && Lookup(m, x) == Stored(d, x);
    }
    SameLookups(n, m[id := w]);
    TotalBytesSave(m, id, w);
    assert EstimateBytes(w) == EstimateBytes(c);
  }

  lemma DeleteCounts(d: Redis, id: string, e: Redis)
    requires Tidy(d) && CounterExact(d) && id in d.hash && e == Apply(d, id, Stored(d, id), Delete)
    ensures CounterExact(e)
  {
    ApplyStored(d, id, Delete, e);
    var m, n := StoredMap(d), StoredMap(e);
    forall x ensures Lookup(n, x) == Lookup(m - {id}, x) {
      assert Lookup(n, x) == Stored(e, x) && Lookup(m, x) == Stored(d, x);
    }
    SameLookups(n, m - {id});
    TotalBytesRemove(m, id);
  }

  lemma ApplyCounts(d: Redis, id: string, write: Write, e: Redis)
    requires Tidy(d) && CounterExact(d) && e == Apply(d, id, Stored(d, id), write)
    requires write.Delete? ==> id in d.hash
    ensures CounterExact(e)
  {
    match write
    case NoWrite =>
    case Put(c) => PutCounts(d, id, c, e);
    case Delete => DeleteCounts(d, id, e);
  }

  lemma SameLookups(m: Contexts, n: Contexts)
    requires forall x :: Lookup(m, x) == Lookup(n, x)
    ensures m == n
  {
    forall x ensures x in m <==> x in n {
      assert Lookup(m, x) == Lookup(n, x);
    }
    forall x | x in m ensures m[x] == n[x] {
      assert Lookup(m, x) == Lookup(n, x);
    }
  }

  lemma ReplaySnoc(log: seq<Entry>, e: Entry, id: string)
    ensures Replay(log + [e], id) == if e.id == id then TickStep(Replay(log, id), e.tick) else Replay(log, id)
  {
    assert (log + [e])[..|log|] == log;
  }

  lemma AnswersSnoc(log: seq<Entry>, e: Entry)
    requires Answers(log)
    requires e.reply.Some? <==> e.tick.Some? && e.tick.value.Evaluated?
    requires e.reply.Some? ==>
               e.reply.value == EvaluateContext(Replay(log, e.id), e.tick.value.now, e.tick.value.params).answer
    ensures Answers(log + [e])
  {
    var all := log + [e];
    forall i | 0 <= i < |all| ensures AnswerAt(all, i) {
      if i < |log| {
        assert AnswerAt(log, i);
        assert all[..i] == log[..i];
      } else {
        assert all[..i] == log;
      }
    }
  }

  /** Reads of other clients stay right: either the keys are untouched or their version moved on. */
  lemma OthersHold(d: Redis, e: Redis, id: string, c: Client)
    requires ReadsHold(d, c)
    requires forall x :: x != id ==> Stored(e, x) == Stored(d, x) && Version(e, x) == Version(d, x)
    requires (Stored(e, id) == Stored(d, id) && Version(e, id) == Version(d, id)) || Version(e, id) == Version(d, id) + 1
    ensures ReadsHold(e, c)
  {
    if c.Exists? || c.ReadHash? || c.ReadZset? || c.Compute? || c.Commit? {
      var x := c.op.id;
      if Version(e, x) == Version(d, x) {
        assert Stored(e, x) == Stored(d, x);
      }
    }
  }

  /** The store after a commit of `plan`, computed from the stored context of `id`. */
  ghost predicate Commits(d: Redis, e: Redis, id: string, plan: Plan) {
    && Stored(e, id) == Written(Stored(d, id), plan.write)
    && (forall x :: x != id ==> Stored(e, x) == Stored(d, x))
    && e.log == d.log + [Entry(id, plan.tick, plan.reply)]
  }

  lemma CommitReplays(d: Redis, e: Redis, op: Op, plan: Plan)
    requires Replays(d) && PlanFits(op, Stored(d, op.id), plan) && Commits(d, e, op.id, plan)
    ensures Replays(e)
  {
    var id := op.id;
    PlanMeansTick(op, Stored(d, id), plan);
    assert Reordered(Stored(d, id), Replay(d.log, id));
    StepReordered(Stored(d, id), Replay(d.log, id), plan.tick);
    forall x ensures Reordered(Stored(e, x), Replay(e.log, x)) {
      ReplaySnoc(d.log, Entry(id, plan.tick, plan.reply), x);
      assert Reordered(Stored(d, x), Replay(d.log, x));
    }
  }

  lemma CommitAnswers(d: Redis, e: Redis, op: Op, plan: Plan)
    requires Replays(d) && Answers(d.log) && PlanFits(op, Stored(d, op.id), plan) && Commits(d, e, op.id, plan)
    ensures Answers(e.log)
  {
    var id := op.id;
    PlanMeansTick(op, Stored(d, id), plan);
    if plan.reply.Some? {
      assert Reordered(Stored(d, id), Replay(d.log, id));
      EvaluateReordered(Stored(d, id), Replay(d.log, id), plan.tick.value.now, plan.tick.value.params);
    }
    AnswersSnoc(d.log, Entry(id, plan.tick, plan.reply));
  }

  lemma CommitKeeps(d: Redis, k: nat, now: int, s: Settings)
    requires Inv(d) && k in d.clients && d.clients[k].Commit?
    requires Version(d, d.clients[k].op.id) == d.clients[k].seen
    ensures Inv(AdvanceClient(d, k, now, s))
  {
    var c := d.clients[k];
    var id := c.op.id;
    assert ReadsHold(d, c);
    var applied := Apply(d, id, Stored(d, id), c.plan.write);
    var e := Set(applied, k, Done(c.plan.reply)).(log := d.log + [Entry(id, c.plan.tick, c.plan.reply)]);
    DeletesStored(c.op, Stored(d, id), c.plan);
    ApplyStored(d, id, c.plan.write, applied);
    ApplyCounts(d, id, c.plan.write, applied);
    ClientsDoNotStore(applied, e);
    CommitReplays(d, e, c.op, c.plan);
    CommitAnswers(d, e, c.op, c.plan);
    forall j | j in e.clients ensures ReadsHold(e, e.clients[j]) {
      if j != k {
        OthersHold(d, e, id, d.clients[j]);
      }
    }
  }

  lemma DeletesStored(op: Op, state: Option<Context>, plan: Plan)
    requires PlanFits(op, state, plan)
    ensures plan.write.Delete? ==> state.Some?
  {
    PlanMeansTick(op, state, plan);
  }

  lemma ClientsDoNotStore(d: Redis, e: Redis)
    requires e.hash == d.hash && e.zset == d.zset && e.counter == d.counter && e.version == d.version
    ensures StoredMap(e) == StoredMap(d)
    ensures CounterExact(d) ==> CounterExact(e)
    ensures Tidy(d) ==> Tidy(e)
    ensures forall x :: Stored(e, x) == Stored(d, x) && Version(e, x) == Version(d, x)
  {
  }

  lemma LocalKeeps(d: Redis, k: nat, c: Client)
    requires Inv(d) && ReadsHold(d, c)
    ensures Inv(Set(d, k, c))
  {
    var e := Set(d, k, c);
    assert StoredMap(e) == StoredMap(d);
    forall id ensures Reordered(Stored(e, id), Replay(e.log, id)) {
      assert Reordered(Stored(d, id), Replay(d.log, id));
    }
    forall j | j in e.clients ensures ReadsHold(e, e.clients[j]) {
      if j != k {
        OthersHold(d, e, "", d.clients[j]);
      } else {
        OthersHold(d, e, "", c);
      }
    }
  }

  lemma AdvanceKeeps(d: Redis, k: nat, now: int, s: Settings)
    requires Inv(d) && k in d.clients
    ensures Inv(AdvanceClient(d, k, now, s))
  {
    var c := d.clients[k];
    assert ReadsHold(d, c);
    match c
    case Commit(op, n, seen, state, plan) =>
      if Version(d, op.id) == seen {
        CommitKeeps(d, k, now, s);
      } else {
        LocalKeeps(d, k, Retry(op, n));
      }
    case Watch(op, n) => LocalKeeps(d, k, Exists(op, n, Version(d, op.id)));
    case Exists(op, n, seen) =>
      LocalKeeps(d, k, if op.id in d.hash then ReadHash(op, n, seen) else Compute(op, n, seen, None));
    case ReadHash(op, n, seen) =>
      LocalKeeps(d, k, ReadZset(op, n, seen, if op.id in d.hash then d.hash[op.id] else Ends(None, None)));
    case ReadZset(op, n, seen, ends) =>
      LocalKeeps(d, k, Compute(op, n, seen, Some(Context(ends.lockoutUntil, ends.graceUntil, Members(d, op.id)))));
    case Compute(op, n, seen, state) =>
      LocalKeeps(d, k, Commit(op, n, seen, state, PlanOf(op, state, now, d.counter, s)));
    case _ =>
  }

  lemma {:induction false} ReachableInv(actions: seq<Action>)
    ensures Inv(Reach(actions))
  {
    if actions == [] {
      assert StoredMap(START) == map[];
    } else {
      var before, a := Reach(actions[..|actions| - 1]), actions[|actions| - 1];
      ReachableInv(actions[..|actions| - 1]);
      match a
      case Call(k, op) =>
        if Ready(before, k) {
          LocalKeeps(before, k, Watch(op, 0));
        }
      case Advance(k, now, s) =>
        if k in before.clients {
          AdvanceKeeps(before, k, now, s);
        }
      case Crash(k) => LocalKeeps(before, k, Failed);
    }
  }

  // ---------- theorems ----------

  /** In every interleaving the unwatched byte counter is the sum of the estimates of the stored contexts. */
  lemma CounterIsSum(actions: seq<Action>)
    ensures Reach(actions).counter == TotalBytes(StoredMap(Reach(actions)))
  {
    ReachableInv(actions);
  }

  /** A commit that goes through was computed from one consistent state, which is still the current one. */
  lemma NoTornCommit(actions: seq<Action>, k: nat, now: int, s: Settings)
    requires k in Reach(actions).clients && Reach(actions).clients[k].Commit?
    ensures var d := Reach(actions);
            var c := d.clients[k];
            Next(d, Advance(k, now, s)).clients[k].Done? ==> c.state == Stored(d, c.op.id)
  {
    ReachableInv(actions);
    assert ReadsHold(Reach(actions), Reach(actions).clients[k]);
  }

  /** A commit goes through unless the watched keys have changed; a conflict writes nothing and starts over, seven times at most. */
  lemma CommitDecides(d: Redis, k: nat, now: int, s: Settings)
    requires k in d.clients && d.clients[k].Commit?
    ensures var c, e := d.clients[k], Next(d, Advance(k, now, s));
            if Version(d, c.op.id) == c.seen then e.clients[k] == Done(c.plan.reply) && |e.log| == |d.log| + 1
            else e == d.(clients := e.clients) && e.clients[k] == if c.attempt < 7 then Watch(c.op, c.attempt + 1) else Failed
  {
  }

  /** What each kind of context answers, and what is then to be stored, by the settings of the moment. */
  ghost predicate PlansBySettings(plan: Plan, op: Op, state: Option<Context>, now: int, used: int, threshold: nat, period: nat, s: Settings) {
    match op
    case EvalOp(_) =>
      && plan.reply == Some(AnswerFor(state, now, threshold, period, s))
      && (plan.write.NoWrite? <==> state.None?) && !plan.write.Delete?
      && StoredAfter(state, if plan.write.Put? then Some(plan.write.context) else None, now, threshold, period, s)
    case RecordOp(_) =>
      plan.reply.None? && plan.write == if state.None? && used >= 1024 * s.maxKib then NoWrite
                                        else if state.None? then Put(Context(None, None, [now]))
                                        else Put(state.value.(failures := state.value.failures + [now]))
    case PurgeOp(_) =>
      && plan.reply.None? && (plan.write.NoWrite? <==> state.None?)
      && PurgeResult(state, if plan.write.Put? then Some(plan.write.context) else None, now, period)
  }

  lemma ComputeBySettings(d: Redis, k: nat, key: string, now: int, s: Settings)
    requires k in d.clients && d.clients[k].Compute?
    ensures var c := d.clients[k];
            var next := Next(d, Advance(k, now, s)).clients[k];
            && next.Commit? && next.state == c.state && next.seen == c.seen && next.op == c.op
            && (c.op.id == "user\t" + key ==>
                  PlansBySettings(next.plan, c.op, c.state, now, d.counter, s.userThreshold, s.userSamplePeriod, s))
            && (c.op.id == "ip\t" + key ==>
                  PlansBySettings(next.plan, c.op, c.state, now, d.counter, s.ipThreshold, s.ipSamplePeriod, s))
  {
    var c := d.clients[k];
    SettingsOfContext(key, s);
    PlannedBySettings(c.op, c.state, now, d.counter, s.userThreshold, s.userSamplePeriod, s);
    PlannedBySettings(c.op, c.state, now, d.counter, s.ipThreshold, s.ipSamplePeriod, s);
  }

  lemma PlannedBySettings(op: Op, state: Option<Context>, now: int, used: int, threshold: nat, period: nat, s: Settings)
    ensures ParamsOf(op.id, s) == Params(threshold, period, s.l1Delay, s.l2Delay, s.lockout) ==>
              PlansBySettings(PlanOf(op, state, now, used, s), op, state, now, used, threshold, period, s)
  {
    match op
    case EvalOp(_) => EvaluationExactly(state, now, threshold, period, s);
    case RecordOp(_) => assert [] + [now] == [now];
    case PurgeOp(_) =>
      if state.Some? {
        PurgedExactly(state.value, now, period);
      }
  }

  /**
   Every interleaving is one sequence of whole operations: each stored context is what the in-memory
   functions make of the committed operations in log order, up to the order of the failures, and every
   committed evaluation answered as they do at its place in the log.
   */
  lemma CommitsAreSequential(actions: seq<Action>)
    ensures var d := Reach(actions);
            && (forall id :: Reordered(Stored(d, id), Replay(d.log, id)))
            && (forall i :: 0 <= i < |d.log| && d.log[i].reply.Some? ==>
                  && d.log[i].tick.Some? && d.log[i].tick.value.Evaluated?
                  && d.log[i].reply.value ==
                     EvaluateContext(Replay(d.log[..i], d.log[i].id), d.log[i].tick.value.now, d.log[i].tick.value.params).answer)
  {
    ReachableInv(actions);
    var d := Reach(actions);
    forall i | 0 <= i < |d.log| && d.log[i].reply.Some?
      ensures d.log[i].tick.Some? && d.log[i].tick.value.Evaluated?
      ensures d.log[i].reply.value ==
              EvaluateContext(Replay(d.log[..i], d.log[i].id), d.log[i].tick.value.now, d.log[i].tick.value.params).answer
    {
      assert AnswerAt(d.log, i);
    }
  }
}
