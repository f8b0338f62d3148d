/** Pruning and purging are invisible, and the lockout timeline, over runs of the rate limiter. */
module RateLimitRuns {
  import opened Prelude
  import opened RateLimit

  // ---------- a limiter that never forgets ----------

  /** Evaluation over every failure ever admitted. */
  function ReferenceEvaluate(c: Context, now: int, p: Params): (Answer, Context, bool) {
    var n1 := |Filter(c.failures, AtLeast(Cutoff(now, 1, p.samplePeriod)))|;
    var n2 := |Filter(c.failures, AtLeast(Cutoff(now, 2, p.samplePeriod)))|;
    var n3 := |Filter(c.failures, AtLeast(Cutoff(now, 3, p.samplePeriod)))|;
    if !Over(c.lockoutUntil, now) then (Answer(p.l2Delay, true), c, false)
    else if n3 > 3 * p.threshold && Over(c.graceUntil, now) then
      (Answer(p.l2Delay, true),
       c.(lockoutUntil := Some(now + p.lockout * 1000), graceUntil := Some(now + 2 * p.lockout * 1000)), true)
    else (Answer(if n2 > 2 * p.threshold then p.l2Delay else if n1 > p.threshold then p.l1Delay else 0, false), c, false)
  }

  predicate SameEnd(a: Option<int>, b: Option<int>, now: int) {
    a == b || (Over(a, now) && Over(b, now))
  }

  function Recent(c: Context, now: int, samplePeriod: nat): seq<int> {
    PruneFailures(c.failures, now, samplePeriod)
  }

  function OrEmpty(c: Option<Context>): Context {
    if c.Some? then c.value else EMPTY_CONTEXT
  }

  /** From `now` on the two contexts cannot be told apart. */
  ghost predicate Alike(state: Option<Context>, full: Context, now: int, samplePeriod: nat) {
    var c := OrEmpty(state);
    && SameEnd(c.lockoutUntil, full.lockoutUntil, now)
    && SameEnd(c.graceUntil, full.graceUntil, now)
    && Recent(c, now, samplePeriod) == Recent(full, now, samplePeriod)
  }

  lemma AlikeLater(state: Option<Context>, full: Context, now: int, later: int, samplePeriod: nat)
    requires now <= later && Alike(state, full, now, samplePeriod)
    ensures Alike(state, full, later, samplePeriod)
  {
    var c := OrEmpty(state);
    var a, b := Cutoff(now, 3, samplePeriod), Cutoff(later, 3, samplePeriod);
    FilterTwice(c.failures, a, b);
    FilterTwice(full.failures, a, b);
  }

  /** Counting after pruning is counting over everything. */
  lemma PrunedCounts(failures: seq<int>, now: int, samplePeriod: nat)
    ensures var pruned := PruneFailures(failures, now, samplePeriod);
            && Filter(pruned, AtLeast(Cutoff(now, 1, samplePeriod))) == Filter(failures, AtLeast(Cutoff(now, 1, samplePeriod)))
            && Filter(pruned, AtLeast(Cutoff(now, 2, samplePeriod))) == Filter(failures, AtLeast(Cutoff(now, 2, samplePeriod)))
            && PruneFailures(pruned, now, samplePeriod) == pruned
  {
    var cutoff := Cutoff(now, 3, samplePeriod);
    FilterTwice(failures, cutoff, cutoff);
    FilterTwice(failures, cutoff, Cutoff(now, 1, samplePeriod));
    FilterTwice(failures, cutoff, Cutoff(now, 2, samplePeriod));
  }

  /** The answer depends on the stored failures only through the recent ones. */
  lemma EvaluationByCounts(c: Context, now: int, p: Params)
    ensures var e := EvaluateContext(Some(c), now, p);
            var r := ReferenceEvaluate(c, now, p);
            && e.answer == r.0 && e.started == r.2
            && e.next == Some(Context(r.1.lockoutUntil, r.1.graceUntil, PruneFailures(c.failures, now, p.samplePeriod)))
  {
    PrunedCounts(c.failures, now, p.samplePeriod);
  }

  lemma ReferenceByRecent(a: Context, b: Context, now: int, p: Params)
    requires SameEnd(a.lockoutUntil, b.lockoutUntil, now) && SameEnd(a.graceUntil, b.graceUntil, now)
    requires Recent(a, now, p.samplePeriod) == Recent(b, now, p.samplePeriod)
    ensures var x, y := ReferenceEvaluate(a, now, p), ReferenceEvaluate(b, now, p);
            && x.0 == y.0 && x.2 == y.2
            && SameEnd(x.1.lockoutUntil, y.1.lockoutUntil, now) && SameEnd(x.1.graceUntil, y.1.graceUntil, now)
            && x.1.failures == a.failures && y.1.failures == b.failures
  {
    PrunedCounts(a.failures, now, p.samplePeriod);
    PrunedCounts(b.failures, now, p.samplePeriod);
  }

  lemma EvaluateAlike(state: Option<Context>, full: Context, now: int, p: Params)
    requires Alike(state, full, now, p.samplePeriod)
    ensures var e := EvaluateContext(state, now, p);
            var r := ReferenceEvaluate(full, now, p);
            && e.answer == r.0 && e.started == r.2
            && Alike(e.next, r.1, now, p.samplePeriod)
  {
    var c := OrEmpty(state);
    ReferenceByRecent(c, full, now, p);
    EvaluationByCounts(c, now, p);
    PrunedCounts(c.failures, now, p.samplePeriod);
  }

  lemma RecordAlike(state: Option<Context>, full: Context, now: int, samplePeriod: nat)
    requires Alike(state, full, now, samplePeriod)
    ensures Alike(Some(RecordOnContext(state, now)), full.(failures := full.failures + [now]), now, samplePeriod)
  {
  }

  lemma PurgeAlike(c: Context, full: Context, now: int, samplePeriod: nat)
    requires Alike(Some(c), full, now, samplePeriod)
    ensures Alike(PurgeContext(c, now, samplePeriod), full, now, samplePeriod)
  {
    PrunedCounts(c.failures, now, samplePeriod);
  }

  // ---------- runs of the whole limiter ----------

  /** One atomic piece of a call: `evaluate` and `record_failure` take up to two of them each. */
  datatype Event =
    | Evaluating(id: string, now: int)
    | Recording(id: string, now: int)
    | Purging(now: int)

  ghost function StepContexts(m: Contexts, e: Event, s: Settings): Contexts {
    match e
    case Evaluating(id, now) => Store(m, id, EvaluateContext(Lookup(m, id), now, ParamsOf(id, s)).next)
    case Recording(id, now) => Recorded(m, id, now, s)
    case Purging(now) => PurgedContexts(m, s, now)
  }

  /** The reference keeps what the limiter admitted; purges mean nothing to it. */
  ghost function StepReference(full: Contexts, m: Contexts, e: Event, s: Settings): Contexts {
    match e
    case Evaluating(id, now) =>
      full[id := ReferenceEvaluate(OrEmpty(Lookup(full, id)), now, ParamsOf(id, s)).1]
    case Recording(id, now) =>
      if Refuses(m, id, s) then full
      else full[id := OrEmpty(Lookup(full, id)).(failures := OrEmpty(Lookup(full, id)).failures + [now])]
    case Purging(now) => full
  }

  ghost predicate AllAlike(m: Contexts, full: Contexts, now: int, s: Settings) {
    forall id :: Alike(Lookup(m, id), OrEmpty(Lookup(full, id)), now, ParamsOf(id, s).samplePeriod)
  }

  lemma AllAlikeLater(m: Contexts, full: Contexts, now: int, later: int, s: Settings)
    requires now <= later && AllAlike(m, full, now, s)
    ensures AllAlike(m, full, later, s)
  {
    forall id ensures Alike(Lookup(m, id), OrEmpty(Lookup(full, id)), later, ParamsOf(id, s).samplePeriod) {
      AlikeLater(Lookup(m, id), OrEmpty(Lookup(full, id)), now, later, ParamsOf(id, s).samplePeriod);
    }
  }

  lemma StepAlike(m: Contexts, full: Contexts, e: Event, s: Settings)
    requires AllAlike(m, full, e.now, s)
    ensures AllAlike(StepContexts(m, e, s), StepReference(full, m, e, s), e.now, s)
  {
    var next, full2 := StepContexts(m, e, s), StepReference(full, m, e, s);
    forall id ensures Alike(Lookup(next, id), OrEmpty(Lookup(full2, id)), e.now, ParamsOf(id, s).samplePeriod) {
      assert Alike(Lookup(m, id), OrEmpty(Lookup(full, id)), e.now, ParamsOf(id, s).samplePeriod);
      StepAlikeAt(m, full, e, s, id);
    }
  }

  lemma StepAlikeAt(m: Contexts, full: Contexts, e: Event, s: Settings, id: string)
    requires Alike(Lookup(m, id), OrEmpty(Lookup(full, id)), e.now, ParamsOf(id, s).samplePeriod)
    ensures Alike(Lookup(StepContexts(m, e, s), id), OrEmpty(Lookup(StepReference(full, m, e, s), id)), e.now,
                  ParamsOf(id, s).samplePeriod)
  {
    var state, c := Lookup(m, id), OrEmpty(Lookup(full, id));
    var next, c2 := Lookup(StepContexts(m, e, s), id), OrEmpty(Lookup(StepReference(full, m, e, s), id));
    match e
    case Evaluating(x, now) =>
      if x == id {
        EvaluateAlike(state, c, now, ParamsOf(id, s));
        assert next == EvaluateContext(state, now, ParamsOf(id, s)).next;
      } else {
        assert next == state && c2 == c;
      }
    case Recording(x, now) =>
      if x == id && !Refuses(m, id, s) {
        RecordAlike(state, c, now, ParamsOf(id, s).samplePeriod);
        assert next == Some(RecordOnContext(state, now));
      } else {
        assert next == state && c2 == c;
      }
    case Purging(now) =>
      if id in m {
        PurgeAlike(m[id], c, now, ParamsOf(id, s).samplePeriod);
        assert next == PurgeStored(id, m[id], now, s);
      } else {
        assert next == state;
      }
  }

  datatype Pair = Pair(contexts: Contexts, full: Contexts)

  ghost predicate StepsTo(a: Pair, e: Event, b: Pair, s: Settings) {
    b == Pair(StepContexts(a.contexts, e, s), StepReference(a.full, a.contexts, e, s))
  }

  datatype Run = Run(events: seq<Event>, states: seq<Pair>)

  ghost predicate StepAt(run: Run, i: nat, s: Settings)
    requires i < |run.events| < |run.states|
  {
    && StepsTo(run.states[i], run.events[i], run.states[i + 1], s)
    && (i > 0 ==> run.events[i - 1].now <= run.events[i].now)
  }

  /** A run with fixed settings and a clock that does not go back. */
  ghost predicate IsRun(run: Run, s: Settings) {
    && |run.states| == |run.events| + 1
    && run.states[0] == Pair(map[], map[])
    && forall i :: 0 <= i < |run.events| ==> StepAt(run, i, s)
  }

  lemma {:induction false} RunAlike(run: Run, s: Settings, i: nat)
    requires IsRun(run, s) && i < |run.events|
    ensures AllAlike(run.states[i].contexts, run.states[i].full, run.events[i].now, s)
  {
    if i == 0 {
      assert AllAlike(map[], map[], run.events[0].now, s);
    } else {
      RunAlike(run, s, i - 1);
      assert StepAt(run, i - 1, s) && StepAt(run, i, s);
      StepAlike(run.states[i - 1].contexts, run.states[i - 1].full, run.events[i - 1], s);
      AllAlikeLater(run.states[i].contexts, run.states[i].full, run.events[i - 1].now, run.events[i].now, s);
    }
  }

  /** Every evaluation of every run answers as the limiter that keeps every admitted failure forever. */
  lemma PruningIsInvisible(run: Run, s: Settings, i: nat)
    requires IsRun(run, s) && i < |run.events| && run.events[i].Evaluating?
    ensures var id, now := run.events[i].id, run.events[i].now;
            var e := EvaluateContext(Lookup(run.states[i].contexts, id), now, ParamsOf(id, s));
            var r := ReferenceEvaluate(OrEmpty(Lookup(run.states[i].full, id)), now, ParamsOf(id, s));
            e.answer == r.0 && e.started == r.2
  {
    RunAlike(run, s, i);
    var id, now := run.events[i].id, run.events[i].now;
    assert Alike(Lookup(run.states[i].contexts, id), OrEmpty(Lookup(run.states[i].full, id)), now, ParamsOf(id, s).samplePeriod);
    EvaluateAlike(Lookup(run.states[i].contexts, id), OrEmpty(Lookup(run.states[i].full, id)), now, ParamsOf(id, s));
  }

  // ---------- the timeline of one context, settings changing freely ----------

  datatype Tick =
    | Evaluated(now: int, params: Params)
    | Admitted(now: int)
    | PurgedBy(now: int, samplePeriod: nat)

  function StepContext(c: Option<Context>, t: Tick): Option<Context> {
    match t
    case Evaluated(now, p) => EvaluateContext(c, now, p).next
    case Admitted(now) => Some(RecordOnContext(c, now))
    case PurgedBy(now, samplePeriod) => if c.None? then None else PurgeContext(c.value, now, samplePeriod)
  }

  datatype Life = Life(ticks: seq<Tick>, states: seq<Option<Context>>)

  ghost predicate TickAt(life: Life, i: nat)
    requires i < |life.ticks| < |life.states|
  {
    && life.states[i + 1] == StepContext(life.states[i], life.ticks[i])
    && (i > 0 ==> life.ticks[i - 1].now <= life.ticks[i].now)
  }

  ghost predicate IsLife(life: Life) {
    && |life.states| == |life.ticks| + 1
    && life.states[0] == None
    && forall i :: 0 <= i < |life.ticks| ==> TickAt(life, i)
  }

  lemma {:induction false} ClockMonotone(life: Life, i: nat, j: nat)
    requires IsLife(life) && i <= j < |life.ticks|
    ensures life.ticks[i].now <= life.ticks[j].now
  {
    if i < j {
      ClockMonotone(life, i, j - 1);
      assert TickAt(life, j);
    }
  }

  predicate StartsAt(life: Life, i: nat)
    requires i < |life.ticks| < |life.states|
  {
    life.ticks[i].Evaluated? && EvaluateContext(life.states[i], life.ticks[i].now, life.ticks[i].params).started
  }

  ghost predicate LockedFor(c: Option<Context>, until: int, grace: int) {
    c.Some? && c.value.lockoutUntil == Some(until) && c.value.graceUntil == Some(grace)
  }

  lemma LockStays(c: Option<Context>, t: Tick, until: int, grace: int)
    requires LockedFor(c, until, grace) && until <= grace && t.now < grace
    ensures LockedFor(StepContext(c, t), until, grace)
    ensures t.Evaluated? ==> !EvaluateContext(c, t.now, t.params).started
    ensures t.Evaluated? ==> (EvaluateContext(c, t.now, t.params).answer.lockout <==> t.now < until)
  {
  }

  lemma {:induction false} LockStaysUntil(life: Life, i: nat, j: nat, until: int, grace: int)
    requires IsLife(life) && i <= j < |life.ticks|
    requires LockedFor(life.states[i], until, grace) && until <= grace && life.ticks[j].now < grace
    ensures LockedFor(life.states[j], until, grace)
  {
    if i < j {
      ClockMonotone(life, j - 1, j);
      LockStaysUntil(life, i, j - 1, until, grace);
      assert TickAt(life, j - 1);
      LockStays(life.states[j - 1], life.ticks[j - 1], until, grace);
    }
  }

  /**
   A lockout that starts at t with length L: every later evaluation before t + L is locked out, none
   from t + L to t + 2L is, and none before t + 2L starts another; purges and new settings in between
   make no difference.
   */
  lemma LockoutTimeline(life: Life, i: nat, j: nat)
    requires IsLife(life) && i < j < |life.ticks| && StartsAt(life, i) && life.ticks[j].Evaluated?
    ensures var start, length := life.ticks[i].now, life.ticks[i].params.lockout * 1000;
            var now := life.ticks[j].now;
            var e := EvaluateContext(life.states[j], now, life.ticks[j].params);
            && (now < start + length ==> e.answer.lockout)
            && (start + length <= now < start + 2 * length ==> !e.answer.lockout)
            && (now < start + 2 * length ==> !e.started)
  {
    assert TickAt(life, i);
    var until := life.ticks[i].now + life.ticks[i].params.lockout * 1000;
    var grace := until + life.ticks[i].params.lockout * 1000;
    assert LockedFor(life.states[i + 1], until, grace);
    if life.ticks[j].now < grace {
      LockStaysUntil(life, i + 1, j, until, grace);
      LockStays(life.states[j], life.ticks[j], until, grace);
    }
  }

  // ---------- what it takes to start a lockout ----------

  /** The failures admitted among the first `i` ticks. */
  function AdmittedBefore(life: Life, i: nat): seq<int>
    requires i <= |life.ticks|
  {
    if i == 0 then []
    else AdmittedBefore(life, i - 1) + AdmittedBy(life.ticks[i - 1])
  }

  predicate FewerOf(a: seq<int>, b: seq<int>, p: int -> bool) {
    |Filter(a, p)| <= |Filter(b, p)|
  }

  /** `a` has no more elements of any kind than `b`. */
  ghost predicate NoMore(a: seq<int>, b: seq<int>) {
    forall p: int -> bool :: FewerOf(a, b, p)
  }

  lemma {:induction false} FilterShrinks(s: seq<int>, q: int -> bool, p: int -> bool)
    ensures |Filter(Filter(s, q), p)| <= |Filter(s, p)|
  {
    if s != [] {
      FilterShrinks(s[..|s| - 1], q, p);
      if q(s[|s| - 1]) {
        FilterSnoc(Filter(s[..|s| - 1], q), s[|s| - 1], p);
      } else {
        assert Filter(s, q) == Filter(s[..|s| - 1], q);
      }
    }
  }

  function AdmittedBy(t: Tick): seq<int> {
    if t.Admitted? then [t.now] else []
  }

  lemma StepAddsOnlyAdmitted(c: Option<Context>, t: Tick, p: int -> bool)
    ensures FewerOf(OrEmpty(StepContext(c, t)).failures, OrEmpty(c).failures + AdmittedBy(t), p)
  {
    var was := OrEmpty(c).failures;
    match t
    case Evaluated(now, params) =>
      assert was + [] == was;
      if c.Some? {
        FilterShrinks(was, AtLeast(Cutoff(now, 3, params.samplePeriod)), p);
      }
    case Admitted(now) =>
    case PurgedBy(now, samplePeriod) =>
      assert was + [] == was;
      if c.Some? {
        FilterShrinks(was, AtLeast(Cutoff(now, 3, samplePeriod)), p);
      }
  }

  lemma FewerSnoc(a: seq<int>, b: seq<int>, tail: seq<int>, p: int -> bool)
    requires FewerOf(a, b, p) && |tail| <= 1
    ensures FewerOf(a + tail, b + tail, p)
  {
    if tail == [] {
      assert a + tail == a && b + tail == b;
    } else {
      assert tail == [tail[0]];
      FilterSnoc(a, tail[0], p);
      FilterSnoc(b, tail[0], p);
    }
  }

  lemma NoMoreStep(life: Life, i: nat)
    requires IsLife(life) && i < |life.ticks| && NoMore(OrEmpty(life.states[i]).failures, AdmittedBefore(life, i))
    ensures NoMore(OrEmpty(life.states[i + 1]).failures, AdmittedBefore(life, i + 1))
  {
    assert TickAt(life, i);
    var t, was, all := life.ticks[i], OrEmpty(life.states[i]).failures, AdmittedBefore(life, i);
    var next, all2 := OrEmpty(life.states[i + 1]).failures, AdmittedBefore(life, i + 1);
    assert all2 == all + AdmittedBy(t);
    forall p: int -> bool ensures FewerOf(next, all2, p) {
      assert FewerOf(was, all, p);
      FewerSnoc(was, all, AdmittedBy(t), p);
      StepAddsOnlyAdmitted(life.states[i], t, p);
    }
  }

  lemma {:induction false} StoredWereAdmitted(life: Life, i: nat)
    requires IsLife(life) && i <= |life.ticks|
    ensures NoMore(OrEmpty(life.states[i]).failures, AdmittedBefore(life, i))
  {
    if i > 0 {
      StoredWereAdmitted(life, i - 1);
      NoMoreStep(life, i - 1);
    }
  }

  lemma {:induction false} AdmittedEarlier(life: Life, i: nat)
    requires IsLife(life) && i < |life.ticks|
    ensures forall x :: x in AdmittedBefore(life, i) ==> x <= life.ticks[i].now
  {
    if i > 0 {
      AdmittedEarlier(life, i - 1);
      ClockMonotone(life, i - 1, i);
    }
  }

  /** Every lockout start has more than three thresholds of admitted failures in the last three periods. */
  lemma StartNeedsFailures(life: Life, i: nat)
    requires IsLife(life) && i < |life.ticks| && StartsAt(life, i)
    ensures var now, p := life.ticks[i].now, life.ticks[i].params;
            var all := AdmittedBefore(life, i);
            && |Filter(all, AtLeast(Cutoff(now, 3, p.samplePeriod)))| > 3 * p.threshold
            && forall x :: x in all ==> x <= now
  {
    StoredWereAdmitted(life, i);
    AdmittedEarlier(life, i);
    var now, p := life.ticks[i].now, life.ticks[i].params;
    assert FewerOf(OrEmpty(life.states[i]).failures, AdmittedBefore(life, i), AtLeast(Cutoff(now, 3, p.samplePeriod)));
    assert |Filter(OrEmpty(life.states[i]).failures, AtLeast(Cutoff(now, 3, p.samplePeriod)))| > 3 * p.threshold;
  }
}
