/**
 The version-tagged permission cache shared by two services (rbac/cache.py, rbac/store.py and
 auth/src/rbac/permissions.ts).  Privilege mutations bump a version in their own transaction; readers
 take four steps that interleave with them and with each other, and Redis may lose anything.
 */
module PermissionCache {
  import opened Prelude
  import opened Ordering

  type UserId = nat

  /** A row of the role-flatten query. */
  datatype FlattenRow = FlattenRow(hasCycle: bool, depthExceeded: bool, key: Option<string>)

  datatype GraphError = CycleDetected | DepthExceeded

  /** The privilege tables at one version, as far as the flatten query sees them. */
  type Privileges = UserId -> seq<FlattenRow>

  function KeysOf(rows: seq<FlattenRow>): set<string> {
    set i | 0 <= i < |rows| && rows[i].key.Some? :: rows[i].key.value
  }

  predicate AnyCycle(rows: seq<FlattenRow>) {
    exists i :: 0 <= i < |rows| && rows[i].hasCycle
  }

  predicate AnyTooDeep(rows: seq<FlattenRow>) {
    exists i :: 0 <= i < |rows| && rows[i].depthExceeded
  }

  /** Resolution fails closed on a cyclic or too deep role graph. */
  function Effective(rows: seq<FlattenRow>): Result<set<string>, GraphError> {
    if AnyCycle(rows) then Err(CycleDetected)
    else if AnyTooDeep(rows) then Err(DepthExceeded)
    else Ok(KeysOf(rows))
  }

  /** A key is effective exactly when some row carries it; one bad row refuses everything, a cycle first. */
  lemma EffectiveExactly(rows: seq<FlattenRow>)
    ensures Effective(rows).Ok? <==> forall row :: row in rows ==> !row.hasCycle && !row.depthExceeded
    ensures Effective(rows) == Err(CycleDetected) <==> exists row :: row in rows && row.hasCycle
    ensures Effective(rows).Ok? ==>
              forall key :: key in Effective(rows).value <==> exists row :: row in rows && row.key == Some(key)
  {
    forall key ensures key in KeysOf(rows) <==> exists row :: row in rows && row.key == Some(key) {
      if row :| row in rows && row.key == Some(key) {
        var i :| 0 <= i < |rows| && rows[i] == row;
      }
    }
  }

  /** The resolver of either service; the result is sorted, without repetitions. */
  method FetchEffective(rows: seq<FlattenRow>) returns (r: Result<seq<string>, GraphError>)
    ensures r.Ok? <==> forall row :: row in rows ==> !row.hasCycle && !row.depthExceeded
    ensures r.Err? ==> r.error == if exists row :: row in rows && row.hasCycle then CycleDetected else DepthExceeded
    ensures r.Ok? ==>
              && (forall key :: key in r.value <==> exists row :: row in rows && row.key == Some(key))
              && NoDup(r.value) && forall i, j :: 0 <= i < j < |r.value| ==> StrLe(r.value[i], r.value[j])
    ensures r.Ok? <==> Effective(rows).Ok?
    ensures r.Ok? ==> r.value == SortedNames(Effective(rows).value)
    ensures r.Err? ==> r.error == Effective(rows).error
  {
    EffectiveExactly(rows);
    var cycle, deep := false, false;
    for i := 0 to |rows|
      invariant cycle <==> exists k :: 0 <= k < i && rows[k].hasCycle
      invariant deep <==> exists k :: 0 <= k < i && rows[k].depthExceeded
    {
      cycle := cycle || rows[i].hasCycle;
      deep := deep || rows[i].depthExceeded;
    }
    if cycle {
      return Err(CycleDetected);
    }
    if deep {
      return Err(DepthExceeded);
    }
    var keys: set<string> := {};
    for i := 0 to |rows|
      invariant keys == set k | 0 <= k < i && rows[k].key.Some? :: rows[k].key.value
    {
      if rows[i].key.Some? {
        keys := keys + {rows[i].key.value};
      }
    }
    SortedNamesIncreasing(keys);
    return Ok(SortedNames(keys));
  }

  // ---------- interleaved readers and mutators ----------

  /** A Redis entry: text that is not a well-formed payload counts as a miss. */
  datatype Entry = Junk | Tagged(version: nat, keys: set<string>)

  /** A lookup by its next step; `version` is what its first step read. */
  datatype Reader =
    | ReadVersion(user: UserId)
    | Get(user: UserId, version: nat)
    | Resolve(user: UserId, version: nat)
    | Write(user: UserId, version: nat, keys: set<string>)
    | Returned(user: UserId, version: nat, keys: set<string>)
    | Raised(user: UserId, version: nat, error: GraphError)

  /** `history[v]` is the privilege state that was committed with version `v`. */
  datatype System = System(history: seq<Privileges>, cache: map<UserId, Entry>, readers: map<nat, Reader>)

  datatype Action =
    | Mutate(privileges: Privileges)
    | Start(reader: nat, user: UserId)
    | Step(reader: nat, redisFails: bool)
    | Lose(user: UserId)
    | Corrupt(user: UserId)

  function Init(p: Privileges): System {
    System([p], map[], map[])
  }

  function Cached(s: System, user: UserId): Entry {
    if user in s.cache then s.cache[user] else Junk
  }

  function Put(s: System, k: nat, r: Reader): System {
    s.(readers := s.readers[k := r])
  }

  function StepReader(s: System, k: nat, redisFails: bool): System
    requires k in s.readers && |s.history| > 0
  {
    var now := |s.history| - 1;
    match s.readers[k]
    case ReadVersion(user) => Put(s, k, Get(user, now))
    case Get(user, v) =>
      var entry := Cached(s, user);
      if !redisFails && entry.Tagged? && entry.version == v then Put(s, k, Returned(user, v, entry.keys))
      else Put(s, k, Resolve(user, v))
    case Resolve(user, v) =>
      (match Effective(s.history[now](user))
       case Ok(keys) => Put(s, k, Write(user, v, keys))
       case Err(error) => Put(s, k, Raised(user, v, error)))
    case Write(user, v, keys) =>
      var done := Put(s, k, Returned(user, v, keys));
      if redisFails then done else done.(cache := s.cache[user := Tagged(v, keys)])
    case Returned(_, _, _) => s
    case Raised(_, _, _) => s
  }

  function Next(s: System, a: Action): System
    requires |s.history| > 0
  {
    match a
    case Mutate(p) => s.(history := s.history + [p])
    case Start(k, user) => if k in s.readers then s else Put(s, k, ReadVersion(user))
    case Step(k, redisFails) => if k in s.readers then StepReader(s, k, redisFails) else s
    case Lose(user) => s.(cache := s.cache - {user})
    case Corrupt(user) => s.(cache := s.cache[user := Junk])
  }

  function Reach(p: Privileges, actions: seq<Action>): (s: System)
    ensures |s.history| > 0
  {
    if actions == [] then Init(p) else Next(Reach(p, actions[..|actions| - 1]), actions[|actions| - 1])
  }

  /** The keys were effective at some version from `from` on. */
  ghost predicate EffectiveSince(history: seq<Privileges>, user: UserId, from: nat, keys: set<string>) {
    exists v :: from <= v < |history| && Effective(history[v](user)) == Ok(keys)
  }

  ghost predicate EntryFits(s: System, user: UserId) {
    Cached(s, user).Tagged? ==>
      EffectiveSince(s.history, user, Cached(s, user).version, Cached(s, user).keys)
  }

  ghost predicate ReaderFits(s: System, r: Reader) {
    && (!r.ReadVersion? ==> r.version < |s.history|)
    && (r.Write? || r.Returned? ==> EffectiveSince(s.history, r.user, r.version, r.keys))
  }

  ghost predicate Inv(s: System) {
    && |s.history| > 0
    && (forall user :: EntryFits(s, user))
    && (forall k :: k in s.readers ==> ReaderFits(s, s.readers[k]))
  }

  lemma HistoryGrows(history: seq<Privileges>, p: Privileges, user: UserId, from: nat, keys: set<string>)
    requires EffectiveSince(history, user, from, keys)
    ensures EffectiveSince(history + [p], user, from, keys)
  {
    var v :| from <= v < |history| && Effective(history[v](user)) == Ok(keys);
    assert (history + [p])[v] == history[v];
  }

  lemma MutateKeeps(s: System, p: Privileges)
    requires Inv(s)
    ensures Inv(Next(s, Mutate(p)))
  {
    var t := Next(s, Mutate(p));
    forall user ensures EntryFits(t, user) {
      assert EntryFits(s, user);
      if Cached(s, user).Tagged? {
        HistoryGrows(s.history, p, user, Cached(s, user).version, Cached(s, user).keys);
      }
    }
    forall k | k in t.readers ensures ReaderFits(t, t.readers[k]) {
      var r := s.readers[k];
      assert ReaderFits(s, r);
      if r.Write? || r.Returned? {
        HistoryGrows(s.history, p, r.user, r.version, r.keys);
      }
    }
  }

  lemma StepKeeps(s: System, k: nat, redisFails: bool)
    requires Inv(s) && k in s.readers
    ensures Inv(StepReader(s, k, redisFails))
  {
    var t := StepReader(s, k, redisFails);
    var r := s.readers[k];
    assert ReaderFits(s, r);
    assert EntryFits(s, r.user);
    var now := |s.history| - 1;
    if r.Resolve? && Effective(s.history[now](r.user)).Ok? {
      assert EffectiveSince(s.history, r.user, r.version, Effective(s.history[now](r.user)).value);
    }
    forall user ensures EntryFits(t, user) {
      assert EntryFits(s, user);
    }
  }

  lemma {:induction false} ReachableInv(p: Privileges, actions: seq<Action>)
    ensures Inv(Reach(p, actions))
  {
    if actions != [] {
      var before, a := Reach(p, actions[..|actions| - 1]), actions[|actions| - 1];
      ReachableInv(p, actions[..|actions| - 1]);
      match a
      case Mutate(q) => MutateKeeps(before, q);
      case Step(k, fails) =>
        if k in before.readers {
          StepKeeps(before, k, fails);
        }
      case _ =>
        forall u ensures EntryFits(Next(before, a), u) {
          assert EntryFits(before, u);
        }
    }
  }

  /**
   Whatever the readers of both services, the mutators and Redis do: a returned permission set was the
   user's effective set at a version between the one the call read first and the current one.
   */
  lemma ReturnedWasEffective(p: Privileges, actions: seq<Action>, k: nat)
    requires k in Reach(p, actions).readers && Reach(p, actions).readers[k].Returned?
    ensures var s := Reach(p, actions);
            var r := s.readers[k];
            exists v :: r.version <= v < |s.history| && Effective(s.history[v](r.user)) == Ok(r.keys)
  {
    ReachableInv(p, actions);
    assert ReaderFits(Reach(p, actions), Reach(p, actions).readers[k]);
  }

  // ---------- revocation ----------

  lemma {:induction false} HistoryOnlyGrows(p: Privileges, actions: seq<Action>, n: nat)
    requires n <= |actions|
    ensures Reach(p, actions[..n]).history <= Reach(p, actions).history
  {
    if n < |actions| {
      var init := actions[..|actions| - 1];
      HistoryOnlyGrows(p, init, n);
      assert init[..n] == actions[..n];
    } else {
      assert actions[..n] == actions;
    }
  }

  /** The version a lookup works with was not read before its start. */
  lemma {:induction false} VersionNotOlder(p: Privileges, actions: seq<Action>, n: nat, k: nat)
    requires n < |actions| && k !in Reach(p, actions[..n]).readers && k in Reach(p, actions).readers
    ensures var r := Reach(p, actions).readers[k]; !r.ReadVersion? ==> r.version >= |Reach(p, actions[..n]).history| - 1
  {
    var init := actions[..|actions| - 1];
    assert init[..n] == actions[..n];
    HistoryOnlyGrows(p, init, n);
    if n == |init| {
      assert init[..n] == init;
    } else {
      if k in Reach(p, init).readers {
        VersionNotOlder(p, init, n, k);
      }
    }
  }

  /**
   Once a mutation has taken a key from a user, no lookup that starts afterwards returns it, from the
   cache or not, until a later mutation gives it back.
   */
  lemma RevocationIsSeen(p: Privileges, actions: seq<Action>, n: nat, k: nat, key: string)
    requires n < |actions| && k !in Reach(p, actions[..n]).readers
    requires k in Reach(p, actions).readers && Reach(p, actions).readers[k].Returned?
    requires var s := Reach(p, actions);
             forall v :: |Reach(p, actions[..n]).history| - 1 <= v < |s.history| ==>
                           Effective(s.history[v](s.readers[k].user)).Ok? ==>
                             key !in Effective(s.history[v](s.readers[k].user)).value
    ensures key !in Reach(p, actions).readers[k].keys
  {
    VersionNotOlder(p, actions, n, k);
    ReturnedWasEffective(p, actions, k);
  }

  // ---------- the tag can lag ----------

  function OneKey(key: string): Privileges {
    (user: UserId) => [FlattenRow(false, false, Some(key))]
  }

  const LAG := [Start(0, 7), Step(0, false), Step(0, false), Mutate(OneKey("new")), Step(0, false), Step(0, false)]

  lemma ReachStep(p: Privileges, actions: seq<Action>, i: nat)
    requires i < |actions|
    ensures Reach(p, actions[..i + 1]) == Next(Reach(p, actions[..i]), actions[i])
  {
    assert actions[..i + 1][..i] == actions[..i];
  }

  lemma OneKeyEffective(key: string)
    ensures Effective(OneKey(key)(7)) == Ok({key})
  {
    var rows := OneKey(key)(7);
    assert rows[0].key == Some(key);
    assert KeysOf(rows) == {key};
  }

  lemma LagBefore(p: Privileges)
    ensures Reach(p, LAG[..3]) == System([p], map[], map[0 := Resolve(7, 0)])
  {
    assert LAG[..0] == [];
    ReachStep(p, LAG, 0);
    ReachStep(p, LAG, 1);
    ReachStep(p, LAG, 2);
  }

  /** The tag is the version read first, so an entry may hold keys newer than its tag: never older ones. */
  lemma TagMayBeOlderThanKeys()
    ensures var s := Reach(OneKey("old"), LAG);
            && Cached(s, 7) == Tagged(0, {"new"})
            && |s.history| == 2 && Effective(s.history[0](7)) == Ok({"old"})
  {
    var p := OneKey("old");
    LagBefore(p);
    ReachStep(p, LAG, 3);
    OneKeyEffective("new");
    OneKeyEffective("old");
    ReachStep(p, LAG, 4);
    assert Reach(p, LAG[..5]) == System([p, OneKey("new")], map[], map[0 := Write(7, 0, {"new"})]);
    ReachStep(p, LAG, 5);
    assert LAG[..6] == LAG;
  }

  // ---------- one lookup on its own ----------

  class AuthzRedis {
    var entries: map<UserId, Entry>

    constructor ()
      ensures entries == map[]
    {
      entries := map[];
    }
  }

  /**
   A lookup that nothing interleaves with: a matching entry answers and leaves Redis alone; otherwise the
   database answers and the entry is replaced, and then the same lookup is answered from the cache.
   */
  method FetchCached(redis: AuthzRedis, user: UserId, version: nat, rows: seq<FlattenRow>, getFails: bool, setFails: bool)
    returns (r: Result<seq<string>, GraphError>)
    modifies redis
    ensures var hit := !getFails && user in old(redis.entries) && old(redis.entries)[user].Tagged?
                       && old(redis.entries)[user].version == version;
            && (hit ==> r == Ok(SortedNames(old(redis.entries)[user].keys)) && redis.entries == old(redis.entries))
            && (!hit ==> (r.Ok? <==> Effective(rows).Ok?))
            && (!hit && r.Ok? ==>
                  && r.value == SortedNames(Effective(rows).value)
                  && redis.entries == if setFails then old(redis.entries)
                                      else old(redis.entries)[user := Tagged(version, Effective(rows).value)])
            && (!hit && r.Err? ==> r.error == Effective(rows).error && redis.entries == old(redis.entries))
  {
    if !getFails && user in redis.entries {
      match redis.entries[user]
      case Tagged(tag, keys) =>
        if tag == version {
          return Ok(SortedNames(keys));
        }
      case Junk =>
    }
    r := FetchEffective(rows);
    if r.Ok? && !setFails {
      redis.entries := redis.entries[user := Tagged(version, Effective(rows).value)];
    }
  }
}
