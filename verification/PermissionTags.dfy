/** What the version tag of a cache entry says about its keys (rbac/cache.py, auth/src/rbac/permissions.ts). */
module PermissionTags {
  import opened Prelude
  import opened PermissionCache

  function At(p: Privileges, actions: seq<Action>, i: nat): (s: System)
    requires i <= |actions|
    ensures |s.history| > 0
  {
    Reach(p, actions[..i])
  }

  predicate StepsAt(p: Privileges, actions: seq<Action>, i: nat, k: nat, r: Reader) {
    && i < |actions| && actions[i].Step? && actions[i].reader == k
    && k in At(p, actions, i).readers && At(p, actions, i).readers[k] == r
  }

  /** Step `i` is reader `k` reading version `tag`. */
  predicate Reads(p: Privileges, actions: seq<Action>, i: nat, k: nat, user: UserId, tag: nat) {
    StepsAt(p, actions, i, k, ReadVersion(user)) && tag == |At(p, actions, i).history| - 1
  }

  /** Step `j` is the same reader resolving `keys` while version `now` is current. */
  predicate Resolves(p: Privileges, actions: seq<Action>, j: nat, k: nat, user: UserId, tag: nat, now: nat, keys: set<string>) {
    && StepsAt(p, actions, j, k, Resolve(user, tag))
    && now == |At(p, actions, j).history| - 1
    && Effective(At(p, actions, j).history[now](user)) == Ok(keys)
  }

  /** One lookup of the user read version `tag` and then resolved `keys` at version `now`. */
  ghost predicate LookedUp(p: Privileges, actions: seq<Action>, user: UserId, tag: nat, now: nat, keys: set<string>) {
    exists k: nat, i: nat, j: nat :: i < j && Reads(p, actions, i, k, user, tag) && Resolves(p, actions, j, k, user, tag, now, keys)
  }

  ghost predicate Traced(p: Privileges, actions: seq<Action>, k: nat, r: Reader) {
    && (r.Get? || r.Resolve? ==> exists i :: Reads(p, actions, i, k, r.user, r.version))
    && (r.Write? ==> exists now :: LookedUp(p, actions, r.user, r.version, now, r.keys))
  }

  ghost predicate EntryTraced(p: Privileges, actions: seq<Action>, user: UserId, entry: Entry) {
    entry.Tagged? ==> exists now :: LookedUp(p, actions, user, entry.version, now, entry.keys)
  }

  // ---------- a longer run keeps its past ----------

  lemma ReadsLater(p: Privileges, actions: seq<Action>, a: Action, i: nat, k: nat, user: UserId, tag: nat)
    requires Reads(p, actions, i, k, user, tag)
    ensures Reads(p, actions + [a], i, k, user, tag)
  {
    assert (actions + [a])[..i] == actions[..i];
  }

  lemma LookedUpLater(p: Privileges, actions: seq<Action>, a: Action, user: UserId, tag: nat, now: nat, keys: set<string>)
    requires LookedUp(p, actions, user, tag, now, keys)
    ensures LookedUp(p, actions + [a], user, tag, now, keys)
  {
    var k: nat, i: nat, j: nat :| i < j && Reads(p, actions, i, k, user, tag) && Resolves(p, actions, j, k, user, tag, now, keys);
    ReadsLater(p, actions, a, i, k, user, tag);
    assert (actions + [a])[..j] == actions[..j];
    assert Resolves(p, actions + [a], j, k, user, tag, now, keys);
  }

  lemma TracedLater(p: Privileges, actions: seq<Action>, a: Action, k: nat, r: Reader)
    requires Traced(p, actions, k, r)
    ensures Traced(p, actions + [a], k, r)
  {
    if r.Get? || r.Resolve? {
      var i :| Reads(p, actions, i, k, r.user, r.version);
      ReadsLater(p, actions, a, i, k, r.user, r.version);
    }
    if r.Write? {
      var now :| LookedUp(p, actions, r.user, r.version, now, r.keys);
      LookedUpLater(p, actions, a, r.user, r.version, now, r.keys);
    }
  }

  lemma ReadRecorded(p: Privileges, actions: seq<Action>, k: nat, redisFails: bool, user: UserId)
    requires k in Reach(p, actions).readers && Reach(p, actions).readers[k] == ReadVersion(user)
    ensures Reads(p, actions + [Step(k, redisFails)], |actions|, k, user, |Reach(p, actions).history| - 1)
  {
    assert (actions + [Step(k, redisFails)])[..|actions|] == actions;
  }

  lemma ResolveRecorded(p: Privileges, actions: seq<Action>, k: nat, redisFails: bool, user: UserId, tag: nat, i: nat)
    requires k in Reach(p, actions).readers && Reach(p, actions).readers[k] == Resolve(user, tag)
    requires Reads(p, actions, i, k, user, tag)
    requires Effective(Reach(p, actions).history[|Reach(p, actions).history| - 1](user)).Ok?
    ensures var now := |Reach(p, actions).history| - 1;
            LookedUp(p, actions + [Step(k, redisFails)], user, tag, now,
                     Effective(Reach(p, actions).history[now](user)).value)
  {
    var all := actions + [Step(k, redisFails)];
    var now := |Reach(p, actions).history| - 1;
    assert all[..|actions|] == actions;
    ReadsLater(p, actions, Step(k, redisFails), i, k, user, tag);
    assert Resolves(p, all, |actions|, k, user, tag, now, Effective(Reach(p, actions).history[now](user)).value);
  }

  lemma StepReads(s: System, k: nat, redisFails: bool)
    requires k in s.readers && |s.history| > 0
    ensures var r, next := s.readers[k], StepReader(s, k, redisFails).readers[k];
            && (r.ReadVersion? ==> next == Get(r.user, |s.history| - 1))
            && (r.Get? ==> next.Returned? || next == Resolve(r.user, r.version))
            && (r.Resolve? && !next.Raised? ==>
                  && Effective(s.history[|s.history| - 1](r.user)).Ok?
                  && next == Write(r.user, r.version, Effective(s.history[|s.history| - 1](r.user)).value))
            && (r.Write? ==> next.Returned?)
            && (r.Returned? || r.Raised? ==> next == r)
  {
  }

  /** The reader that moves: its read and its resolve go on record. */
  lemma MoverTraced(p: Privileges, actions: seq<Action>, k: nat, redisFails: bool, next: Reader)
    requires k in Reach(p, actions).readers && Traced(p, actions, k, Reach(p, actions).readers[k])
    requires next == StepReader(Reach(p, actions), k, redisFails).readers[k]
    ensures Traced(p, actions + [Step(k, redisFails)], k, next)
  {
    var r := Reach(p, actions).readers[k];
    StepReads(Reach(p, actions), k, redisFails);
    if next.Get? || next.Resolve? {
      if r.ReadVersion? {
        ReadRecorded(p, actions, k, redisFails, r.user);
      } else {
        var i :| Reads(p, actions, i, k, r.user, r.version);
        ReadsLater(p, actions, Step(k, redisFails), i, k, r.user, r.version);
      }
    } else if next.Write? {
      var i :| Reads(p, actions, i, k, r.user, r.version);
      ResolveRecorded(p, actions, k, redisFails, r.user, r.version, i);
    }
  }

  lemma EntryLater(p: Privileges, actions: seq<Action>, a: Action, user: UserId, entry: Entry)
    requires EntryTraced(p, actions, user, entry)
    ensures EntryTraced(p, actions + [a], user, entry)
  {
    if entry.Tagged? {
      var now :| LookedUp(p, actions, user, entry.version, now, entry.keys);
      LookedUpLater(p, actions, a, user, entry.version, now, entry.keys);
    }
  }

  lemma ReadersTraced(p: Privileges, init: seq<Action>, a: Action)
    requires forall k :: k in Reach(p, init).readers ==> Traced(p, init, k, Reach(p, init).readers[k])
    ensures var t := Next(Reach(p, init), a); forall k :: k in t.readers ==> Traced(p, init + [a], k, t.readers[k])
  {
    var s, t := Reach(p, init), Next(Reach(p, init), a);
    forall k | k in t.readers ensures Traced(p, init + [a], k, t.readers[k]) {
      if a.Step? && a.reader == k {
        MoverTraced(p, init, k, a.redisFails, t.readers[k]);
      } else if k in s.readers {
        TracedLater(p, init, a, k, s.readers[k]);
      }
    }
  }

  /** A new entry is the one its writer holds. */
  lemma EntryWritten(s: System, a: Action, user: UserId)
    requires |s.history| > 0 && Cached(Next(s, a), user).Tagged? && Cached(Next(s, a), user) != Cached(s, user)
    ensures a.Step? && a.reader in s.readers
    ensures s.readers[a.reader] == Write(user, Cached(Next(s, a), user).version, Cached(Next(s, a), user).keys)
  {
  }

  lemma EntriesTraced(p: Privileges, init: seq<Action>, a: Action)
    requires forall k :: k in Reach(p, init).readers ==> Traced(p, init, k, Reach(p, init).readers[k])
    requires forall user :: EntryTraced(p, init, user, Cached(Reach(p, init), user))
    ensures forall user :: EntryTraced(p, init + [a], user, Cached(Next(Reach(p, init), a), user))
  {
    var s, t := Reach(p, init), Next(Reach(p, init), a);
    forall user ensures EntryTraced(p, init + [a], user, Cached(t, user)) {
      if Cached(t, user) == Cached(s, user) {
        EntryLater(p, init, a, user, Cached(s, user));
      } else if Cached(t, user).Tagged? {
        EntryWritten(s, a, user);
        TracedLater(p, init, a, a.reader, s.readers[a.reader]);
      }
    }
  }

  ghost predicate RunTraced(p: Privileges, actions: seq<Action>, s: System) {
    && (forall k :: k in s.readers ==> Traced(p, actions, k, s.readers[k]))
    && (forall user :: EntryTraced(p, actions, user, Cached(s, user)))
  }

  lemma TracedSnoc(p: Privileges, init: seq<Action>, a: Action)
    requires RunTraced(p, init, Reach(p, init))
    ensures RunTraced(p, init + [a], Next(Reach(p, init), a))
  {
    ReadersTraced(p, init, a);
    EntriesTraced(p, init, a);
  }

  /** Readers and entries come from lookups of this run. */
  lemma {:induction false} AllTraced(p: Privileges, actions: seq<Action>)
    ensures RunTraced(p, actions, Reach(p, actions))
  {
    if actions != [] {
      AllTraced(p, actions[..|actions| - 1]);
      TracedSnoc(p, actions[..|actions| - 1], actions[|actions| - 1]);
      assert actions[..|actions| - 1] + [actions[|actions| - 1]] == actions;
    }
  }

  // ---------- the tag ----------

  lemma LookupVersions(p: Privileges, actions: seq<Action>, user: UserId, tag: nat, now: nat, keys: set<string>)
    requires LookedUp(p, actions, user, tag, now, keys)
    ensures var history := Reach(p, actions).history;
            tag <= now < |history| && Effective(history[now](user)) == Ok(keys)
  {
    var k: nat, i: nat, j: nat :| i < j && Reads(p, actions, i, k, user, tag) && Resolves(p, actions, j, k, user, tag, now, keys);
    HistoryOnlyGrows(p, actions[..j], i);
    assert actions[..j][..i] == actions[..i];
    HistoryOnlyGrows(p, actions, j);
  }

  /**
   Never older than its tag: in every reachable system the keys of an entry were effective at a version
   from its tag on, namely the one at which the lookup that read the tag resolved them.
   */
  lemma KeysAreNoOlderThanTag(p: Privileges, actions: seq<Action>, user: UserId)
    requires Cached(Reach(p, actions), user).Tagged?
    ensures var s := Reach(p, actions);
            var entry := Cached(s, user);
            exists now :: entry.version <= now < |s.history| && LookedUp(p, actions, user, entry.version, now, entry.keys)
                          && Effective(s.history[now](user)) == Ok(entry.keys)
  {
    AllTraced(p, actions);
    var entry := Cached(Reach(p, actions), user);
    assert EntryTraced(p, actions, user, entry);
    var now :| LookedUp(p, actions, user, entry.version, now, entry.keys);
    LookupVersions(p, actions, user, entry.version, now, entry.keys);
  }

  /** No mutation from version `from` to version `to` changed what the user may do. */
  ghost predicate Unchanged(history: seq<Privileges>, user: UserId, from: nat, to: nat)
    requires from <= to < |history|
  {
    forall v :: from <= v < to ==> Effective(history[v + 1](user)) == Effective(history[v](user))
  }

  lemma {:induction false} UnchangedMeansEqual(history: seq<Privileges>, user: UserId, from: nat, to: nat)
    requires from <= to < |history| && Unchanged(history, user, from, to)
    ensures Effective(history[to](user)) == Effective(history[from](user))
  {
    if from < to {
      UnchangedMeansEqual(history, user, from, to - 1);
      assert Effective(history[to - 1 + 1](user)) == Effective(history[to - 1](user));
    }
  }

  /**
   An entry holds the keys of its tag if and only if the user's effective set was the same when the
   lookup resolved as when it read the version; in particular when no mutation in between changed it.
   */
  lemma TagHoldsItsKeysExactly(p: Privileges, actions: seq<Action>, user: UserId, now: nat)
    requires Cached(Reach(p, actions), user).Tagged?
    requires LookedUp(p, actions, user, Cached(Reach(p, actions), user).version, now, Cached(Reach(p, actions), user).keys)
    ensures var s := Reach(p, actions);
            var entry := Cached(s, user);
            && entry.version <= now < |s.history|
            && (Effective(s.history[entry.version](user)) == Ok(entry.keys) <==>
                Effective(s.history[entry.version](user)) == Effective(s.history[now](user)))
            && (Unchanged(s.history, user, entry.version, now) ==>
                Effective(s.history[entry.version](user)) == Ok(entry.keys))
  {
    var s := Reach(p, actions);
    var entry := Cached(s, user);
    LookupVersions(p, actions, user, entry.version, now, entry.keys);
    if Unchanged(s.history, user, entry.version, now) {
      UnchangedMeansEqual(s.history, user, entry.version, now);
    }
  }
}
