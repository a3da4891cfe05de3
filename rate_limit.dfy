/**
 * The in-memory limiter that guards the login endpoint: per key (an
 * address or a user name) it keeps the instants of recent failed attempts
 * and refuses once max_attempts of them fall within the window.
 *
 * Instants are integers in one time unit and the window is in the same
 * unit; "now" is a parameter of every operation instead of a clock read.
 */
module RateLimit {
  import opened Query

  type Key = string
  type Instant = int

  /**
   * Instant::duration_since: the time from t to now, zero when t lies
   * after now (the standard library saturates there).
   */
  function Since(now: Instant, t: Instant): (d: nat)
    ensures t <= now ==> d == now - t
    ensures now < t ==> d == 0
  {
    if t <= now then now - t else 0
  }

  /** The retain condition: attempts younger than the window survive. */
  function InWindow(now: Instant, window: nat): Instant -> bool
  {
    (t: Instant) => Since(now, t) < window
  }

  function EntryOf(m: map<Key, seq<Instant>>, key: Key): seq<Instant>
  {
    if key in m then m[key] else []
  }

  function Pruned(entry: seq<Instant>, now: Instant, window: nat): (r: seq<Instant>)
    ensures forall i :: 0 <= i < |r| ==> r[i] in entry && Since(now, r[i]) < window
    ensures forall i :: 0 <= i < |entry| && Since(now, entry[i]) < window ==> entry[i] in r
  {
    Filter(entry, InWindow(now, window))
  }

  /** The map after check: the key's entry is created if missing and pruned. */
  function AfterCheck(m: map<Key, seq<Instant>>, key: Key, now: Instant, window: nat): map<Key, seq<Instant>>
  {
    m[key := Pruned(EntryOf(m, key), now, window)]
  }

  /** check's answer: fewer than maxAttempts attempts within the window. */
  predicate Allowed(m: map<Key, seq<Instant>>, key: Key, now: Instant, maxAttempts: nat, window: nat)
  {
    |Pruned(EntryOf(m, key), now, window)| < maxAttempts
  }

  /** The map after record: the key's entry pruned, then now appended. */
  function Recorded(m: map<Key, seq<Instant>>, key: Key, now: Instant, window: nat): map<Key, seq<Instant>>
  {
    m[key := Pruned(EntryOf(m, key), now, window) + [now]]
  }

  function Cleared(m: map<Key, seq<Instant>>, key: Key): map<Key, seq<Instant>>
  {
    m - {key}
  }

  /** remaining: maxAttempts less the attempts within the window, never below zero. */
  function Remaining(m: map<Key, seq<Instant>>, key: Key, now: Instant, maxAttempts: nat, window: nat): nat
  {
    if key !in m then maxAttempts
    else
      var valid := Count(m[key], InWindow(now, window));
      if valid >= maxAttempts then 0 else maxAttempts - valid
  }

  /** Recording the attempts ts one after the other. */
  function RecordAll(m: map<Key, seq<Instant>>, key: Key, ts: seq<Instant>, window: nat): map<Key, seq<Instant>>
  {
    if ts == [] then m
    else Recorded(RecordAll(m, key, ts[..|ts| - 1], window), key, ts[|ts| - 1], window)
  }

  /** Every attempt in ts is at or before now and younger than the window. */
  predicate WithinWindow(ts: seq<Instant>, now: Instant, window: nat)
  {
    forall i :: 0 <= i < |ts| ==> ts[i] <= now && now - ts[i] < window
  }

  predicate Nondecreasing(ts: seq<Instant>)
  {
    forall i, j :: 0 <= i < j < |ts| ==> ts[i] <= ts[j]
  }

  // ---------------------------------------------------------------------
  // Properties

  /** remaining is positive exactly when check allows. */
  lemma RemainingAgreesWithCheck(m: map<Key, seq<Instant>>, key: Key, now: Instant, maxAttempts: nat, window: nat)
    ensures Remaining(m, key, now, maxAttempts, window) > 0 <==> Allowed(m, key, now, maxAttempts, window)
    ensures Remaining(m, key, now, maxAttempts, window) <= maxAttempts
  {
    if key in m {
      CountFilter(m[key], InWindow(now, window));
    }
  }

  /** check's pruning never changes a later answer of check or remaining at the same instant. */
  lemma CheckIsStable(m: map<Key, seq<Instant>>, key: Key, now: Instant, maxAttempts: nat, window: nat)
    ensures Allowed(AfterCheck(m, key, now, window), key, now, maxAttempts, window)
        == Allowed(m, key, now, maxAttempts, window)
    ensures Remaining(AfterCheck(m, key, now, window), key, now, maxAttempts, window)
        == Remaining(m, key, now, maxAttempts, window)
  {
    var p := InWindow(now, window);
    var e := EntryOf(m, key);
    FilterAll(Filter(e, p), p);
    CountFilter(e, p);
    CountFilter(Filter(e, p), p);
  }

  /** Each recorded attempt still inside the window uses up one of the remaining attempts. */
  lemma RecordUsesOneAttempt(m: map<Key, seq<Instant>>, key: Key, now: Instant, maxAttempts: nat, window: nat)
    requires window > 0
    ensures var before := Remaining(m, key, now, maxAttempts, window);
      Remaining(Recorded(m, key, now, window), key, now, maxAttempts, window)
        == if before > 0 then before - 1 else 0
  {
    var p := InWindow(now, window);
    var e := EntryOf(m, key);
    FilterAll(Filter(e, p), p);
    CountFilter(e, p);
    CountFilter(Filter(e, p), p);
    CountAppend(Filter(e, p), [now], p);
    assert [now][1..] == [];
  }

  /** Attempts at different keys do not interfere. */
  lemma KeysAreIndependent(m: map<Key, seq<Instant>>, k1: Key, k2: Key, t: Instant, now: Instant, maxAttempts: nat, window: nat)
    requires k1 != k2
    ensures Allowed(Recorded(m, k1, t, window), k2, now, maxAttempts, window) == Allowed(m, k2, now, maxAttempts, window)
    ensures Allowed(AfterCheck(m, k1, t, window), k2, now, maxAttempts, window) == Allowed(m, k2, now, maxAttempts, window)
    ensures Allowed(Cleared(m, k1), k2, now, maxAttempts, window) == Allowed(m, k2, now, maxAttempts, window)
    ensures Remaining(Recorded(m, k1, t, window), k2, now, maxAttempts, window) == Remaining(m, k2, now, maxAttempts, window)
  {
  }

  /** After clear the key starts afresh. */
  lemma ClearResets(m: map<Key, seq<Instant>>, key: Key, now: Instant, maxAttempts: nat, window: nat)
    ensures Allowed(Cleared(m, key), key, now, maxAttempts, window) <==> maxAttempts > 0
    ensures Remaining(Cleared(m, key), key, now, maxAttempts, window) == maxAttempts
  {
  }

  /**
   * Attempts recorded in time order and all still inside the window at
   * now are all kept, in order.
   */
  lemma {:induction false} RecordAllKeeps(m: map<Key, seq<Instant>>, key: Key, ts: seq<Instant>, now: Instant, window: nat)
    requires key !in m && Nondecreasing(ts)
    requires WithinWindow(ts, now, window)
    ensures EntryOf(RecordAll(m, key, ts, window), key) == ts
  {
    if ts != [] {
      var init := ts[..|ts| - 1];
      var t := ts[|ts| - 1];
      PrefixKeepsConditions(ts, now, window);
      RecordAllKeeps(m, key, init, now, window);
      PrunedAtLast(ts, now, window);
      RecordAllLast(m, key, ts, window);
      assert init + [t] == ts;
    }
  }

  /** The entry after recording ts is the entry after all but the last, pruned at the last, plus the last. */
  lemma RecordAllLast(m: map<Key, seq<Instant>>, key: Key, ts: seq<Instant>, window: nat)
    requires ts != []
    ensures EntryOf(RecordAll(m, key, ts, window), key)
      == Pruned(EntryOf(RecordAll(m, key, ts[..|ts| - 1], window), key), ts[|ts| - 1], window) + [ts[|ts| - 1]]
  {
  }

  lemma PrefixKeepsConditions(ts: seq<Instant>, now: Instant, window: nat)
    requires ts != [] && Nondecreasing(ts)
    requires WithinWindow(ts, now, window)
    ensures Nondecreasing(ts[..|ts| - 1])
    ensures WithinWindow(ts[..|ts| - 1], now, window)
  {
  }

  /** Pruning at the last attempt keeps all earlier ones. */
  lemma PrunedAtLast(ts: seq<Instant>, now: Instant, window: nat)
    requires ts != [] && Nondecreasing(ts)
    requires WithinWindow(ts, now, window)
    ensures Pruned(ts[..|ts| - 1], ts[|ts| - 1], window) == ts[..|ts| - 1]
  {
    var init := ts[..|ts| - 1];
    var t := ts[|ts| - 1];
    forall i | 0 <= i < |init|
      ensures InWindow(t, window)(init[i])
    {
      assert init[i] == ts[i] && ts[i] <= t;
    }
    FilterAll(init, InWindow(t, window));
  }

  /** max_attempts attempts within the window block the key. */
  lemma BlockedAfterMaxAttempts(key: Key, ts: seq<Instant>, now: Instant, maxAttempts: nat, window: nat)
    requires Nondecreasing(ts) && |ts| >= maxAttempts
    requires WithinWindow(ts, now, window)
    ensures !Allowed(RecordAll(map[], key, ts, window), key, now, maxAttempts, window)
  {
    RecordAllKeeps(map[], key, ts, now, window);
    FilterAll(ts, InWindow(now, window));
  }

  /** Every kept attempt is one that was recorded. */
  lemma {:induction false} RecordAllFrom(m: map<Key, seq<Instant>>, key: Key, ts: seq<Instant>, window: nat)
    requires key !in m
    ensures forall t :: t in EntryOf(RecordAll(m, key, ts, window), key) ==> t in ts
  {
    if ts != [] {
      var init := ts[..|ts| - 1];
      RecordAllFrom(m, key, init, window);
      forall t | t in EntryOf(RecordAll(m, key, ts, window), key)
        ensures t in ts
      {
        if t != ts[|ts| - 1] {
          assert t in EntryOf(RecordAll(m, key, init, window), key);
          assert t in init;
        }
      }
    }
  }

  /** Once the window has passed since the last attempt, the key is allowed again. */
  lemma AllowedAfterWindow(key: Key, ts: seq<Instant>, now: Instant, maxAttempts: nat, window: nat)
    requires ts != [] && Nondecreasing(ts) && ts[|ts| - 1] + window <= now && maxAttempts > 0
    ensures Allowed(RecordAll(map[], key, ts, window), key, now, maxAttempts, window)
  {
    RecordAllFrom(map[], key, ts, window);
    var e := EntryOf(RecordAll(map[], key, ts, window), key);
    assert forall t :: t in ts ==> Since(now, t) >= window by {
      forall t | t in ts
        ensures Since(now, t) >= window
      {
        var i :| 0 <= i < |ts| && ts[i] == t;
        assert ts[i] <= ts[|ts| - 1];
      }
    }
    NothingInWindow(e, now, window);
  }

  lemma NothingInWindow(e: seq<Instant>, now: Instant, window: nat)
    requires forall i :: 0 <= i < |e| ==> Since(now, e[i]) >= window
    ensures Pruned(e, now, window) == []
  {
    FilterNone(e, InWindow(now, window));
  }

  // ---------------------------------------------------------------------
  // The limiter

  class RateLimiter {
    var attempts: map<Key, seq<Instant>>
    const maxAttempts: nat
    const window: nat

    /** new: no attempts yet. */
    constructor (maxAttempts: nat, windowSecs: nat)
      ensures attempts == map[] && this.maxAttempts == maxAttempts && window == windowSecs
    {
      attempts := map[];
      this.maxAttempts := maxAttempts;
      window := windowSecs;
    }

    /** check: prunes the key's attempts and answers whether another is allowed. */
    method Check(key: Key, now: Instant) returns (allowed: bool)
      modifies this
      ensures allowed == Allowed(old(attempts), key, now, maxAttempts, window)
      ensures attempts == AfterCheck(old(attempts), key, now, window)
    {
      var entry := Pruned(EntryOf(attempts, key), now, window);
      attempts := attempts[key := entry];
      allowed := |entry| < maxAttempts;
    }

    /** record: prunes the key's attempts and adds one at now. */
    method Record(key: Key, now: Instant)
      modifies this
      ensures attempts == Recorded(old(attempts), key, now, window)
    {
      var entry := Pruned(EntryOf(attempts, key), now, window);
      attempts := attempts[key := entry + [now]];
    }

    /** clear: forgets the key. */
    method Clear(key: Key)
      modifies this
      ensures attempts == Cleared(old(attempts), key)
    {
      attempts := attempts - {key};
    }

    /** remaining: how many attempts are left, without pruning. */
    method GetRemaining(key: Key, now: Instant) returns (n: nat)
      ensures n == Remaining(attempts, key, now, maxAttempts, window)
      ensures n > 0 <==> Allowed(attempts, key, now, maxAttempts, window)
    {
      RemainingAgreesWithCheck(attempts, key, now, maxAttempts, window);
      if key !in attempts {
        return maxAttempts;
      }
      var valid := Count(attempts[key], InWindow(now, window));
      n := if valid >= maxAttempts then 0 else maxAttempts - valid;
    }
  }
}
