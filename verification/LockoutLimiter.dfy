/** The login lockout limiter (internal/api/rate_limiters.go): failures are counted
    per key in ten-minute windows, and the fifth failure of a window locks the key
    for fifteen minutes. Instants are integers (nanoseconds after Go's zero time,
    which is 0). */
module LockoutLimiter {
  import opened Text

  const MINUTE := 60_000_000_000
  const MAX_AUTH_FAILURES := 5
  const MAX_AUTH_ATTEMPT_KEYS := 10000
  const AUTH_ATTEMPT_WINDOW := 10 * MINUTE
  const AUTH_ATTEMPT_LOCKOUT := 15 * MINUTE

  datatype AuthAttempt = AuthAttempt(failures: int, firstSeenAt: int, lockedUntil: int)
  type Attempts = map<string, AuthAttempt>

  /** What indexing a Go map yields for a missing key. */
  const NO_ATTEMPT := AuthAttempt(0, 0, 0)

  function View(m: Attempts, key: string): AuthAttempt {
    if key in m then m[key] else NO_ATTEMPT
  }

  /** The entries that pruneLocked deletes. */
  predicate Stale(a: AuthAttempt, now: int) {
    if a.lockedUntil != 0 then now > a.lockedUntil
    else a.firstSeenAt != 0 && now - a.firstSeenAt > AUTH_ATTEMPT_WINDOW
  }

  function Pruned(m: Attempts, now: int): Attempts {
    map k | k in m && !Stale(m[k], now) :: m[k]
  }

  /** How long a key's entry makes a caller wait; 0 when it does not. */
  function Wait(a: AuthAttempt, now: int): (w: nat) {
    if a.lockedUntil != 0 && now < a.lockedUntil then a.lockedUntil - now else 0
  }

  function RetryAfter(m: Attempts, key: string, now: int): nat {
    if key == "" then 0 else Wait(View(Pruned(m, now), key), now)
  }

  function LongestRetry(m: Attempts, keys: seq<string>, now: int): (w: nat)
    ensures w == 0 <==> forall i :: 0 <= i < |keys| ==> RetryAfter(m, keys[i], now) == 0
    ensures forall i :: 0 <= i < |keys| ==> RetryAfter(m, keys[i], now) <= w
  {
    if keys == [] then 0
    else
      var shorter, last := LongestRetry(m, keys[..|keys| - 1], now), RetryAfter(m, keys[|keys| - 1], now);
      if last > shorter then last else shorter
  }

  /** A key's entry after one more recorded failure. */
  function Failed(a: AuthAttempt, now: int): AuthAttempt {
    var base := if a.firstSeenAt == 0 || now - a.firstSeenAt > AUTH_ATTEMPT_WINDOW then AuthAttempt(0, now, 0) else a;
    var failures := base.failures + 1;
    AuthAttempt(failures, base.firstSeenAt, if failures >= MAX_AUTH_FAILURES then now + AUTH_ATTEMPT_LOCKOUT else base.lockedUntil)
  }

  function WithFailure(m: Attempts, key: string, now: int): Attempts {
    if key == "" then m else Pruned(m, now)[key := Failed(View(Pruned(m, now), key), now)]
  }

  function WithFailures(m: Attempts, keys: seq<string>, now: int): Attempts {
    if keys == [] then m else WithFailure(WithFailures(m, keys[..|keys| - 1], now), keys[|keys| - 1], now)
  }

  function KeySet(keys: seq<string>): set<string> { set k | k in keys && k != "" }

  /** The age by which eviction picks its victims. */
  function Age(a: AuthAttempt): int {
    if a.firstSeenAt == 0 then a.lockedUntil else a.firstSeenAt
  }

  /** `kept` is `m` cut down to the cap by dropping oldest entries (ties in any order). */
  ghost predicate Evicted(m: Attempts, kept: Attempts) {
    && kept.Keys <= m.Keys
    && (forall k :: k in kept ==> kept[k] == m[k])
    && |kept| == (if |m| <= MAX_AUTH_ATTEMPT_KEYS then |m| else MAX_AUTH_ATTEMPT_KEYS)
    && (forall gone, k :: gone in m && gone !in kept && k in kept ==> Age(m[gone]) <= Age(m[k]))
  }

  /** Recording a failure of each key in turn, with an eviction after each. */
  ghost predicate FailuresRecorded(m: Attempts, keys: seq<string>, now: int, after: Attempts)
    decreases |keys|
  {
    if keys == [] then after == m
    else
      var init, last := keys[..|keys| - 1], keys[|keys| - 1];
      exists before {:trigger FailureRecorded(before, last, now, after)} ::
        FailuresRecorded(m, init, now, before) && FailureRecorded(before, last, now, after)
  }

  ghost predicate FailureRecorded(m: Attempts, key: string, now: int, after: Attempts) {
    if key == "" then after == m else Evicted(WithFailure(m, key, now), after)
  }

  lemma EvictedBelowCap(m: Attempts, kept: Attempts)
    requires Evicted(m, kept) && |m| <= MAX_AUTH_ATTEMPT_KEYS
    ensures kept == m
  {
    assert |m.Keys| == |m| && |kept.Keys| == |kept|;
    if k :| k in m && k !in kept {
      SubsetSize(kept.Keys, m.Keys - {k});
    }
  }

  lemma {:induction false} SubsetSize<T>(a: set<T>, b: set<T>)
    requires a <= b
    ensures |a| <= |b|
  {
    if x :| x in a { SubsetSize(a - {x}, b - {x}); }
  }

  lemma RecordedNext(m: Attempts, keys: seq<string>, i: nat, now: int, before: Attempts, after: Attempts)
    requires i < |keys| && FailuresRecorded(m, keys[..i], now, before) && FailureRecorded(before, keys[i], now, after)
    ensures FailuresRecorded(m, keys[..i + 1], now, after)
  {
    assert keys[..i + 1][..i] == keys[..i];
  }

  class AuthAttemptLimiter {
    var attempts: Attempts

    ghost predicate Valid() reads this { "" !in attempts }

    constructor ()
      ensures Valid() && attempts == map[]
    {
      attempts := map[];
    }

    method Allow(key: string, now: int) returns (allowed: bool, retryAfter: nat)
      requires Valid()
      modifies this
      ensures Valid()
      ensures attempts == if key == "" then old(attempts) else Pruned(old(attempts), now)
      ensures retryAfter == RetryAfter(old(attempts), key, now)
      ensures allowed <==> retryAfter == 0
    {
      if key == "" { return true, 0; }
      PruneLocked(now);
      var attempt := View(attempts, key);
      if attempt.lockedUntil != 0 && now < attempt.lockedUntil {
        return false, attempt.lockedUntil - now;
      }
      return true, 0;
    }

    method AllowAll(keys: seq<string>, now: int) returns (allowed: bool, retryAfter: nat)
      requires Valid()
      modifies this
      ensures Valid()
      ensures attempts == if KeySet(keys) == {} then old(attempts) else Pruned(old(attempts), now)
      ensures retryAfter == LongestRetry(old(attempts), keys, now)
      ensures allowed <==> retryAfter == 0
    {
      var longestRetry := 0;
      for i := 0 to |keys|
        invariant Valid()
        invariant attempts == if KeySet(keys[..i]) == {} then old(attempts) else Pruned(old(attempts), now)
        invariant longestRetry == LongestRetry(old(attempts), keys[..i], now)
      {
        PrunedTwice(old(attempts), now);
        var ok, retry := Allow(keys[i], now);
        assert keys[..i + 1] == keys[..i] + [keys[i]];
        assert KeySet(keys[..i + 1]) == KeySet(keys[..i]) + if keys[i] == "" then {} else {keys[i]};
        if !ok && retry > longestRetry { longestRetry := retry; }
      }
      assert keys[..|keys|] == keys;
      return longestRetry == 0, longestRetry;
    }

    method RecordFailure(key: string, now: int)
      requires Valid()
      modifies this
      ensures Valid()
      ensures FailureRecorded(old(attempts), key, now, attempts)
    {
      if key == "" { return; }
      PruneLocked(now);
      var attempt := View(attempts, key);
      if attempt.firstSeenAt == 0 || now - attempt.firstSeenAt > AUTH_ATTEMPT_WINDOW {
        attempt := AuthAttempt(0, now, 0);
      }
      attempt := attempt.(failures := attempt.failures + 1);
      if attempt.failures >= MAX_AUTH_FAILURES {
        attempt := attempt.(lockedUntil := now + AUTH_ATTEMPT_LOCKOUT);
      }
      attempts := attempts[key := attempt];
      assert attempts == WithFailure(old(attempts), key, now);
      PrunedAfterFailure(old(attempts), key, now);
      EnforceLimitLocked(now);
    }

    /** Without an overflow of the cap the new state is a function of the old one. */
    method RecordFailures(keys: seq<string>, now: int)
      requires Valid()
      modifies this
      ensures Valid()
      ensures FailuresRecorded(old(attempts), keys, now, attempts)
      ensures |Pruned(old(attempts), now).Keys + KeySet(keys)| <= MAX_AUTH_ATTEMPT_KEYS
              ==> attempts == WithFailures(old(attempts), keys, now)
    {
      ghost var fits := |Pruned(attempts, now).Keys + KeySet(keys)| <= MAX_AUTH_ATTEMPT_KEYS;
      for i := 0 to |keys|
        invariant Valid()
        invariant FailuresRecorded(old(attempts), keys[..i], now, attempts)
        invariant fits ==> attempts == WithFailures(old(attempts), keys[..i], now)
      {
        ghost var before := attempts;
        RecordFailure(keys[i], now);
        RecordedNext(old(attempts), keys, i, now, before, attempts);
        if fits { FailureStep(old(attempts), keys, i, now, attempts); }
      }
      assert keys[..|keys|] == keys;
    }

    method RecordSuccess(key: string)
      requires Valid()
      modifies this
      ensures Valid() && attempts == old(attempts) - {key}
    {
      if key == "" { return; }
      attempts := attempts - {key};
    }

    method RecordSuccesses(keys: seq<string>)
      requires Valid()
      modifies this
      ensures Valid() && attempts == old(attempts) - KeySet(keys)
    {
      for i := 0 to |keys|
        invariant Valid() && attempts == old(attempts) - KeySet(keys[..i])
      {
        RecordSuccess(keys[i]);
        assert keys[..i + 1] == keys[..i] + [keys[i]];
      }
      assert keys[..|keys|] == keys;
    }

    method PruneLocked(now: int)
      requires Valid()
      modifies this
      ensures Valid() && attempts == Pruned(old(attempts), now)
    {
      var rest := attempts.Keys;
      while rest != {}
        invariant rest <= attempts.Keys <= old(attempts).Keys
        invariant forall k :: k in attempts ==> attempts[k] == old(attempts)[k]
        invariant forall k :: k in old(attempts) && k !in rest ==> (k in attempts <==> !Stale(old(attempts)[k], now))
        decreases rest
      {
        var key :| key in rest;
        rest := rest - {key};
        var attempt := attempts[key];
        if attempt.lockedUntil != 0 {
          if now > attempt.lockedUntil { attempts := attempts - {key}; }
        } else if attempt.firstSeenAt != 0 && now - attempt.firstSeenAt > AUTH_ATTEMPT_WINDOW {
          attempts := attempts - {key};
        }
      }
    }

    method EnforceLimitLocked(now: int)
      requires Valid()
      modifies this
      ensures Valid()
      ensures if |old(attempts)| <= MAX_AUTH_ATTEMPT_KEYS then attempts == old(attempts)
              else Evicted(Pruned(old(attempts), now), attempts)
    {
      if |attempts| <= MAX_AUTH_ATTEMPT_KEYS { return; }
      PruneLocked(now);
      ghost var pruned := attempts;
      while |attempts| > MAX_AUTH_ATTEMPT_KEYS
        invariant Valid()
        invariant attempts.Keys <= pruned.Keys
        invariant forall k :: k in attempts ==> attempts[k] == pruned[k]
        invariant |attempts| <= |pruned|
        invariant |attempts| < |pruned| ==> |attempts| >= MAX_AUTH_ATTEMPT_KEYS
        invariant forall gone, k :: gone in pruned && gone !in attempts && k in attempts
                    ==> Age(pruned[gone]) <= Age(pruned[k])
        decreases |attempts|
      {
        var oldestKey := OldestKey();
        if oldestKey == "" { return; }
        ghost var before := attempts;
        attempts := attempts - {oldestKey};
        assert attempts.Keys == before.Keys - {oldestKey};
        assert |attempts.Keys| == |before.Keys| - 1;
      }
      assert |attempts| == |pruned| ==> attempts.Keys == pruned.Keys by {
        if |attempts| == |pruned| { SameSize(attempts.Keys, pruned.Keys); }
      }
    }

    method OldestKey() returns (oldestKey: string)
      requires Valid()
      ensures oldestKey == "" <==> attempts == map[]
      ensures oldestKey != "" ==> oldestKey in attempts && forall k :: k in attempts ==> Age(attempts[oldestKey]) <= Age(attempts[k])
    {
      oldestKey := "";
      var oldest := 0;
      var rest := attempts.Keys;
      while rest != {}
        invariant rest <= attempts.Keys
        invariant oldestKey == "" ==> rest == attempts.Keys
        invariant oldestKey != "" ==> oldestKey in attempts && oldest == Age(attempts[oldestKey])
        invariant oldestKey != "" ==> forall k :: k in attempts && k !in rest ==> oldest <= Age(attempts[k])
        decreases rest
      {
        var key :| key in rest;
        rest := rest - {key};
        var candidate := attempts[key].firstSeenAt;
        if candidate == 0 { candidate := attempts[key].lockedUntil; }
        if oldestKey == "" || candidate < oldest {
          oldestKey := key;
          oldest := candidate;
        }
      }
    }
  }

  lemma {:induction false} SameSize<T>(a: set<T>, b: set<T>)
    requires a <= b && |a| == |b|
    ensures a == b
  {
    if x :| x in b && x !in a { SubsetSize(a, b - {x}); }
  }

  lemma PrunedTwice(m: Attempts, now: int)
    ensures Pruned(Pruned(m, now), now) == Pruned(m, now)
  {}

  /** An entry that has just recorded a failure is not stale, so pruning again changes nothing. */
  lemma PrunedAfterFailure(m: Attempts, key: string, now: int)
    requires key != ""
    ensures Pruned(WithFailure(m, key, now), now) == WithFailure(m, key, now)
  {
    PrunedTwice(m, now);
  }

  lemma {:induction false} FailureKeys(m: Attempts, keys: seq<string>, now: int)
    ensures Pruned(WithFailures(m, keys, now), now).Keys <= Pruned(m, now).Keys + KeySet(keys)
  {
    if keys != [] {
      FailureKeys(m, keys[..|keys| - 1], now);
      assert keys == keys[..|keys| - 1] + [keys[|keys| - 1]];
    }
  }

  /** One round of RecordFailures when all the keys fit under the cap. */
  lemma FailureStep(m: Attempts, keys: seq<string>, i: nat, now: int, after: Attempts)
    requires i < |keys|
    requires |Pruned(m, now).Keys + KeySet(keys)| <= MAX_AUTH_ATTEMPT_KEYS
    requires var before := WithFailures(m, keys[..i], now);
             if keys[i] == "" then after == before else Evicted(WithFailure(before, keys[i], now), after)
    ensures after == WithFailures(m, keys[..i + 1], now)
  {
    assert keys[..i + 1][..i] == keys[..i];
    var next := WithFailures(m, keys[..i + 1], now);
    assert next == WithFailure(WithFailures(m, keys[..i], now), keys[i], now);
    if keys[i] != "" {
      FailureKeys(m, keys[..i], now);
      assert KeySet(keys[..i]) <= KeySet(keys) && keys[i] in KeySet(keys);
      SubsetSize(next.Keys, Pruned(m, now).Keys + KeySet(keys));
      EvictedBelowCap(next, after);
    }
  }
}
