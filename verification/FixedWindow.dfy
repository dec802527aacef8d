/** The multi-key fixed-window limiter (internal/api/rate_limiters.go): each key may be
    charged `limit` times in the window that its first charge opens. Instants and
    durations are integers; 0 is Go's zero time. */
module FixedWindow {
  import opened Text

  datatype FixedWindowLimit = FixedWindowLimit(count: int, windowStart: int)
  type Limits = map<string, FixedWindowLimit>
  datatype Quota = Quota(limit: int, window: int)

  const NO_LIMIT := FixedWindowLimit(0, 0)

  predicate Enabled(q: Quota) { q.limit > 0 && q.window > 0 }

  function View(m: Limits, key: string): FixedWindowLimit {
    if key in m then m[key] else NO_LIMIT
  }

  predicate Live(q: Quota, a: FixedWindowLimit, now: int) {
    a.windowStart != 0 && now - a.windowStart < q.window
  }

  function Pruned(q: Quota, m: Limits, now: int): Limits {
    map k | k in m && now - m[k].windowStart < q.window :: m[k]
  }

  /** How long an entry makes a caller wait; 0 when it does not. */
  function Wait(q: Quota, a: FixedWindowLimit, now: int): (w: nat) {
    if Live(q, a, now) && a.count >= q.limit then q.window - (now - a.windowStart) else 0
  }

  function LongestWait(q: Quota, m: Limits, keys: seq<string>, now: int): (w: nat)
    ensures forall k :: k in keys ==> Wait(q, View(m, k), now) <= w
    ensures w > 0 ==> exists k :: k in keys && Wait(q, View(m, k), now) == w
  {
    if keys == [] then 0
    else
      var init, last := keys[..|keys| - 1], keys[|keys| - 1];
      assert keys == init + [last];
      var longest, wait := LongestWait(q, m, init, now), Wait(q, View(m, last), now);
      if wait > longest then wait else longest
  }

  function Charged(q: Quota, a: FixedWindowLimit, now: int): FixedWindowLimit {
    if Live(q, a, now) then FixedWindowLimit(a.count + 1, a.windowStart) else FixedWindowLimit(1, now)
  }

  function ChargeAll(q: Quota, m: Limits, keys: seq<string>, now: int): Limits {
    if keys == [] then m
    else
      var before, last := ChargeAll(q, m, keys[..|keys| - 1], now), keys[|keys| - 1];
      before[last := Charged(q, View(before, last), now)]
  }

  /** The keys that TakeAll and CheckAll act on: trimmed, blank ones left out. */
  function Normalized(keys: seq<string>): seq<string> {
    if keys == [] then []
    else
      var key := TrimSpace(keys[|keys| - 1]);
      Normalized(keys[..|keys| - 1]) + if key == "" then [] else [key]
  }

  lemma {:induction false} LongestWaitPruned(q: Quota, m: Limits, keys: seq<string>, now: int)
    requires Enabled(q)
    ensures LongestWait(q, Pruned(q, m, now), keys, now) == LongestWait(q, m, keys, now)
  {
    if keys != [] { LongestWaitPruned(q, m, keys[..|keys| - 1], now); }
  }

  class FixedWindowLimiter {
    const quota: Quota
    var attempts: Limits

    constructor (limit: int, window: int)
      ensures quota == Quota(limit, window) && attempts == map[]
    {
      quota := Quota(limit, window);
      attempts := map[];
    }

    method Allow(key: string, now: int) returns (allowed: bool, retryAfter: int)
      modifies this
      ensures key == "" || !Enabled(quota) ==> allowed && retryAfter == 0 && attempts == old(attempts)
      ensures key != "" && Enabled(quota) ==>
                && retryAfter == LongestWait(quota, old(attempts), [key], now)
                && (allowed <==> retryAfter == 0)
                && attempts == var pruned := Pruned(quota, old(attempts), now);
                               if allowed then ChargeAll(quota, pruned, [key], now) else pruned
    {
      if key == "" || quota.limit <= 0 || quota.window <= 0 { return true, 0; }
      Prune(now);
      LongestWaitPruned(quota, old(attempts), [key], now);
      var attempt := View(attempts, key);
      if attempt.windowStart == 0 || now - attempt.windowStart >= quota.window {
        attempts := attempts[key := FixedWindowLimit(1, now)];
        return true, 0;
      }
      if attempt.count >= quota.limit {
        return false, quota.window - (now - attempt.windowStart);
      }
      attempts := attempts[key := attempt.(count := attempt.count + 1)];
      return true, 0;
    }

    method TakeAll(keys: seq<string>, now: int) returns (allowed: bool, retryAfter: int)
      modifies this
      ensures !Enabled(quota) ==> allowed && retryAfter == 0 && attempts == old(attempts)
      ensures Enabled(quota) ==>
                && retryAfter == LongestWait(quota, old(attempts), Normalized(keys), now)
                && (allowed <==> retryAfter == 0)
                && attempts == var pruned := Pruned(quota, old(attempts), now);
                               if allowed then ChargeAll(quota, pruned, Normalized(keys), now) else pruned
    {
      if quota.limit <= 0 || quota.window <= 0 { return true, 0; }
      Prune(now);
      LongestWaitPruned(quota, old(attempts), Normalized(keys), now);
      retryAfter := Longest(keys, now);
      if retryAfter > 0 { return false, retryAfter; }
      ChargeKeys(keys, now);
      return true, 0;
    }

    method CheckAll(keys: seq<string>, now: int) returns (allowed: bool, retryAfter: int)
      modifies this
      ensures !Enabled(quota) ==> allowed && retryAfter == 0 && attempts == old(attempts)
      ensures Enabled(quota) ==>
                && retryAfter == LongestWait(quota, old(attempts), Normalized(keys), now)
                && (allowed <==> retryAfter == 0)
                && attempts == Pruned(quota, old(attempts), now)
    {
      if quota.limit <= 0 || quota.window <= 0 { return true, 0; }
      Prune(now);
      LongestWaitPruned(quota, old(attempts), Normalized(keys), now);
      retryAfter := Longest(keys, now);
      allowed := retryAfter == 0;
    }

    method Reset(key: string)
      modifies this
      ensures attempts == if key == "" then old(attempts) else old(attempts) - {key}
    {
      if key == "" { return; }
      attempts := attempts - {key};
    }

    method ResetAll(keys: seq<string>)
      modifies this
      ensures attempts == old(attempts) - (set k | k in keys && k != "")
    {
      for i := 0 to |keys|
        invariant attempts == old(attempts) - (set k | k in keys[..i] && k != "")
      {
        Reset(keys[i]);
        assert keys[..i + 1] == keys[..i] + [keys[i]];
      }
      assert keys[..|keys|] == keys;
    }

    // The loops of the methods above.

    method Prune(now: int)
      modifies this
      ensures attempts == Pruned(quota, old(attempts), now)
    {
      var rest := attempts.Keys;
      while rest != {}
        invariant rest <= attempts.Keys <= old(attempts).Keys
        invariant forall k :: k in attempts ==> attempts[k] == old(attempts)[k]
        invariant forall k :: k in old(attempts) && k !in rest ==>
                    (k in attempts <==> now - old(attempts)[k].windowStart < quota.window)
        decreases rest
      {
        var existingKey :| existingKey in rest;
        rest := rest - {existingKey};
        if now - attempts[existingKey].windowStart >= quota.window { attempts := attempts - {existingKey}; }
      }
    }

    method ChargeKeys(keys: seq<string>, now: int)
      modifies this
      ensures attempts == ChargeAll(quota, old(attempts), Normalized(keys), now)
    {
      for i := 0 to |keys|
        invariant attempts == ChargeAll(quota, old(attempts), Normalized(keys[..i]), now)
      {
        var key := TrimSpace(keys[i]);
        NormalizedStep(keys, i);
        if key == "" { continue; }
        var attempt := View(attempts, key);
        if attempt.windowStart == 0 || now - attempt.windowStart >= quota.window {
          attempts := attempts[key := FixedWindowLimit(1, now)];
          continue;
        }
        attempts := attempts[key := attempt.(count := attempt.count + 1)];
      }
      assert keys[..|keys|] == keys;
    }

    method Longest(keys: seq<string>, now: int) returns (retryAfter: int)
      requires Enabled(quota)
      ensures retryAfter == LongestWait(quota, attempts, Normalized(keys), now)
    {
      hide LongestWait, Normalized, TrimSpace;
      NoWaitYet(quota, attempts, keys, now);
      retryAfter := 0;
      for i := 0 to |keys|
        invariant retryAfter == LongestWait(quota, attempts, Normalized(keys[..i]), now)
      {
        var key := TrimSpace(keys[i]);
        NextWait(quota, attempts, keys, i, now);
        if key == "" { continue; }
        var attempt := View(attempts, key);
        if attempt.windowStart == 0 || now - attempt.windowStart >= quota.window { continue; }
        if attempt.count >= quota.limit {
          var wait := quota.window - (now - attempt.windowStart);
          if wait > retryAfter { retryAfter := wait; }
        }
      }
      assert keys[..|keys|] == keys;
    }
  }

  lemma NoWaitYet(q: Quota, m: Limits, keys: seq<string>, now: int)
    ensures LongestWait(q, m, Normalized(keys[..0]), now) == 0
  {}

  lemma NextWait(q: Quota, m: Limits, keys: seq<string>, i: nat, now: int)
    requires i < |keys|
    ensures var key, longest := TrimSpace(keys[i]), LongestWait(q, m, Normalized(keys[..i]), now);
            LongestWait(q, m, Normalized(keys[..i + 1]), now)
            == if key == "" then longest
               else var wait := Wait(q, View(m, key), now); if wait > longest then wait else longest
  {
    NormalizedStep(keys, i);
  }

  lemma NormalizedStep(keys: seq<string>, i: nat)
    requires i < |keys|
    ensures var key, done := TrimSpace(keys[i]), Normalized(keys[..i]);
            if key == "" then Normalized(keys[..i + 1]) == done
            else Normalized(keys[..i + 1]) == done + [key] && Normalized(keys[..i + 1])[..|done|] == done
  {
    assert keys[..i + 1][..i] == keys[..i];
  }
}
