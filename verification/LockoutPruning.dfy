/** Pruning in the lockout limiter cannot be observed: below the cap on keys, every
    sequence of calls gets the same answers from the limiter as from one that never
    prunes. */
module LockoutPruning {
  import opened LockoutLimiter

  datatype Call = Allow(key: string, now: int) | Fail(key: string, now: int) | Succeed(key: string)

  function Apply(m: Attempts, c: Call): Attempts {
    match c
    case Allow(key, now) => if key == "" then m else Pruned(m, now)
    case Fail(key, now) => WithFailure(m, key, now)
    case Succeed(key) => m - {key}
  }

  function Reply(m: Attempts, c: Call): nat {
    if c.Allow? then RetryAfter(m, c.key, c.now) else 0
  }

  /** The same calls on a limiter without the prune loops. */
  function ApplyUnpruned(m: Attempts, c: Call): Attempts {
    match c
    case Allow(_, _) => m
    case Fail(key, now) => if key == "" then m else m[key := Failed(View(m, key), now)]
    case Succeed(key) => m - {key}
  }

  function ReplyUnpruned(m: Attempts, c: Call): nat {
    if c.Allow? && c.key != "" then Wait(View(m, c.key), c.now) else 0
  }

  function Replies(m: Attempts, calls: seq<Call>): seq<nat>
    decreases |calls|
  {
    if calls == [] then [] else [Reply(m, calls[0])] + Replies(Apply(m, calls[0]), calls[1..])
  }

  function RepliesUnpruned(m: Attempts, calls: seq<Call>): seq<nat>
    decreases |calls|
  {
    if calls == [] then [] else [ReplyUnpruned(m, calls[0])] + RepliesUnpruned(ApplyUnpruned(m, calls[0]), calls[1..])
  }

  function Later(clock: int, c: Call): int { if c.Succeed? then clock else c.now }

  ghost predicate ClockedFrom(clock: int, calls: seq<Call>)
    decreases |calls|
  {
    calls != [] ==> clock <= Later(clock, calls[0]) && ClockedFrom(Later(clock, calls[0]), calls[1..])
  }

  /** A lock always outlasts the window that caused it. */
  ghost predicate LocksOutlastWindows(m: Attempts, clock: int) {
    forall k :: k in m ==>
      0 < m[k].firstSeenAt <= clock && (m[k].lockedUntil == 0 || m[k].lockedUntil >= m[k].firstSeenAt + AUTH_ATTEMPT_LOCKOUT)
  }

  /** The two maps agree but for entries that have gone stale. */
  ghost predicate Agree(pruned: Attempts, unpruned: Attempts, clock: int) {
    && LocksOutlastWindows(unpruned, clock)
    && forall k {:trigger View(unpruned, k)} ::
         || View(pruned, k) == View(unpruned, k)
         || (View(pruned, k) == NO_ATTEMPT && Stale(View(unpruned, k), clock))
  }

  lemma AgreeStep(pruned: Attempts, unpruned: Attempts, clock: int, c: Call)
    requires Agree(pruned, unpruned, clock) && 0 < clock <= Later(clock, c)
    ensures Reply(pruned, c) == ReplyUnpruned(unpruned, c)
    ensures Agree(Apply(pruned, c), ApplyUnpruned(unpruned, c), Later(clock, c))
  {
    var now := Later(clock, c);
    var after, afterUnpruned := Apply(pruned, c), ApplyUnpruned(unpruned, c);
    forall k {:trigger View(afterUnpruned, k)}
      ensures || View(after, k) == View(afterUnpruned, k)
              || (View(after, k) == NO_ATTEMPT && Stale(View(afterUnpruned, k), now))
    {
      assert View(pruned, k) == View(unpruned, k) || (View(pruned, k) == NO_ATTEMPT && Stale(View(unpruned, k), clock));
    }
  }

  lemma {:induction false} PruningUnobservable(pruned: Attempts, unpruned: Attempts, clock: int, calls: seq<Call>)
    requires Agree(pruned, unpruned, clock) && clock > 0 && ClockedFrom(clock, calls)
    ensures Replies(pruned, calls) == RepliesUnpruned(unpruned, calls)
    decreases |calls|
  {
    if calls != [] {
      AgreeStep(pruned, unpruned, clock, calls[0]);
      PruningUnobservable(Apply(pruned, calls[0]), ApplyUnpruned(unpruned, calls[0]), Later(clock, calls[0]), calls[1..]);
    }
  }

  /** From new limiters, at any starting time. */
  lemma PruningUnobservableFromStart(clock: int, calls: seq<Call>)
    requires clock > 0 && ClockedFrom(clock, calls)
    ensures Replies(map[], calls) == RepliesUnpruned(map[], calls)
  {
    PruningUnobservable(map[], map[], clock, calls);
  }
}
