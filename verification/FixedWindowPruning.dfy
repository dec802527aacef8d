/** Pruning in the fixed-window limiter cannot be observed: every sequence of calls gets
    the same answers from the limiter as from one that never prunes. */
module FixedWindowPruning {
  import opened FixedWindow
  import opened FixedWindowRuns

  function Reply(q: Quota, m: Limits, c: Call): nat {
    LongestWait(q, m, Asked(c), c.now)
  }

  /** The same call on a limiter without the prune loops. */
  function NextUnpruned(q: Quota, m: Limits, c: Call): Limits {
    if c.Reset? then m - (set k | k in c.keys && k != "")
    else if c.Check? || !Admits(q, m, c) then m
    else ChargeAll(q, m, Asked(c), c.now)
  }

  function Replies(q: Quota, m: Limits, calls: seq<Call>): seq<nat>
    decreases |calls|
  {
    if calls == [] then [] else [Reply(q, Pruned(q, m, calls[0].now), calls[0])] + Replies(q, Next(q, m, calls[0]), calls[1..])
  }

  function RepliesUnpruned(q: Quota, m: Limits, calls: seq<Call>): seq<nat>
    decreases |calls|
  {
    if calls == [] then [] else [Reply(q, m, calls[0])] + RepliesUnpruned(q, NextUnpruned(q, m, calls[0]), calls[1..])
  }

  ghost predicate ClockedFrom(clock: int, calls: seq<Call>)
    decreases |calls|
  {
    calls != [] ==> clock <= calls[0].now && ClockedFrom(calls[0].now, calls[1..])
  }

  /** The entries are the same, or both are spent. */
  predicate SameView(q: Quota, a: FixedWindowLimit, b: FixedWindowLimit, clock: int) {
    a == b || (!Live(q, a, clock) && !Live(q, b, clock))
  }

  ghost predicate Agree(q: Quota, pruned: Limits, unpruned: Limits, clock: int) {
    forall k {:trigger View(unpruned, k)} :: SameView(q, View(pruned, k), View(unpruned, k), clock)
  }

  lemma {:induction false} SameWait(q: Quota, m: Limits, u: Limits, keys: seq<string>, now: int)
    requires Agree(q, m, u, now)
    ensures LongestWait(q, m, keys, now) == LongestWait(q, u, keys, now)
  {
    if keys != [] {
      SameWait(q, m, u, keys[..|keys| - 1], now);
      assert SameView(q, View(m, keys[|keys| - 1]), View(u, keys[|keys| - 1]), now);
    }
  }

  lemma {:induction false} SameCharge(q: Quota, m: Limits, u: Limits, keys: seq<string>, now: int)
    requires Agree(q, m, u, now)
    ensures Agree(q, ChargeAll(q, m, keys, now), ChargeAll(q, u, keys, now), now)
  {
    if keys == [] { return; }
    SameCharge(q, m, u, keys[..|keys| - 1], now);
    var last := keys[|keys| - 1];
    var a, b := ChargeAll(q, m, keys[..|keys| - 1], now), ChargeAll(q, u, keys[..|keys| - 1], now);
    assert SameView(q, View(a, last), View(b, last), now);
    forall k {:trigger View(ChargeAll(q, u, keys, now), k)}
      ensures SameView(q, View(ChargeAll(q, m, keys, now), k), View(ChargeAll(q, u, keys, now), k), now)
    {
      assert SameView(q, View(a, k), View(b, k), now);
    }
  }

  lemma AgreePruned(q: Quota, m: Limits, u: Limits, clock: int, now: int)
    requires Agree(q, m, u, clock) && clock <= now
    ensures Agree(q, m, u, now) && Agree(q, Pruned(q, m, now), u, now)
  {
    forall k {:trigger View(u, k)}
      ensures SameView(q, View(m, k), View(u, k), now) && SameView(q, View(Pruned(q, m, now), k), View(u, k), now)
    {
      assert SameView(q, View(m, k), View(u, k), clock);
    }
  }

  lemma AgreeReset(q: Quota, m: Limits, u: Limits, gone: set<string>, clock: int)
    requires Agree(q, m, u, clock)
    ensures Agree(q, m - gone, u - gone, clock)
  {
    forall k {:trigger View(u - gone, k)} ensures SameView(q, View(m - gone, k), View(u - gone, k), clock) {
      assert SameView(q, View(m, k), View(u, k), clock);
    }
  }

  lemma AgreeStep(q: Quota, m: Limits, u: Limits, clock: int, c: Call)
    requires Agree(q, m, u, clock) && clock <= c.now
    ensures Reply(q, Pruned(q, m, c.now), c) == Reply(q, u, c)
    ensures Agree(q, Next(q, m, c), NextUnpruned(q, u, c), c.now)
  {
    hide Agree, LongestWait, ChargeAll, Pruned, Asked;
    AgreePruned(q, m, u, clock, c.now);
    SameWait(q, Pruned(q, m, c.now), u, Asked(c), c.now);
    SameWait(q, m, u, Asked(c), c.now);
    SameCharge(q, Pruned(q, m, c.now), u, Asked(c), c.now);
    if c.Reset? { AgreeReset(q, m, u, (set k | k in c.keys && k != ""), c.now); }
    BlankAllow(q, u, c);
  }

  lemma BlankAllow(q: Quota, u: Limits, c: Call)
    ensures c.AllowOne? && c.key == "" ==> NextUnpruned(q, u, c) == u
  {}

  lemma {:induction false} AnswersAgree(q: Quota, m: Limits, u: Limits, clock: int, calls: seq<Call>)
    requires Agree(q, m, u, clock) && ClockedFrom(clock, calls)
    ensures Replies(q, m, calls) == RepliesUnpruned(q, u, calls)
    decreases |calls|
  {
    if calls != [] {
      AgreeStep(q, m, u, clock, calls[0]);
      AnswersAgree(q, Next(q, m, calls[0]), NextUnpruned(q, u, calls[0]), calls[0].now, calls[1..]);
    }
  }

  /** From new limiters, at any starting time. */
  lemma PruningUnobservable(q: Quota, clock: int, calls: seq<Call>)
    requires ClockedFrom(clock, calls)
    ensures Replies(q, map[], calls) == RepliesUnpruned(q, map[], calls)
  {
    AnswersAgree(q, map[], map[], clock, calls);
  }
}
