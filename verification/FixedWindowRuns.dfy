/** Whole runs of the fixed-window limiter: how often a key can be charged, what a
    refusal means, and why pruning cannot be observed. */
module FixedWindowRuns {
  import opened Timeline
  import opened FixedWindow

  datatype Call =
    | Take(keys: seq<string>, now: int)
    | Check(keys: seq<string>, now: int)
    | AllowOne(key: string, now: int)
    | Reset(keys: seq<string>, now: int)

  /** The keys that a call asks about. */
  function Asked(c: Call): seq<string> {
    match c
    case Take(keys, _) => Normalized(keys)
    case Check(keys, _) => Normalized(keys)
    case AllowOne(key, _) => if key == "" then [] else [key]
    case Reset(_, _) => []
  }

  predicate Admits(q: Quota, m: Limits, c: Call) {
    LongestWait(q, m, Asked(c), c.now) == 0
  }

  /** The limiter after one call, as the methods of FixedWindowLimiter leave it. */
  function Next(q: Quota, m: Limits, c: Call): Limits {
    if c.Reset? then m - (set k | k in c.keys && k != "")
    else if c.AllowOne? && c.key == "" then m
    else
      var pruned := Pruned(q, m, c.now);
      if c.Check? || !Admits(q, m, c) then pruned else ChargeAll(q, pruned, Asked(c), c.now)
  }

  predicate NoRepeats(keys: seq<string>) {
    forall i, j :: 0 <= i < j < |keys| ==> keys[i] != keys[j]
  }

  /** Runs are runs of the limiter: every call moves its map as Next says. */
  method Perform(limiter: FixedWindowLimiter, c: Call) returns (allowed: bool, retryAfter: int)
    requires Enabled(limiter.quota)
    modifies limiter
    ensures limiter.attempts == Next(limiter.quota, old(limiter.attempts), c)
    ensures allowed <==> Admits(limiter.quota, old(limiter.attempts), c)
    ensures retryAfter == LongestWait(limiter.quota, old(limiter.attempts), Asked(c), c.now)
  {
    match c
    case Take(keys, now) => allowed, retryAfter := limiter.TakeAll(keys, now);
    case Check(keys, now) => allowed, retryAfter := limiter.CheckAll(keys, now);
    case AllowOne(key, now) => allowed, retryAfter := limiter.Allow(key, now);
    case Reset(keys, _) =>
      limiter.ResetAll(keys);
      allowed, retryAfter := true, 0;
  }

  // Refusals

  /** A refused call charges nobody: every key answers later calls as if it had not been made. */
  lemma RefusalIsFree(q: Quota, m: Limits, c: Call, key: string, later: int)
    requires !Admits(q, m, c) && later >= c.now
    ensures Wait(q, View(Next(q, m, c), key), later) == Wait(q, View(m, key), later)
    ensures Charged(q, View(Next(q, m, c), key), later) == Charged(q, View(m, key), later)
  {}

  /** CheckAll answers as TakeAll would, without charging. */
  lemma CheckPredictsTake(q: Quota, m: Limits, keys: seq<string>, now: int, key: string, later: int)
    requires later >= now
    ensures Admits(q, m, Check(keys, now)) == Admits(q, m, Take(keys, now))
    ensures Wait(q, View(Next(q, m, Check(keys, now)), key), later) == Wait(q, View(m, key), later)
  {}

  /** Without calls in between, the reported delay counts down to 0 with the clock. */
  lemma {:induction false} DelayCountsDown(q: Quota, m: Limits, keys: seq<string>, now: int, later: int)
    requires later >= now
    ensures LongestWait(q, m, keys, later)
            == var left := LongestWait(q, m, keys, now) - (later - now); if left > 0 then left else 0
  {
    if keys != [] { DelayCountsDown(q, m, keys[..|keys| - 1], now, later); }
  }

  /** The delay that a refusal reports is the earliest wait after which the same call is admitted. */
  lemma DelayIsEarliest(q: Quota, m: Limits, keys: seq<string>, now: int, later: int)
    requires Enabled(q) && later >= now && !Admits(q, m, Take(keys, now))
    ensures Admits(q, Next(q, m, Take(keys, now)), Take(keys, later))
            <==> later >= now + LongestWait(q, m, Normalized(keys), now)
  {
    LongestWaitPruned(q, m, Normalized(keys), now);
    DelayCountsDown(q, Pruned(q, m, now), Normalized(keys), now, later);
  }

  // How often a key can be charged

  function StateAt(q: Quota, run: seq<Call>, n: nat): Limits
    requires n <= |run|
  {
    if n == 0 then map[] else Next(q, StateAt(q, run, n - 1), run[n - 1])
  }

  /** When admitted calls charged the key since its last reset, within the first n calls. */
  function Charges(q: Quota, run: seq<Call>, n: nat, key: string): seq<int>
    requires n <= |run|
  {
    if n == 0 then [] else Recorded(q, StateAt(q, run, n - 1), Charges(q, run, n - 1, key), run[n - 1], key)
  }

  function Recorded(q: Quota, m: Limits, ts: seq<int>, c: Call, key: string): seq<int> {
    match c
    case Reset(keys, _) => if key in keys then [] else ts
    case Check(_, _) => ts
    case _ => if key in Asked(c) && Admits(q, m, c) then ts + [c.now] else ts
  }

  /** The clock starts after the zero time and never runs backwards, and no call names a key twice. */
  ghost predicate ValidRun(run: seq<Call>) {
    && (forall i :: 0 <= i < |run| ==> run[i].now > 0 && NoRepeats(Asked(run[i])))
    && (forall i, j :: 0 <= i <= j < |run| ==> run[i].now <= run[j].now)
  }

  function Clock(run: seq<Call>, n: nat): int
    requires n <= |run|
  {
    if n == 0 then 0 else run[n - 1].now
  }

  /** How many charges the window of the last charge holds. */
  function InWindow(q: Quota, ts: seq<int>): (n: nat)
    requires ts != []
  {
    |ts| - WindowOpener(ts, q.window - 1, |ts| - 1)
  }

  /** The entry that a history of charges calls for. */
  function Expected(q: Quota, ts: seq<int>): FixedWindowLimit {
    if ts == [] then NO_LIMIT else FixedWindowLimit(InWindow(q, ts), ts[|ts| - InWindow(q, ts)])
  }

  /** A key's entry at a given clock reading goes with its history of charges. */
  ghost predicate Tracked(q: Quota, a: FixedWindowLimit, ts: seq<int>, clock: int) {
    && Ordered(ts)
    && (forall i :: 0 <= i < |ts| ==> 0 < ts[i] <= clock)
    && Capped(ts, q.window - 1, q.limit)
    && (a == Expected(q, ts) || (!Live(q, a, clock) && !Live(q, Expected(q, ts), clock)))
  }

  /** The wait that a history of charges calls for. */
  function WaitFromHistory(q: Quota, ts: seq<int>, now: int): nat {
    Wait(q, Expected(q, ts), now)
  }

  lemma ExtendHistory(q: Quota, a: FixedWindowLimit, ts: seq<int>, clock: int, now: int)
    requires Enabled(q) && Tracked(q, a, ts, clock) && clock <= now && now > 0
    requires Wait(q, a, now) == 0
    ensures Tracked(q, Charged(q, a, now), ts + [now], now)
  {
    var longer, width := ts + [now], q.window - 1;
    if ts != [] { WindowOpenerPrefix(ts, [now], width, |ts| - 1); }
    assert InWindow(q, longer) <= q.limit && Charged(q, a, now) == Expected(q, longer);
    CappedNext(ts, now, width, q.limit);
  }

  lemma CappedNext(ts: seq<int>, now: int, width: int, cap: int)
    requires Capped(ts, width, cap) && |ts| - WindowOpener(ts + [now], width, |ts|) < cap
    ensures Capped(ts + [now], width, cap)
  {
    hide WindowOpener;
    var longer := ts + [now];
    forall i {:trigger WindowOpener(longer, width, i)} | 0 <= i < |longer|
      ensures i - WindowOpener(longer, width, i) < cap
    {
      if i < |ts| { WindowOpenerPrefix(ts, [now], width, i); }
    }
  }

  lemma {:induction false} ChargeOnce(q: Quota, m: Limits, keys: seq<string>, now: int, key: string)
    requires NoRepeats(keys)
    ensures View(ChargeAll(q, m, keys, now), key) == if key in keys then Charged(q, View(m, key), now) else View(m, key)
  {
    if keys != [] {
      ChargeOnce(q, m, keys[..|keys| - 1], now, key);
      assert keys == keys[..|keys| - 1] + [keys[|keys| - 1]];
    }
  }

  lemma TrackedLater(q: Quota, a: FixedWindowLimit, b: FixedWindowLimit, ts: seq<int>, clock: int, now: int)
    requires Tracked(q, a, ts, clock) && clock <= now
    requires a == b || (!Live(q, a, now) && !Live(q, b, now))
    ensures Tracked(q, b, ts, now)
  {}

  predicate Charging(q: Quota, m: Limits, c: Call, key: string) {
    (c.Take? || c.AllowOne?) && key in Asked(c) && Admits(q, m, c)
  }

  /** What a call does to one key. */
  lemma NextView(q: Quota, m: Limits, c: Call, key: string)
    requires key != "" && NoRepeats(Asked(c))
    ensures var a, b := View(m, key), View(Next(q, m, c), key);
            if Charging(q, m, c, key) then b == Charged(q, a, c.now) && Wait(q, a, c.now) == 0
            else if c.Reset? && key in c.keys then b == NO_LIMIT
            else a == b || (!Live(q, a, c.now) && !Live(q, b, c.now))
  {
    if Charging(q, m, c, key) { ChargeOnce(q, Pruned(q, m, c.now), Asked(c), c.now, key); }
    else if Admits(q, m, c) && !c.Reset? { ChargeOnce(q, Pruned(q, m, c.now), Asked(c), c.now, key); }
  }

  lemma RecordedCases(q: Quota, m: Limits, ts: seq<int>, c: Call, key: string)
    ensures Recorded(q, m, ts, c, key)
            == if Charging(q, m, c, key) then ts + [c.now] else if c.Reset? && key in c.keys then [] else ts
  {}

  lemma NothingTracked(q: Quota, clock: int)
    ensures Tracked(q, NO_LIMIT, [], clock)
  {}

  /** One call keeps the entry and the history together. */
  lemma EntryStep(q: Quota, m: Limits, ts: seq<int>, clock: int, c: Call, key: string)
    requires Enabled(q) && key != "" && clock <= c.now && c.now > 0 && NoRepeats(Asked(c))
    requires Tracked(q, View(m, key), ts, clock)
    ensures Tracked(q, View(Next(q, m, c), key), Recorded(q, m, ts, c, key), c.now)
  {
    hide *;
    NextView(q, m, c, key);
    RecordedCases(q, m, ts, c, key);
    if Charging(q, m, c, key) {
      ExtendHistory(q, View(m, key), ts, clock, c.now);
    } else if c.Reset? && key in c.keys {
      NothingTracked(q, c.now);
    } else {
      TrackedLater(q, View(m, key), View(Next(q, m, c), key), ts, clock, c.now);
    }
  }

  lemma RunStart(q: Quota, run: seq<Call>, key: string)
    ensures Tracked(q, View(StateAt(q, run, 0), key), Charges(q, run, 0, key), Clock(run, 0))
  {}

  lemma RunStep(q: Quota, run: seq<Call>, n: nat, key: string)
    requires n < |run| && ValidRun(run)
    ensures StateAt(q, run, n + 1) == Next(q, StateAt(q, run, n), run[n])
    ensures Charges(q, run, n + 1, key) == Recorded(q, StateAt(q, run, n), Charges(q, run, n, key), run[n], key)
    ensures 0 < run[n].now == Clock(run, n + 1) && Clock(run, n) <= run[n].now
    ensures NoRepeats(Asked(run[n]))
  {}

  lemma {:induction false} EntryMatchesHistory(q: Quota, run: seq<Call>, n: nat, key: string)
    requires Enabled(q) && n <= |run| && ValidRun(run) && key != ""
    ensures Tracked(q, View(StateAt(q, run, n), key), Charges(q, run, n, key), Clock(run, n))
  {
    hide *;
    if n == 0 {
      RunStart(q, run, key);
      return;
    }
    EntryMatchesHistory(q, run, n - 1, key);
    RunStep(q, run, n - 1, key);
    EntryStep(q, StateAt(q, run, n - 1), Charges(q, run, n - 1, key), Clock(run, n - 1), run[n - 1], key);
  }

  /** What a key contributes to a verdict, read off the history of its charges alone. */
  lemma VerdictFromHistory(q: Quota, run: seq<Call>, n: nat, key: string)
    requires Enabled(q) && n < |run| && ValidRun(run) && key != ""
    ensures Wait(q, View(StateAt(q, run, n), key), run[n].now) == WaitFromHistory(q, Charges(q, run, n, key), run[n].now)
  {
    EntryMatchesHistory(q, run, n, key);
    RunStep(q, run, n, key);
  }

  lemma TrackedBound(q: Quota, a: FixedWindowLimit, ts: seq<int>, clock: int, from: int)
    requires Enabled(q) && Tracked(q, a, ts, clock)
    ensures CountWithin(ts, from, from + q.window - 1) <= 2 * q.limit - 1
  {
    forall i | 0 <= i < |ts| - (2 * q.limit - 1) ensures ts[i + (2 * q.limit - 1)] - ts[i] > q.window - 1 {
      TwoWindowsSpan(ts, q.window - 1, q.limit, i);
    }
    CountBound(ts, q.window - 1, 2 * q.limit - 1, from);
  }

  /** No half-open interval as long as the window holds more than 2 * limit - 1 admitted
      calls charging the key since its last reset. */
  lemma ChargeBound(q: Quota, run: seq<Call>, key: string, from: int)
    requires Enabled(q) && ValidRun(run) && key != ""
    ensures CountWithin(Charges(q, run, |run|, key), from, from + q.window - 1) <= 2 * q.limit - 1
  {
    hide *;
    EntryMatchesHistory(q, run, |run|, key);
    TrackedBound(q, View(StateAt(q, run, |run|), key), Charges(q, run, |run|, key), Clock(run, |run|), from);
  }
}
