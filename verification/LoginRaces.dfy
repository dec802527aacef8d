/** Logins that overlap (internal/api/auth_handlers.go, internal/api/rate_limiters.go). A login reads
    the clock, asks the limiter, checks the credentials and then records the outcome. Each of these
    is a step of its own, and the steps of different logins interleave freely. */
module LoginRaces {
  import opened Timeline
  import opened LockoutLimiter
  import opened LoginRuns

  // One key, as the operations on the limiter change it

  /** What a locked operation on any key does to the entry of one: a check prunes it, a recorded
      failure prunes it and charges its own key, a success removes its own key. */
  lemma OperationsOnOneKey(m: Attempts, other: string, now: int, key: string)
    requires key != "" && other != ""
    ensures View(Pruned(m, now), key) == Cleaned(View(m, key), now)
    ensures RetryAfter(m, key, now) == Wait(Cleaned(View(m, key), now), now)
    ensures View(WithFailure(m, other, now), key)
            == var a := Cleaned(View(m, key), now); if other == key then Failed(a, now) else a
    ensures View(m - {other}, key) == if other == key then NO_ATTEMPT else View(m, key)
  {
    hide Failed, Stale, Wait;
    MissingIsNotStale(now);
  }

  lemma MissingIsNotStale(now: int)
    ensures !Stale(NO_ATTEMPT, now)
  {}

  datatype Step =
    | Read(id: nat, now: int)          // a login with the key reads the clock
    | Check(id: nat, others: bool)     // Allow; `others`: its other key lets it pass, too
    | Fail(id: nat)                    // RecordFailure
    | Succeed(id: nat)                 // RecordSuccess
    | Elsewhere(now: int)              // an operation on another key, which only prunes

  /** `waiting` and `admitted` hold the clock readings of the logins before and after their check,
      `failures` those of the failures recorded since the last success. */
  datatype State = State(entry: AuthAttempt, waiting: map<nat, int>, admitted: map<nat, int>, clock: int, failures: seq<int>)

  const INITIAL := State(NO_ATTEMPT, map[], map[], 0, [])

  predicate Enabled(s: State, step: Step) {
    match step
    case Read(id, now) => id !in s.waiting && id !in s.admitted && 0 < now && s.clock <= now
    case Check(id, _) => id in s.waiting
    case Fail(id) => id in s.admitted
    case Succeed(id) => id in s.admitted
    case Elsewhere(now) => 0 < now
  }

  /** A step that is not enabled does nothing. */
  function Next(s: State, step: Step): State {
    if !Enabled(s, step) then s
    else match step
      case Read(id, now) => s.(waiting := s.waiting[id := now], clock := now)
      case Check(id, others) =>
        var now := s.waiting[id];
        var entry := Cleaned(s.entry, now);
        var passes := others && Wait(entry, now) == 0;
        s.(entry := entry, waiting := s.waiting - {id}, admitted := if passes then s.admitted[id := now] else s.admitted)
      case Fail(id) =>
        var now := s.admitted[id];
        s.(entry := Failed(Cleaned(s.entry, now), now), admitted := s.admitted - {id}, failures := s.failures + [now])
      case Succeed(id) => s.(entry := NO_ATTEMPT, admitted := s.admitted - {id}, failures := [])
      case Elsewhere(now) => s.(entry := Cleaned(s.entry, now), clock := if now > s.clock then now else s.clock)
  }

  function After(steps: seq<Step>): State {
    if steps == [] then INITIAL else Next(After(steps[..|steps| - 1]), steps[|steps| - 1])
  }

  function InFlight(s: State): nat { |s.waiting| + |s.admitted| }

  ghost predicate AtMost(steps: seq<Step>, k: nat) {
    forall n :: 0 <= n <= |steps| ==> InFlight(After(steps[..n])) <= k
  }

  /** How many logins are in flight when the clock reaches an instant. */
  function InFlightAt(steps: seq<Step>, instant: int): nat {
    if After(steps).clock < instant then InFlight(After(steps))
    else if steps == [] then 0
    else InFlightAt(steps[..|steps| - 1], instant)
  }

  // Counting logins by their clock readings

  function Within(m: map<nat, int>, lo: int, hi: int): set<nat> { set id | id in m && lo <= m[id] <= hi }

  function Before(m: map<nat, int>, lo: int): set<nat> { set id | id in m && m[id] < lo }

  lemma {:induction false} Smaller<T>(a: set<T>, b: set<T>)
    requires a <= b
    ensures |a| <= |b|
  {
    if x :| x in a { Smaller(a - {x}, b - {x}); }
  }

  lemma CountsFit(m: map<nat, int>, lo: int, hi: int)
    ensures |Within(m, lo, hi)| <= |m| && |Before(m, lo)| <= |m|
  {
    assert |m.Keys| == |m|;
    Smaller(Within(m, lo, hi), m.Keys);
    Smaller(Before(m, lo), m.Keys);
  }

  lemma AddedWithin(m: map<nat, int>, id: nat, now: int, lo: int, hi: int)
    requires id !in m
    ensures |Within(m[id := now], lo, hi)| == |Within(m, lo, hi)| + if lo <= now <= hi then 1 else 0
  {
    var before, after := Within(m, lo, hi), Within(m[id := now], lo, hi);
    assert id !in before;
    if lo <= now <= hi {
      assert after == before + {id};
    } else {
      assert after == before;
    }
  }

  lemma AddedBefore(m: map<nat, int>, id: nat, now: int, lo: int)
    requires id !in m
    ensures |Before(m[id := now], lo)| == |Before(m, lo)| + if now < lo then 1 else 0
  {
    var before, after := Before(m, lo), Before(m[id := now], lo);
    assert id !in before;
    if now < lo {
      assert after == before + {id};
    } else {
      assert after == before;
    }
  }

  lemma Added(m: map<nat, int>, id: nat, now: int, lo: int, hi: int)
    requires id !in m
    ensures |Within(m[id := now], lo, hi)| == |Within(m, lo, hi)| + if lo <= now <= hi then 1 else 0
    ensures |Before(m[id := now], lo)| == |Before(m, lo)| + if now < lo then 1 else 0
  {
    hide *;
    AddedWithin(m, id, now, lo, hi);
    AddedBefore(m, id, now, lo);
  }

  lemma Removed(m: map<nat, int>, id: nat, lo: int, hi: int)
    requires id in m
    ensures |Within(m, lo, hi)| == |Within(m - {id}, lo, hi)| + if lo <= m[id] <= hi then 1 else 0
    ensures |Before(m, lo)| == |Before(m - {id}, lo)| + if m[id] < lo then 1 else 0
  {
    assert (m - {id})[id := m[id]] == m;
    Added(m - {id}, id, m[id], lo, hi);
  }

  // The bound

  /** A key's entry is missing, or it is locked exactly if it has five failures. */
  predicate Sane(a: AuthAttempt) {
    a == NO_ATTEMPT
    || (a.firstSeenAt > 0 && a.failures >= 1 && if a.failures >= MAX_AUTH_FAILURES then a.lockedUntil > 0 else a.lockedUntil == 0)
  }

  ghost predicate Readings(m: map<nat, int>, clock: int) { forall id :: id in m ==> 0 < m[id] <= clock }

  ghost predicate Good(s: State) {
    && Sane(s.entry) && s.waiting.Keys !! s.admitted.Keys
    && Readings(s.waiting, s.clock) && Readings(s.admitted, s.clock)
    && forall i :: 0 <= i < |s.failures| ==> s.failures[i] <= s.clock
  }

  lemma GoodNext(s: State, step: Step)
    requires Good(s)
    ensures Good(Next(s, step)) && s.clock <= Next(s, step).clock
  {}

  lemma {:induction false} AlwaysGood(steps: seq<Step>)
    ensures Good(After(steps))
  {
    if steps != [] {
      hide Good, Next;
      AlwaysGood(steps[..|steps| - 1]);
      GoodNext(After(steps[..|steps| - 1]), steps[|steps| - 1]);
    } else {
      GoodStart();
    }
  }

  lemma GoodStart()
    ensures Good(INITIAL)
  {}

  function Share(k: nat): nat { 2 * k + 6 }

  /** Of the logins that read the clock in an interval, how many more can record a failure, while
      only these touch the entry: those among them that are in flight, of which there are n now
      and at most k at any time, and those that the entry still lets pass. Until the window that
      was open before the interval closes, there is a second one to come. */
  function Rest(a: AuthAttempt, n: nat, k: nat, lo: int): int {
    var second := if a.firstSeenAt < lo then k + 3 else 0;
    if a == NO_ATTEMPT then k + 4
    else if a.failures < MAX_AUTH_FAILURES then MAX_AUTH_FAILURES - a.failures + k - 1 + second
    else if a.lockedUntil > lo + AUTH_ATTEMPT_WINDOW then n + if n > 0 then second else 0
    else if a.firstSeenAt < lo then Share(k)
    else k + 4
  }

  lemma RestBounds(a: AuthAttempt, n: nat, k: nat, lo: int)
    requires Sane(a) && n <= k && k > 0
    ensures n <= Rest(a, n, k, lo) <= Share(k)
  {}

  lemma RestCleaned(a: AuthAttempt, now: int, n: nat, k: nat, lo: int)
    requires Sane(a) && n <= k && k > 0 && now <= lo + AUTH_ATTEMPT_WINDOW
    ensures Sane(Cleaned(a, now)) && Rest(Cleaned(a, now), n, k, lo) <= Rest(a, n, k, lo)
  {}

  lemma RestFailed(a: AuthAttempt, now: int, n: nat, k: nat, lo: int)
    requires Sane(a) && 0 < n <= k && lo <= now <= lo + AUTH_ATTEMPT_WINDOW && now > 0
    ensures Sane(Failed(a, now)) && 1 + Rest(Failed(a, now), n - 1, k, lo) <= Rest(a, n, k, lo)
  {}

  lemma RestAdmitted(a: AuthAttempt, now: int, n: nat, k: nat, lo: int)
    requires Sane(a) && now <= lo + AUTH_ATTEMPT_WINDOW && Wait(a, now) == 0
    ensures Rest(a, n + 1, k, lo) == Rest(a, n, k, lo)
  {}

  // The bound over a run

  /** The failures and logins of the interval, and those in flight from before it. */
  function Recorded(s: State, lo: int): nat { CountWithin(s.failures, lo, lo + AUTH_ATTEMPT_WINDOW) }

  function Pending(s: State, lo: int): nat { |Within(s.admitted, lo, lo + AUTH_ATTEMPT_WINDOW)| }

  function Unchecked(s: State, lo: int): nat { |Within(s.waiting, lo, lo + AUTH_ATTEMPT_WINDOW)| }

  function Earlier(s: State, lo: int): nat { |Before(s.waiting, lo)| + |Before(s.admitted, lo)| }

  /** Each login from before the interval that records something can start the count afresh once. */
  ghost predicate Budget(s: State, lo: int, k: nat, earlier: nat) {
    && Good(s) && InFlight(s) <= k && Earlier(s, lo) <= earlier
    && (s.clock <= lo + AUTH_ATTEMPT_WINDOW ==>
          Recorded(s, lo) + Earlier(s, lo) * Share(k) + Rest(s.entry, Pending(s, lo), k, lo) <= (earlier + 1) * Share(k))
    && (s.clock > lo + AUTH_ATTEMPT_WINDOW ==>
          Recorded(s, lo) + Pending(s, lo) + Unchecked(s, lo) <= (earlier + 1) * Share(k) + k)
  }

  /** The counts fit, and so does what is left of the budget when the interval is over. */
  lemma PendingFits(s: State, lo: int, k: nat, earlier: nat)
    requires Budget(s, lo, k, earlier) && k > 0
    ensures Pending(s, lo) <= k && Unchecked(s, lo) <= k
    ensures s.clock <= lo + AUTH_ATTEMPT_WINDOW ==>
              Recorded(s, lo) + Pending(s, lo) <= (earlier + 1) * Share(k) && 0 <= Earlier(s, lo) * Share(k)
  {
    CountsFit(s.admitted, lo, lo + AUTH_ATTEMPT_WINDOW);
    CountsFit(s.waiting, lo, lo + AUTH_ATTEMPT_WINDOW);
    hide Rest, Share, Before, Within, Good, CountWithin;
    if s.clock <= lo + AUTH_ATTEMPT_WINDOW { RestBounds(s.entry, Pending(s, lo), k, lo) by { GoodIsSane(s); } }
  }

  lemma GoodIsSane(s: State)
    requires Good(s)
    ensures Sane(s.entry)
  {}

  lemma BudgetRead(s: State, step: Step, lo: int, k: nat, earlier: nat)
    requires Budget(s, lo, k, earlier) && k > 0 && step.Read? && Enabled(s, step)
    requires InFlight(Next(s, step)) <= k && lo <= step.now
    ensures Budget(Next(s, step), lo, k, earlier)
  {
    GoodNext(s, step);
    PendingFits(s, lo, k, earlier);
    Added(s.waiting, step.id, step.now, lo, lo + AUTH_ATTEMPT_WINDOW);
    hide Rest, Share, Before, Within, Good, CountWithin;
  }

  lemma BudgetElsewhere(s: State, step: Step, lo: int, k: nat, earlier: nat)
    requires Budget(s, lo, k, earlier) && k > 0 && step.Elsewhere? && Enabled(s, step)
    ensures Budget(Next(s, step), lo, k, earlier)
  {
    GoodNext(s, step);
    GoodIsSane(s);
    PendingFits(s, lo, k, earlier);
    if step.now <= lo + AUTH_ATTEMPT_WINDOW { RestCleaned(s.entry, step.now, Pending(s, lo), k, lo); }
    hide Rest, Share, Before, Within, Good, CountWithin, Cleaned;
  }

  /** A check moves a login, or lets it go. */
  lemma CheckCounts(s: State, step: Step, lo: int)
    requires Good(s) && step.Check? && Enabled(s, step)
    ensures var next, now := Next(s, step), s.waiting[step.id];
            var inside, passes := lo <= now <= lo + AUTH_ATTEMPT_WINDOW, step.others && Wait(Cleaned(s.entry, now), now) == 0;
            && next.entry == Cleaned(s.entry, now) && next.clock == s.clock && 0 < now <= s.clock
            && Recorded(next, lo) == Recorded(s, lo)
            && Unchecked(next, lo) == Unchecked(s, lo) - (if inside then 1 else 0)
            && Pending(next, lo) == Pending(s, lo) + (if inside && passes then 1 else 0)
            && Earlier(next, lo) <= Earlier(s, lo) && InFlight(next) <= InFlight(s)
  {
    ReadingsFit(s, step.id);
    var now := s.waiting[step.id];
    Removed(s.waiting, step.id, lo, lo + AUTH_ATTEMPT_WINDOW);
    Added(s.admitted, step.id, now, lo, lo + AUTH_ATTEMPT_WINDOW);
    Smallest(s.waiting, step.id);
    hide Before, Within, Good, CountWithin, Cleaned, Wait;
  }

  lemma Smallest(m: map<nat, int>, id: nat)
    requires id in m
    ensures |m - {id}| == |m| - 1
  {
    assert (m - {id}).Keys == m.Keys - {id} && |m.Keys| == |m| && |(m - {id}).Keys| == |m - {id}|;
  }

  lemma BudgetCheck(s: State, step: Step, lo: int, k: nat, earlier: nat)
    requires Budget(s, lo, k, earlier) && k > 0 && step.Check? && Enabled(s, step)
    ensures Budget(Next(s, step), lo, k, earlier)
  {
    hide Rest, Share, Before, Within, Good, CountWithin, Cleaned, Wait, Recorded, Pending, Unchecked, Earlier, InFlight, Next;
    GoodNext(s, step);
    GoodIsSane(s);
    CheckCounts(s, step, lo);
    PendingFits(s, lo, k, earlier);
    var now, n, next := s.waiting[step.id], Pending(s, lo), Next(s, step);
    Fewer(Earlier(next, lo), Earlier(s, lo), Share(k));
    if s.clock <= lo + AUTH_ATTEMPT_WINDOW {
      RestCleaned(s.entry, now, n, k, lo);
      if Wait(next.entry, now) == 0 { RestAdmitted(next.entry, now, n, k, lo); }
    }
  }

  lemma Fewer(a: nat, b: nat, x: nat)
    requires a <= b
    ensures a * x <= b * x && (a < b ==> a * x + x <= b * x)
  {
    assert (b - a) * x >= 0;
    if a < b { assert (b - a - 1) * x >= 0; }
  }

  lemma ReadingsFit(s: State, id: nat)
    requires Good(s)
    ensures id in s.waiting ==> 0 < s.waiting[id] <= s.clock && id !in s.admitted
    ensures id in s.admitted ==> 0 < s.admitted[id] <= s.clock
  {}

  lemma BudgetSucceed(s: State, step: Step, lo: int, k: nat, earlier: nat)
    requires Budget(s, lo, k, earlier) && k > 0 && step.Succeed? && Enabled(s, step)
    ensures Budget(Next(s, step), lo, k, earlier)
  {
    GoodNext(s, step);
    PendingFits(s, lo, k, earlier);
    Removed(s.admitted, step.id, lo, lo + AUTH_ATTEMPT_WINDOW);
    var next := Next(s, step);
    RestMissing(Pending(next, lo), k, lo);
    assert Recorded(next, lo) == 0;
    hide Rest, Share, Before, Within, Good, CountWithin;
    Fewer(Earlier(next, lo), earlier, Share(k));
  }

  lemma RestMissing(n: nat, k: nat, lo: int)
    ensures Rest(NO_ATTEMPT, n, k, lo) <= Share(k)
  {}

  /** A failure is recorded with the reading of its login. */
  lemma FailCounts(s: State, step: Step, lo: int)
    requires Good(s) && step.Fail? && Enabled(s, step)
    ensures var next, now := Next(s, step), s.admitted[step.id];
            var inside := if lo <= now <= lo + AUTH_ATTEMPT_WINDOW then 1 else 0;
            && next.entry == Failed(Cleaned(s.entry, now), now) && next.clock == s.clock && 0 < now <= s.clock
            && Recorded(next, lo) == Recorded(s, lo) + inside
            && Unchecked(next, lo) == Unchecked(s, lo)
            && Pending(next, lo) == Pending(s, lo) - inside
            && Earlier(next, lo) == Earlier(s, lo) - (if now < lo then 1 else 0) && InFlight(next) <= InFlight(s)
  {
    ReadingsFit(s, step.id);
    Removed(s.admitted, step.id, lo, lo + AUTH_ATTEMPT_WINDOW);
    OneMore(s.failures, s.admitted[step.id], lo, lo + AUTH_ATTEMPT_WINDOW);
    Smallest(s.admitted, step.id);
    hide Before, Within, Good, CountWithin, Cleaned, Failed;
  }

  lemma BudgetFail(s: State, step: Step, lo: int, k: nat, earlier: nat)
    requires Budget(s, lo, k, earlier) && k > 0 && step.Fail? && Enabled(s, step)
    ensures Budget(Next(s, step), lo, k, earlier)
  {
    hide Rest, Share, Before, Within, Good, CountWithin, Cleaned, Failed, Recorded, Pending, Unchecked, Earlier, InFlight, Next;
    GoodNext(s, step);
    GoodIsSane(s);
    FailCounts(s, step, lo);
    PendingFits(s, lo, k, earlier);
    var now, n, next := s.admitted[step.id], Pending(s, lo), Next(s, step);
    GoodIsSane(next);
    Fewer(Earlier(next, lo), Earlier(s, lo), Share(k));
    if s.clock <= lo + AUTH_ATTEMPT_WINDOW {
      RestCleaned(s.entry, now, n, k, lo);
      RestBounds(s.entry, n, k, lo);
      RestBounds(next.entry, Pending(next, lo), k, lo);
      if lo <= now { RestFailed(Cleaned(s.entry, now), now, n, k, lo); }
    }
  }

  lemma OneMore(ts: seq<int>, t: int, lo: int, hi: int)
    ensures CountWithin(ts + [t], lo, hi) == CountWithin(ts, lo, hi) + if lo <= t <= hi then 1 else 0
  {
    assert (ts + [t])[..|ts|] == ts;
  }

  lemma BudgetNext(s: State, step: Step, lo: int, k: nat, earlier: nat)
    requires Budget(s, lo, k, earlier) && k > 0 && InFlight(Next(s, step)) <= k
    requires step.Read? && Enabled(s, step) ==> lo <= step.now
    ensures Budget(Next(s, step), lo, k, earlier)
  {
    hide Budget, InFlight, Share;
    if !Enabled(s, step) { return; }
    match step
    case Read(_, _) => BudgetRead(s, step, lo, k, earlier);
    case Check(_, _) => BudgetCheck(s, step, lo, k, earlier);
    case Fail(_) => BudgetFail(s, step, lo, k, earlier);
    case Succeed(_) => BudgetSucceed(s, step, lo, k, earlier);
    case Elsewhere(_) => BudgetElsewhere(s, step, lo, k, earlier);
  }

  lemma {:induction false} NoneWithin(ts: seq<int>, lo: int, hi: int)
    requires forall i :: 0 <= i < |ts| ==> ts[i] < lo
    ensures CountWithin(ts, lo, hi) == 0
  {
    if ts != [] { NoneWithin(ts[..|ts| - 1], lo, hi); }
  }

  /** Before the clock reaches the interval. */
  lemma NothingYet(s: State, lo: int)
    requires Good(s) && s.clock < lo
    ensures Recorded(s, lo) == 0 && Pending(s, lo) == 0 && Earlier(s, lo) <= InFlight(s)
  {
    NoneWithin(s.failures, lo, lo + AUTH_ATTEMPT_WINDOW);
    CountsFit(s.waiting, lo, lo);
    CountsFit(s.admitted, lo, lo);
    assert Within(s.admitted, lo, lo + AUTH_ATTEMPT_WINDOW) == {};
  }

  lemma BudgetStarts(s: State, lo: int, k: nat)
    requires Good(s) && s.clock < lo && InFlight(s) <= k && k > 0
    ensures Budget(s, lo, k, InFlight(s))
  {
    hide Good, InFlight, Rest, Share, Recorded, Pending, Earlier;
    NothingYet(s, lo);
    GoodIsSane(s);
    RestBounds(s.entry, 0, k, lo);
    Fewer(Earlier(s, lo), InFlight(s), Share(k));
  }

  lemma BudgetInitial(lo: int, k: nat)
    requires lo <= 0 < k
    ensures Budget(INITIAL, lo, k, 0)
  {
    assert Within(map[], lo, lo + AUTH_ATTEMPT_WINDOW) == {} && Before(map[], lo) == {};
  }

  lemma AtMostInit(steps: seq<Step>, k: nat)
    requires AtMost(steps, k)
    ensures InFlight(After(steps)) <= k && (steps != [] ==> AtMost(steps[..|steps| - 1], k))
  {
    hide After, InFlight;
    assert steps[..|steps|] == steps;
    if steps != [] {
      var init := steps[..|steps| - 1];
      forall n | 0 <= n <= |init| ensures InFlight(After(init[..n])) <= k { assert init[..n] == steps[..n]; }
    }
  }

  lemma ClockStep(s: State, step: Step, lo: int)
    requires lo <= Next(s, step).clock && step.Read? && Enabled(s, step)
    ensures lo <= step.now
  {}

  lemma InFlightAtStep(steps: seq<Step>, lo: int)
    ensures var s := After(steps);
            InFlightAt(steps, lo)
            == if s.clock < lo then InFlight(s) else if steps == [] then 0 else InFlightAt(steps[..|steps| - 1], lo)
    ensures steps != [] ==> After(steps) == Next(After(steps[..|steps| - 1]), steps[|steps| - 1])
    ensures steps == [] ==> After(steps) == INITIAL && INITIAL.clock == 0
  {}

  lemma {:induction false} RunBudget(steps: seq<Step>, lo: int, k: nat)
    requires AtMost(steps, k) && k > 0 && lo <= After(steps).clock
    ensures Budget(After(steps), lo, k, InFlightAt(steps, lo))
  {
    hide *;
    AtMostInit(steps, k);
    InFlightAtStep(steps, lo);
    if steps == [] {
      BudgetInitial(lo, k);
      return;
    }
    var init, step := steps[..|steps| - 1], steps[|steps| - 1];
    var s := After(init);
    if s.clock < lo {
      AlwaysGood(init);
      AtMostInit(init, k);
      InFlightAtStep(init, lo);
      BudgetStarts(s, lo, k);
    } else {
      RunBudget(init, lo, k);
    }
    if step.Read? && Enabled(s, step) { ClockStep(s, step, lo); }
    BudgetNext(s, step, lo, k, InFlightAt(init, lo));
  }

  /** With at most k logins of a key in flight at any time, a closed ten-minute interval holds at
      most 2k + 6 of the failures recorded for it since its last success, as many again for each
      login that was in flight when the interval began, and k of logins that stall before their
      check. Nothing is assumed of the order in which logins are checked and recorded. */
  lemma FailureBound(steps: seq<Step>, lo: int, k: nat)
    requires AtMost(steps, k) && k > 0
    ensures CountWithin(After(steps).failures, lo, lo + AUTH_ATTEMPT_WINDOW) <= (InFlightAt(steps, lo) + 1) * (2 * k + 6) + k
  {
    hide *;
    var s, e := After(steps), InFlightAt(steps, lo);
    AlwaysGood(steps);
    RecordedIs(s, lo);
    ShareIs(k);
    if s.clock < lo {
      NothingYet(s, lo);
      Fewer(0, e + 1, Share(k));
    } else {
      RunBudget(steps, lo, k);
      PendingFits(s, lo, k, e);
      BudgetEnds(s, lo, k, e);
    }
  }

  lemma RecordedIs(s: State, lo: int)
    ensures Recorded(s, lo) == CountWithin(s.failures, lo, lo + AUTH_ATTEMPT_WINDOW)
  {}

  lemma ShareIs(k: nat)
    ensures Share(k) == 2 * k + 6
  {}

  lemma BudgetEnds(s: State, lo: int, k: nat, earlier: nat)
    requires Budget(s, lo, k, earlier) && k > 0
    ensures Recorded(s, lo) <= (earlier + 1) * Share(k) + k
  {
    hide Share, Recorded, Pending, Unchecked, Earlier, Rest, Good, InFlight;
    PendingFits(s, lo, k, earlier);
  }
}
