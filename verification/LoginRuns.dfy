/** Whole runs of the login handler (internal/api/auth_handlers.go) over the lockout
    limiter. Each login is one atomic step (LoginRaces drops that); the credential check is an
    oracle. */
module LoginRuns {
  import opened Text
  import opened Timeline
  import opened LockoutLimiter

  datatype Credentials = Rejected | SecondFactorFailed | Accepted
  datatype Login = Login(ip: string, email: string, now: int, credentials: Credentials)
  datatype Response = TooManyRequests(retryAfter: int) | Unauthorized | MFARequired | LoggedIn

  function AuthAttemptKeys(ip: string, email: string): seq<string> {
    var normalizedEmail := ToLower(TrimSpace(email));
    ["ip:" + ip] + if normalizedEmail != "" then ["email:" + normalizedEmail] else []
  }

  function Keys(e: Login): seq<string> { AuthAttemptKeys(e.ip, e.email) }

  lemma KeysAreDistinct(e: Login)
    ensures forall i, j :: 0 <= i < j < |Keys(e)| ==> Keys(e)[i] != Keys(e)[j]
    ensures forall k :: k in Keys(e) ==> k != ""
    ensures KeySet(Keys(e)) != {}
  {
    assert Keys(e)[0] in KeySet(Keys(e)) && Keys(e)[0][0] == 'i';
    if |Keys(e)| > 1 { assert Keys(e)[1][0] == 'e'; }
  }

  predicate Admits(m: Attempts, e: Login) {
    LongestRetry(m, Keys(e), e.now) == 0
  }

  /** The limiter after one login, when the cap on keys is not reached. */
  function Next(m: Attempts, e: Login): Attempts {
    var pruned := Pruned(m, e.now);
    if !Admits(m, e) then pruned
    else if e.credentials.Accepted? then pruned - KeySet(Keys(e))
    else WithFailures(pruned, Keys(e), e.now)
  }

  predicate Fits(m: Attempts, e: Login) {
    |Pruned(m, e.now).Keys + KeySet(Keys(e))| <= MAX_AUTH_ATTEMPT_KEYS
  }

  method HandleLogin(limiter: AuthAttemptLimiter, e: Login) returns (response: Response)
    requires limiter.Valid()
    modifies limiter
    ensures limiter.Valid()
    ensures Fits(old(limiter.attempts), e) ==> limiter.attempts == Next(old(limiter.attempts), e)
    ensures var pruned := Pruned(old(limiter.attempts), e.now);
            if !Admits(old(limiter.attempts), e) then limiter.attempts == pruned
            else if e.credentials.Accepted? then limiter.attempts == pruned - KeySet(Keys(e))
            else FailuresRecorded(pruned, Keys(e), e.now, limiter.attempts)
    ensures response.TooManyRequests? <==> !Admits(old(limiter.attempts), e)
    ensures response.TooManyRequests? ==> response.retryAfter == LongestRetry(old(limiter.attempts), Keys(e), e.now)
    ensures response.LoggedIn? <==> Admits(old(limiter.attempts), e) && e.credentials.Accepted?
    ensures response.MFARequired? <==> Admits(old(limiter.attempts), e) && e.credentials.SecondFactorFailed?
  {
    var attemptKeys := AuthAttemptKeys(e.ip, e.email);
    KeysAreDistinct(e);
    PrunedTwice(limiter.attempts, e.now);
    var allowed, retryAfter := limiter.AllowAll(attemptKeys, e.now);
    if !allowed { return TooManyRequests(retryAfter); }
    if e.credentials.Rejected? {
      limiter.RecordFailures(attemptKeys, e.now);
      return Unauthorized;
    }
    if e.credentials.SecondFactorFailed? {
      limiter.RecordFailures(attemptKeys, e.now);
      return MFARequired;
    }
    limiter.RecordSuccesses(attemptKeys);
    return LoggedIn;
  }

  // Runs

  /** The limiter after the first n logins of a run. */
  function StateAt(run: seq<Login>, n: nat): Attempts
    requires n <= |run|
  {
    if n == 0 then map[] else Next(StateAt(run, n - 1), run[n - 1])
  }

  /** When the key's failures since its last successful login were recorded, within the first n logins. */
  function Failures(run: seq<Login>, n: nat, key: string): seq<int>
    requires n <= |run|
  {
    if n == 0 then []
    else Recorded(StateAt(run, n - 1), Failures(run, n - 1, key), run[n - 1], key)
  }

  function Recorded(m: Attempts, ts: seq<int>, e: Login, key: string): seq<int> {
    if key !in Keys(e) || !Admits(m, e) then ts
    else if e.credentials.Accepted? then []
    else ts + [e.now]
  }

  /** The clock starts after the zero time and never runs backwards, and the cap is never reached. */
  ghost predicate ValidRun(run: seq<Login>) {
    && (forall i :: 0 <= i < |run| ==> run[i].now > 0)
    && (forall i, j :: 0 <= i <= j < |run| ==> run[i].now <= run[j].now)
    && (forall i {:trigger FitsAt(run, i)} :: 0 <= i < |run| ==> FitsAt(run, i))
  }

  ghost predicate FitsAt(run: seq<Login>, i: nat)
    requires i < |run|
  {
    Fits(StateAt(run, i), run[i])
  }

  /** The time of the last of the first n logins. */
  function Clock(run: seq<Login>, n: nat): int
    requires n <= |run|
  {
    if n == 0 then 0 else run[n - 1].now
  }

  /** How many failures the window of the last failure holds. */
  function InWindow(ts: seq<int>): (n: nat)
    requires ts != []
  {
    |ts| - WindowOpener(ts, AUTH_ATTEMPT_WINDOW, |ts| - 1)
  }

  predicate LocksAtLast(ts: seq<int>) {
    ts != [] && InWindow(ts) == MAX_AUTH_FAILURES
  }

  /** The entry that a history of failures calls for. */
  function Expected(ts: seq<int>): AuthAttempt {
    if ts == [] then NO_ATTEMPT
    else AuthAttempt(InWindow(ts), ts[|ts| - InWindow(ts)],
                     if LocksAtLast(ts) then ts[|ts| - 1] + AUTH_ATTEMPT_LOCKOUT else 0)
  }

  ghost predicate Lawful(ts: seq<int>) {
    && Ordered(ts)
    && (forall i :: 0 <= i < |ts| ==> ts[i] > 0)
    && Capped(ts, AUTH_ATTEMPT_WINDOW, MAX_AUTH_FAILURES)
    && PausesWhenFull(ts, AUTH_ATTEMPT_WINDOW, MAX_AUTH_FAILURES, AUTH_ATTEMPT_LOCKOUT)
  }

  ghost predicate Represents(a: AuthAttempt, ts: seq<int>, now: int) {
    a == Expected(ts) || (a == NO_ATTEMPT && Stale(Expected(ts), now))
  }

  /** A key's entry at a given clock reading goes with its history of failures. */
  ghost predicate Tracked(a: AuthAttempt, ts: seq<int>, clock: int) {
    && Lawful(ts)
    && (ts != [] ==> ts[|ts| - 1] <= clock)
    && Represents(a, ts, clock)
  }

  /** The window that the next failure falls in. */
  lemma ExtendWindow(ts: seq<int>, now: int)
    requires Lawful(ts) && now > 0
    requires Wait(Expected(ts), now) == 0
    ensures var joins := ts != [] && now - ts[|ts| - InWindow(ts)] <= AUTH_ATTEMPT_WINDOW;
            InWindow(ts + [now]) == (if joins then InWindow(ts) + 1 else 1) <= MAX_AUTH_FAILURES
    ensures LocksAtLast(ts) ==> now >= ts[|ts| - 1] + AUTH_ATTEMPT_LOCKOUT
  {
    hide WindowOpener, PausesWhenFull;
    NextOpener(ts, now, AUTH_ATTEMPT_WINDOW);
    if ts != [] {
      var opener := WindowOpener(ts, AUTH_ATTEMPT_WINDOW, |ts| - 1);
      assert |ts| - 1 - opener < MAX_AUTH_FAILURES;
      assert ts[opener] <= ts[|ts| - 1] && ts[|ts| - 1] > 0;
    }
  }

  lemma ExtendLawful(ts: seq<int>, now: int)
    requires Lawful(ts) && now > 0 && (ts != [] ==> ts[|ts| - 1] <= now)
    requires Wait(Expected(ts), now) == 0
    ensures Lawful(ts + [now])
  {
    ExtendWindow(ts, now);
    var longer := ts + [now];
    var last := WindowOpener(longer, AUTH_ATTEMPT_WINDOW, |ts|);
    assert |ts| - last < MAX_AUTH_FAILURES;
    forall i {:trigger WindowOpener(longer, AUTH_ATTEMPT_WINDOW, i)} | 0 <= i < |ts|
      ensures WindowOpener(longer, AUTH_ATTEMPT_WINDOW, i) == WindowOpener(ts, AUTH_ATTEMPT_WINDOW, i)
    {
      WindowOpenerPrefix(ts, [now], AUTH_ATTEMPT_WINDOW, i);
    }
  }

  function Cleaned(a: AuthAttempt, now: int): AuthAttempt { if Stale(a, now) then NO_ATTEMPT else a }

  lemma ExtendEntry(ts: seq<int>, now: int, a: AuthAttempt, clock: int)
    requires Lawful(ts) && now > 0 && (ts != [] ==> ts[|ts| - 1] <= now)
    requires Wait(Expected(ts), now) == 0
    requires Represents(a, ts, clock) && clock <= now
    ensures Failed(Cleaned(a, now), now) == Expected(ts + [now])
  {
    ExtendWindow(ts, now);
  }

  /** The limiter's entry for a key is always the one its failure history calls for. */
  lemma {:induction false} EntryMatchesHistory(run: seq<Login>, n: nat, key: string)
    requires n <= |run| && ValidRun(run) && key != ""
    ensures Tracked(View(StateAt(run, n), key), Failures(run, n, key), Clock(run, n))
  {
    hide *;
    if n == 0 {
      RunStart(run, key);
      return;
    }
    EntryMatchesHistory(run, n - 1, key);
    RunStep(run, n - 1, key);
    EntryStep(StateAt(run, n - 1), Failures(run, n - 1, key), Clock(run, n - 1), run[n - 1], key);
  }

  lemma RunStart(run: seq<Login>, key: string)
    ensures Tracked(View(StateAt(run, 0), key), Failures(run, 0, key), Clock(run, 0))
  {}

  lemma RunStep(run: seq<Login>, n: nat, key: string)
    requires n < |run| && ValidRun(run)
    ensures StateAt(run, n + 1) == Next(StateAt(run, n), run[n])
    ensures Failures(run, n + 1, key) == Recorded(StateAt(run, n), Failures(run, n, key), run[n], key)
    ensures 0 < run[n].now == Clock(run, n + 1) && Clock(run, n) <= run[n].now
  {}

  /** What one login does to a key's entry. */
  lemma NextView(m: Attempts, e: Login, key: string)
    requires key != ""
    ensures View(Next(m, e), key)
            == var a := Cleaned(View(m, key), e.now);
               if key !in Keys(e) || !Admits(m, e) then a
               else if e.credentials.Accepted? then NO_ATTEMPT
               else Failed(a, e.now)
    ensures key in Keys(e) && Admits(m, e) ==> Wait(Cleaned(View(m, key), e.now), e.now) == 0
  {
    KeysAreDistinct(e);
    PrunedOnce(m, e.now);
    hide WithFailures, Failed, Stale, Keys;
    AfterFailures(Pruned(m, e.now), Keys(e), e.now, key);
    if key in Keys(e) && Admits(m, e) { assert RetryAfter(m, key, e.now) == 0; }
  }

  lemma PrunedOnce(m: Attempts, now: int)
    ensures Pruned(Pruned(m, now), now) == Pruned(m, now)
  {}

  lemma TrackedLater(a: AuthAttempt, ts: seq<int>, clock: int, now: int)
    requires Tracked(a, ts, clock) && clock <= now
    ensures Tracked(Cleaned(a, now), ts, now)
  {
    hide Lawful, InWindow;
  }

  lemma TrackedNothing(now: int)
    ensures Tracked(NO_ATTEMPT, [], now)
  {}

  lemma TrackedFailure(a: AuthAttempt, ts: seq<int>, clock: int, now: int)
    requires Tracked(a, ts, clock) && clock <= now && now > 0 && Wait(Cleaned(a, now), now) == 0
    ensures Tracked(Failed(Cleaned(a, now), now), ts + [now], now)
  {
    hide Lawful, InWindow, Failed;
    ExtendLawful(ts, now);
    ExtendEntry(ts, now, a, clock);
  }

  /** One login keeps the entry and the history together. */
  lemma EntryStep(m: Attempts, ts: seq<int>, clock: int, e: Login, key: string)
    requires key != "" && clock <= e.now && e.now > 0
    requires Tracked(View(m, key), ts, clock)
    ensures Tracked(View(Next(m, e), key), Recorded(m, ts, e, key), e.now)
  {
    hide Tracked, View, Next, Keys, Admits, Cleaned, Failed, Wait;
    NextView(m, e, key);
    if key !in Keys(e) || !Admits(m, e) { TrackedLater(View(m, key), ts, clock, e.now); }
    else if e.credentials.Accepted? { TrackedNothing(e.now); }
    else { TrackedFailure(View(m, key), ts, clock, e.now); }
  }

  lemma {:induction false} AfterFailures(m: Attempts, keys: seq<string>, now: int, key: string)
    requires key != "" && Pruned(m, now) == m
    requires forall i, j :: 0 <= i < j < |keys| ==> keys[i] != keys[j]
    ensures Pruned(WithFailures(m, keys, now), now) == WithFailures(m, keys, now)
    ensures View(WithFailures(m, keys, now), key) == if key in keys then Failed(View(m, key), now) else View(m, key)
  {
    if keys == [] { return; }
    var init, last := keys[..|keys| - 1], keys[|keys| - 1];
    AfterFailures(m, init, now, key);
    assert keys == init + [last];
    if last != "" { PrunedAfterFailure(WithFailures(m, init, now), last, now); }
  }

  function RemainingLock(ts: seq<int>, now: int): (w: nat) {
    if LocksAtLast(ts) && now < ts[|ts| - 1] + AUTH_ATTEMPT_LOCKOUT then ts[|ts| - 1] + AUTH_ATTEMPT_LOCKOUT - now else 0
  }

  lemma WaitIsRemainingLock(m: Attempts, key: string, ts: seq<int>, clock: int, now: int)
    requires key != "" && Represents(View(m, key), ts, clock) && clock <= now
    requires forall i :: 0 <= i < |ts| ==> ts[i] > 0
    ensures RetryAfter(m, key, now) == RemainingLock(ts, now)
  {}

  /** The verdict of the limiter, read off the history alone: a key makes its caller wait
      exactly while fifteen minutes have not passed since the fifth failure of a window. */
  lemma VerdictFromHistory(run: seq<Login>, n: nat, key: string)
    requires n < |run| && ValidRun(run) && key != ""
    ensures RetryAfter(StateAt(run, n), key, run[n].now) == RemainingLock(Failures(run, n, key), run[n].now)
  {
    EntryMatchesHistory(run, n, key);
    WaitIsRemainingLock(StateAt(run, n), key, Failures(run, n, key), Clock(run, n), run[n].now);
  }

  /** No closed ten-minute interval holds more than eight failures of a key since its last success. */
  lemma FailureBound(run: seq<Login>, key: string, from: int)
    requires ValidRun(run) && key != ""
    ensures CountWithin(Failures(run, |run|, key), from, from + 600_000_000_000) <= 8
  {
    EntryMatchesHistory(run, |run|, key);
    var ts := Failures(run, |run|, key);
    forall i | 0 <= i < |ts| - (2 * MAX_AUTH_FAILURES - 2)
      ensures ts[i + (2 * MAX_AUTH_FAILURES - 2)] - ts[i] > AUTH_ATTEMPT_WINDOW
    {
      PausedWindowsSpan(ts, AUTH_ATTEMPT_WINDOW, MAX_AUTH_FAILURES, AUTH_ATTEMPT_LOCKOUT, i);
    }
    CountBound(ts, AUTH_ATTEMPT_WINDOW, 2 * MAX_AUTH_FAILURES - 2, from);
  }

  ghost predicate LockedAt(ts: seq<int>, now: int) {
    LocksAtLast(ts) && now < ts[|ts| - 1] + AUTH_ATTEMPT_LOCKOUT
  }

  /** Once a key has locked, every login that uses it before the lock ends is refused, and
      until then nothing changes the key's history. */
  lemma {:induction false} LockPersists(run: seq<Login>, n: nat, later: nat, key: string)
    requires n <= later < |run| && ValidRun(run) && key != ""
    requires LockedAt(Failures(run, n, key), run[later].now)
    ensures Failures(run, later, key) == Failures(run, n, key)
    ensures key in Keys(run[later]) ==> !Admits(StateAt(run, later), run[later])
  {
    hide *;
    if n < later {
      LockedBefore(run, later - 1, later, Failures(run, n, key));
      LockPersists(run, n, later - 1, key);
      LockedStep(run, later - 1, key);
    }
    LockedStep(run, later, key);
  }

  lemma LockedBefore(run: seq<Login>, i: nat, j: nat, ts: seq<int>)
    requires i <= j < |run| && ValidRun(run) && LockedAt(ts, run[j].now)
    ensures LockedAt(ts, run[i].now)
  {}

  lemma LockedStep(run: seq<Login>, n: nat, key: string)
    requires n < |run| && ValidRun(run) && key != ""
    requires LockedAt(Failures(run, n, key), run[n].now)
    ensures Failures(run, n + 1, key) == Failures(run, n, key)
    ensures key in Keys(run[n]) ==> !Admits(StateAt(run, n), run[n])
  {
    VerdictFromHistory(run, n, key);
    RunStep(run, n, key);
    hide *;
    LockedRecord(StateAt(run, n), Failures(run, n, key), run[n], key);
  }

  lemma LockedRecord(m: Attempts, ts: seq<int>, e: Login, key: string)
    requires key != "" && LockedAt(ts, e.now)
    requires RetryAfter(m, key, e.now) == RemainingLock(ts, e.now)
    ensures Recorded(m, ts, e, key) == ts
    ensures key in Keys(e) ==> !Admits(m, e)
  {}
}
