/** The bound on the failures of a key is reached: a key can collect eight of them within a
    nanosecond. */
module LoginBound {
  import opened Text
  import opened Timeline
  import opened LockoutLimiter
  import opened LoginRuns

  function Times(run: seq<Login>): (ts: seq<int>)
    ensures |ts| == |run|
  {
    seq(|run|, i requires 0 <= i < |run| => run[i].now)
  }

  /** Logins from one address without an account, all with wrong credentials, in clock order. */
  ghost predicate Guesses(run: seq<Login>, ip: string) {
    && (forall i :: 0 <= i < |run| ==> run[i] == Login(ip, "", run[i].now, Rejected) && run[i].now > 0)
    && (forall i, j :: 0 <= i <= j < |run| ==> run[i].now <= run[j].now)
  }

  lemma OneKey(ip: string, now: int)
    ensures Keys(Login(ip, "", now, Rejected)) == ["ip:" + ip] && "ip:" + ip != ""
    ensures KeySet(["ip:" + ip]) == {"ip:" + ip}
  {}

  lemma {:induction false} OneEntry(run: seq<Login>, n: nat, ip: string)
    requires Guesses(run, ip) && n <= |run|
    ensures StateAt(run, n).Keys <= {"ip:" + ip}
  {
    if n == 0 { return; }
    OneEntry(run, n - 1, ip);
    OneKey(ip, run[n - 1].now);
    OneKeyNext(StateAt(run, n - 1), run[n - 1], "ip:" + ip);
  }

  lemma OneKeyNext(m: Attempts, e: Login, key: string)
    requires m.Keys <= {key} && Keys(e) == [key] && key != ""
    ensures Next(m, e).Keys <= {key}
  {
    assert [key][..0] == [];
    assert WithFailures(Pruned(m, e.now), [key], e.now) == WithFailure(Pruned(m, e.now), key, e.now);
    hide Keys, Failed;
  }

  lemma {:induction false} GuessesValid(run: seq<Login>, ip: string)
    requires Guesses(run, ip)
    ensures ValidRun(run)
  {
    forall i | 0 <= i < |run| ensures FitsAt(run, i) {
      OneEntry(run, i, ip);
      OneKey(ip, run[i].now);
      AtMostOne(Pruned(StateAt(run, i), run[i].now).Keys + KeySet(Keys(run[i])), "ip:" + ip);
    }
  }

  lemma AtMostOne(keys: set<string>, key: string)
    requires keys <= {key}
    ensures |keys| <= 1
  {
    if keys != {} { assert keys == {key}; }
  }

  lemma GuessRecorded(run: seq<Login>, n: nat, ip: string)
    requires Guesses(run, ip) && n < |run| && Admits(StateAt(run, n), run[n])
    ensures Failures(run, n + 1, "ip:" + ip) == Failures(run, n, "ip:" + ip) + [run[n].now]
  {
    OneKey(ip, run[n].now);
    assert "ip:" + ip in ["ip:" + ip];
    hide Keys, Admits, StateAt;
  }

  lemma NothingRecorded(run: seq<Login>, key: string)
    ensures Failures(run, 0, key) == []
  {}

  lemma KeysOfGuess(run: seq<Login>, n: nat, ip: string)
    requires Guesses(run, ip) && n < |run|
    ensures Keys(run[n]) == ["ip:" + ip] && "ip:" + ip != ""
  {
    OneKey(ip, run[n].now);
    hide Keys;
  }

  lemma TimesStep(run: seq<Login>, n: nat)
    requires n < |run|
    ensures Times(run)[..0] == [] && Times(run)[..n + 1] == Times(run)[..n] + [run[n].now]
  {}

  /** If each guess comes when the ones before it have not locked the key, all are recorded. */
  lemma {:induction false} AllRecorded(run: seq<Login>, n: nat, ip: string)
    requires Guesses(run, ip) && n <= |run|
    requires forall i :: 0 <= i < n ==> RemainingLock(Times(run)[..i], run[i].now) == 0
    ensures Failures(run, n, "ip:" + ip) == Times(run)[..n]
  {
    hide *;
    var key := "ip:" + ip;
    if n == 0 {
      NothingRecorded(run, key);
      return;
    }
    AllRecorded(run, n - 1, ip);
    GuessesValid(run, ip);
    KeysOfGuess(run, n - 1, ip);
    VerdictFromHistory(run, n - 1, key);
    OneKeyAdmits(StateAt(run, n - 1), run[n - 1], key);
    GuessRecorded(run, n - 1, ip);
    TimesStep(run, n - 1);
  }

  lemma OneKeyAdmits(m: Attempts, e: Login, key: string)
    requires Keys(e) == [key] && RetryAfter(m, key, e.now) == 0
    ensures Admits(m, e)
  {
    assert forall i :: 0 <= i < |[key]| ==> [key][i] == key;
  }

  /** One failure opens a window, three come at its end, and five an instant later. */
  function EightAtOnce(ip: string): seq<Login> {
    var w := AUTH_ATTEMPT_WINDOW;
    [At(ip, 1), At(ip, w + 1), At(ip, w + 1), At(ip, w + 1),
     At(ip, w + 2), At(ip, w + 2), At(ip, w + 2), At(ip, w + 2), At(ip, w + 2)]
  }

  function At(ip: string, now: int): Login { Login(ip, "", now, Rejected) }

  const MOMENTS: seq<int> :=
    [1, AUTH_ATTEMPT_WINDOW + 1, AUTH_ATTEMPT_WINDOW + 1, AUTH_ATTEMPT_WINDOW + 1,
     AUTH_ATTEMPT_WINDOW + 2, AUTH_ATTEMPT_WINDOW + 2, AUTH_ATTEMPT_WINDOW + 2, AUTH_ATTEMPT_WINDOW + 2, AUTH_ATTEMPT_WINDOW + 2]

  lemma Openers(i: nat)
    requires i < |MOMENTS|
    ensures WindowOpener(MOMENTS, AUTH_ATTEMPT_WINDOW, i) == if i < 4 then 0 else 4
  {
    if i > 0 {
      Openers(i - 1);
      WindowOpenerStep(MOMENTS, AUTH_ATTEMPT_WINDOW, i);
    }
  }

  lemma NotLockedYet(i: nat)
    requires i < |MOMENTS|
    ensures RemainingLock(MOMENTS[..i], MOMENTS[i]) == 0
  {
    if i == 0 { return; }
    Openers(i - 1);
    WindowOpenerPrefix(MOMENTS[..i], MOMENTS[i..], AUTH_ATTEMPT_WINDOW, i - 1);
    assert MOMENTS[..i] + MOMENTS[i..] == MOMENTS;
    assert InWindow(MOMENTS[..i]) < MAX_AUTH_FAILURES;
  }

  lemma EightAtOnceTimes(ip: string)
    ensures Times(EightAtOnce(ip)) == MOMENTS && Guesses(EightAtOnce(ip), ip)
  {}

  lemma {:induction false} CountStep(ts: seq<int>, t: int, lo: int, hi: int)
    ensures CountWithin(ts + [t], lo, hi) == CountWithin(ts, lo, hi) + if lo <= t <= hi then 1 else 0
  {
    assert (ts + [t])[..|ts|] == ts;
  }

  lemma {:induction false} CountFrom(n: nat)
    requires 1 <= n <= |MOMENTS|
    ensures CountWithin(MOMENTS[..n], AUTH_ATTEMPT_WINDOW + 1, 2 * AUTH_ATTEMPT_WINDOW + 1) == n - 1
  {
    assert MOMENTS[..n] == MOMENTS[..n - 1] + [MOMENTS[n - 1]];
    CountStep(MOMENTS[..n - 1], MOMENTS[n - 1], AUTH_ATTEMPT_WINDOW + 1, 2 * AUTH_ATTEMPT_WINDOW + 1);
    if n > 1 { CountFrom(n - 1); }
  }

  /** A valid run of logins that records eight failures of a key in a closed ten-minute interval. */
  lemma BoundReached(ip: string)
    ensures var run, key := EightAtOnce(ip), "ip:" + ip;
            && ValidRun(run)
            && CountWithin(Failures(run, |run|, key), AUTH_ATTEMPT_WINDOW + 1, AUTH_ATTEMPT_WINDOW + 1 + AUTH_ATTEMPT_WINDOW)
               == 2 * MAX_AUTH_FAILURES - 2
  {
    var run := EightAtOnce(ip);
    EightAtOnceTimes(ip);
    assert |run| == 9 && MOMENTS[..9] == MOMENTS;
    hide EightAtOnce, Guesses, RemainingLock, Failures, ValidRun, CountWithin;
    GuessesValid(run, ip);
    forall i | 0 <= i < 9 ensures RemainingLock(Times(run)[..i], run[i].now) == 0 {
      NotLockedYet(i);
      assert Times(run)[i] == run[i].now;
    }
    AllRecorded(run, 9, ip);
    CountFrom(9);
  }
}
