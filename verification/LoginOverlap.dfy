/** Overlapping logins do exceed the bound for logins one after another: of k logins that are all
    checked before any of them is recorded, all are recorded. */
module LoginOverlap {
  import opened LockoutLimiter
  import opened LoginRaces
  import opened Timeline
  import LoginRuns

  function Ids(from: nat, until: nat): map<nat, int>
    decreases until
  {
    if from < until then Ids(from, until - 1)[until - 1 := 1] else map[]
  }

  function Ones(n: nat): seq<int> { seq(n, i => 1) }

  /** After n failures at instant 1. */
  function Charged(n: nat): AuthAttempt {
    if n == 0 then NO_ATTEMPT
    else AuthAttempt(n, 1, if n >= MAX_AUTH_FAILURES then 1 + AUTH_ATTEMPT_LOCKOUT else 0)
  }

  function Stage(waiting: map<nat, int>, admitted: map<nat, int>, failed: nat): State {
    State(Charged(failed), waiting, admitted, 1, Ones(failed))
  }

  /** A run that leads to the state with at most k logins in flight, and none at instant 1. */
  ghost predicate Leads(steps: seq<Step>, k: nat, s: State) {
    AtMost(steps, k) && After(steps) == s && InFlightAt(steps, 1) == 0
  }

  lemma OneStep(steps: seq<Step>, k: nat, s: State, step: Step)
    requires Leads(steps, k, s) && InFlight(Next(s, step)) <= k && s.clock == 1
    ensures Leads(steps + [step], k, Next(s, step))
  {
    var all := steps + [step];
    assert all[..|steps|] == steps;
    assert Next(s, step).clock >= 1;
    InFlightAtStep(all, 1);
    hide Next, InFlight;
    assert After(all) == Next(s, step);
    forall n | 0 <= n <= |all| ensures InFlight(After(all[..n])) <= k {
      if n <= |steps| { assert all[..n] == steps[..n]; } else { assert all[..n] == all; }
    }
  }

  lemma {:induction false} IdsHold(from: nat, until: nat, id: nat)
    ensures id in Ids(from, until) <==> from <= id < until
    ensures id in Ids(from, until) ==> Ids(from, until)[id] == 1
    decreases until
  {
    if from < until { IdsHold(from, until - 1, id); }
  }

  lemma {:induction false} IdsSize(from: nat, until: nat)
    requires from <= until
    ensures |Ids(from, until)| == until - from
    decreases until
  {
    if from < until {
      IdsSize(from, until - 1);
      IdsHold(from, until - 1, until - 1);
      Smallest(Ids(from, until), until - 1);
      assert Ids(from, until) - {until - 1} == Ids(from, until - 1);
    }
  }

  lemma {:induction false} DropFirst(from: nat, until: nat)
    requires from < until
    ensures Ids(from, until) - {from} == Ids(from + 1, until)
    decreases until
  {
    if from + 1 < until {
      DropFirst(from, until - 1);
      LastOfIds(from, until);
      LastOfIds(from + 1, until);
      hide Ids;
      OtherKey(Ids(from, until - 1), from, until - 1);
    } else {
      assert Ids(from, from) == map[] && Ids(from, until) == map[from := 1];
    }
  }

  lemma LastOfIds(from: nat, until: nat)
    requires from < until
    ensures Ids(from, until) == Ids(from, until - 1)[until - 1 := 1]
  {}

  lemma OtherKey(m: map<nat, int>, gone: nat, added: nat)
    requires gone != added
    ensures m[added := 1] - {gone} == (m - {gone})[added := 1]
  {}

  /** The logins from one to the next, when the first leaves, and when another comes. */
  lemma IdsFacts(from: nat, until: nat)
    requires from <= until
    ensures |Ids(from, until)| == until - from
    ensures from < until ==> Ids(from, until) - {from} == Ids(from + 1, until) && from in Ids(from, until) && Ids(from, until)[from] == 1
    ensures Ids(from, until)[until := 1] == Ids(from, until + 1) && until !in Ids(from, until)
    ensures Ids(from, from) == map[]
  {
    IdsSize(from, until);
    IdsHold(from, until, until);
    IdsHold(from, until, from);
    if from < until { DropFirst(from, until); }
  }

  predicate CanFail(n: nat) { n < MAX_AUTH_FAILURES }

  lemma FourCanFail()
    ensures CanFail(4) && AUTH_ATTEMPT_WINDOW > 0
  {}

  lemma OnesStep(n: nat)
    ensures Ones(n) + [1] == Ones(n + 1) && Ones(0) == []
  {}

  lemma ChargedStep(n: nat)
    ensures LoginRuns.Cleaned(Charged(n), 1) == Charged(n) && Failed(Charged(n), 1) == Charged(n + 1)
    ensures n < MAX_AUTH_FAILURES ==> Wait(Charged(n), 1) == 0
  {}

  lemma ReadStep(waiting: map<nat, int>, admitted: map<nat, int>, failed: nat, id: nat)
    requires id !in waiting && id !in admitted
    ensures Next(Stage(waiting, admitted, failed), Read(id, 1)) == Stage(waiting[id := 1], admitted, failed)
  {}

  lemma CheckStep(waiting: map<nat, int>, admitted: map<nat, int>, failed: nat, id: nat)
    requires id in waiting && waiting[id] == 1 && CanFail(failed)
    ensures Next(Stage(waiting, admitted, failed), Check(id, true)) == Stage(waiting - {id}, admitted[id := 1], failed)
  {
    ChargedStep(failed);
    hide Charged, LoginRuns.Cleaned, Wait;
  }

  lemma FailStep(waiting: map<nat, int>, admitted: map<nat, int>, failed: nat, id: nat)
    requires id in admitted && admitted[id] == 1
    ensures Next(Stage(waiting, admitted, failed), Fail(id)) == Stage(waiting, admitted - {id}, failed + 1)
  {
    ChargedStep(failed);
    OnesStep(failed);
    hide Charged, LoginRuns.Cleaned, Failed, Ones;
  }

  lemma StageSize(waiting: map<nat, int>, admitted: map<nat, int>, failed: nat)
    ensures InFlight(Stage(waiting, admitted, failed)) == |waiting| + |admitted|
    ensures Stage(waiting, admitted, failed).clock == 1
  {}

  lemma {:induction false} Reads(k: nat, failed: nat, n: nat, j: nat, start: seq<Step>) returns (steps: seq<Step>)
    requires j <= n <= k && Leads(start, k, Stage(map[], map[], failed))
    ensures Leads(steps, k, Stage(Ids(0, j), map[], failed))
  {
    hide *;
    IdsFacts(0, j);
    if j == 0 { return start; }
    steps := Reads(k, failed, n, j - 1, start);
    IdsFacts(0, j - 1);
    ReadStep(Ids(0, j - 1), map[], failed, j - 1);
    StageSize(Ids(0, j), map[], failed);
    StageSize(Ids(0, j - 1), map[], failed);
    OneStep(steps, k, Stage(Ids(0, j - 1), map[], failed), Read(j - 1, 1));
    steps := steps + [Read(j - 1, 1)];
  }

  lemma {:induction false} Checks(k: nat, failed: nat, n: nat, j: nat, start: seq<Step>) returns (steps: seq<Step>)
    requires j <= n <= k && CanFail(failed) && Leads(start, k, Stage(Ids(0, n), map[], failed))
    ensures Leads(steps, k, Stage(Ids(j, n), Ids(0, j), failed))
  {
    hide *;
    IdsFacts(j, n);
    IdsFacts(0, j);
    if j == 0 { return start; }
    steps := Checks(k, failed, n, j - 1, start);
    IdsFacts(j - 1, n);
    IdsFacts(0, j - 1);
    CheckStep(Ids(j - 1, n), Ids(0, j - 1), failed, j - 1);
    StageSize(Ids(j, n), Ids(0, j), failed);
    StageSize(Ids(j - 1, n), Ids(0, j - 1), failed);
    OneStep(steps, k, Stage(Ids(j - 1, n), Ids(0, j - 1), failed), Check(j - 1, true));
    steps := steps + [Check(j - 1, true)];
  }

  /** The first of the logins from one to the next fails. */
  lemma OneFails(k: nat, failed: nat, from: nat, n: nat, start: seq<Step>)
    requires from < n <= k && Leads(start, k, Stage(map[], Ids(from, n), failed))
    ensures Leads(start + [Fail(from)], k, Stage(map[], Ids(from + 1, n), failed + 1))
  {
    hide *;
    IdsFacts(from, n);
    IdsFacts(from + 1, n);
    FailStep(map[], Ids(from, n), failed, from);
    StageSize(map[], Ids(from + 1, n), failed + 1);
    StageSize(map[], Ids(from, n), failed);
    OneStep(start, k, Stage(map[], Ids(from, n), failed), Fail(from));
  }

  lemma {:induction false} Fails(k: nat, failed: nat, from: nat, n: nat, start: seq<Step>) returns (steps: seq<Step>)
    requires from <= n <= k && Leads(start, k, Stage(map[], Ids(from, n), failed))
    ensures Leads(steps, k, Stage(map[], Ids(n, n), failed + (n - from)))
    decreases n - from
  {
    hide *;
    if from == n { return start; }
    OneFails(k, failed, from, n, start);
    steps := Fails(k, failed + 1, from + 1, n, start + [Fail(from)]);
  }

  /** If n logins are all checked before any of them is recorded, all of them are recorded. */
  lemma Together(k: nat, failed: nat, n: nat, start: seq<Step>) returns (steps: seq<Step>)
    requires n <= k && CanFail(failed) && Leads(start, k, Stage(map[], map[], failed))
    ensures Leads(steps, k, Stage(map[], map[], failed + n))
  {
    IdsFacts(n, n);
    hide *;
    steps := Reads(k, failed, n, n, start);
    steps := Checks(k, failed, n, n, steps);
    steps := Fails(k, failed, 0, n, steps);
  }

  /** Guesses one after another, until one more locks the key. */
  lemma {:induction false} OneByOne(k: nat, n: nat) returns (steps: seq<Step>)
    requires 0 < k && CanFail(n)
    ensures Leads(steps, k, Stage(map[], map[], n))
  {
    if n == 0 {
      steps := [Elsewhere(1)];
      FirstReading(k);
      return;
    }
    steps := OneByOne(k, n - 1);
    steps := Together(k, n - 1, 1, steps);
  }

  lemma FirstReading(k: nat)
    ensures Leads([Elsewhere(1)], k, Stage(map[], map[], 0))
  {
    var steps := [Elsewhere(1)];
    assert steps[..0] == [] && steps[..1] == steps;
    assert After(steps) == Next(After(steps[..0]), Elsewhere(1));
    InFlightAtStep(steps, 1);
    InFlightAtStep([], 1);
    OnesStep(0);
  }

  lemma {:induction false} CountOnes(n: nat, lo: int, hi: int)
    requires lo <= 1 <= hi
    ensures CountWithin(Ones(n), lo, hi) == n
  {
    if n > 0 {
      CountOnes(n - 1, lo, hi);
      OnesStep(n - 1);
      OneMore(Ones(n - 1), 1, lo, hi);
    }
  }

  lemma Failures(steps: seq<Step>, k: nat, n: nat)
    requires Leads(steps, k, Stage(map[], map[], n))
    ensures AtMost(steps, k) && InFlightAt(steps, 1) == 0 && After(steps).failures == Ones(n)
  {}

  /** For every k, a run with at most k logins in flight that records k + 4 failures at one
      instant, when none was in flight before. */
  lemma OverlapReached(k: nat) returns (steps: seq<Step>)
    requires k > 0
    ensures AtMost(steps, k) && InFlightAt(steps, 1) == 0
    ensures CountWithin(After(steps).failures, 1, 1 + AUTH_ATTEMPT_WINDOW) == k + 4
  {
    FourCanFail();
    hide *;
    steps := OneByOne(k, 4);
    steps := Together(k, 4, k, steps);
    CountOnes(4 + k, 1, 1 + AUTH_ATTEMPT_WINDOW);
    Failures(steps, k, 4 + k);
  }
}
