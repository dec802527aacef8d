/** The SSO assertion replay cache and the callback protocol around it
    (internal/api/auth_handlers.go). Requests interleave freely between their steps:
    read the clock and validate, Use, resolve the user and issue a token, Forget. */
module AssertionReplay {
  import opened Text
  import opened Wrappers
  import opened AssertionSignature

  type Cache = map<string, int>

  function Unexpired(c: Cache, now: int): Cache {
    map sig | sig in c && now < c[sig] :: c[sig]
  }

  predicate Accepts(c: Cache, sig: string, now: int) {
    sig != "" && sig !in Unexpired(c, now)
  }

  function Used(c: Cache, sig: string, expiresAt: int, now: int): Cache {
    if sig == "" then c
    else if Accepts(c, sig, now) then Unexpired(c, now)[sig := expiresAt]
    else Unexpired(c, now)
  }

  class SSOAssertionReplayCache {
    var signatures: Cache

    constructor ()
      ensures signatures == map[]
    {
      signatures := map[];
    }

    method Use(signature: string, expiresAt: int, now: int) returns (ok: bool)
      modifies this
      ensures ok == Accepts(old(signatures), TrimSpace(signature), now)
      ensures signatures == Used(old(signatures), TrimSpace(signature), expiresAt, now)
    {
      var sig := TrimSpace(signature);
      if sig == "" { return false; }
      var rest := signatures.Keys;
      while rest != {}
        invariant rest <= signatures.Keys <= old(signatures).Keys
        invariant forall k :: k in signatures ==> signatures[k] == old(signatures)[k]
        invariant forall k :: k in old(signatures) && k !in rest ==> (k in signatures <==> now < old(signatures)[k])
        decreases rest
      {
        var existing :| existing in rest;
        rest := rest - {existing};
        if !(now < signatures[existing]) { signatures := signatures - {existing}; }
      }
      assert signatures == Unexpired(old(signatures), now);
      if sig in signatures { return false; }
      signatures := signatures[sig := expiresAt];
      return true;
    }

    method Forget(signature: string)
      modifies this
      ensures signatures == old(signatures) - (if TrimSpace(signature) == "" then {} else {TrimSpace(signature)})
    {
      var sig := TrimSpace(signature);
      if sig == "" { return; }
      signatures := signatures - {sig};
    }
  }

  // The callback protocol

  /** Where a callback request stands. It holds the text of its signature from a successful Use
      on, until it has failed and forgotten it; a request that succeeds holds it for good. */
  datatype Phase = Validated | Holding | Failing | Succeeded | Rejected
  datatype Request = Request(sig: string, expiresAt: int, now: int, phase: Phase)

  /** For each text, `owner` is the request whose Use entered it last, if no Forget of the text has
      come since, and `latest` the latest clock reading of a Use, of any text, from that Use on. */
  datatype State = State(cache: Cache, requests: map<nat, Request>, owner: map<string, nat>, latest: map<string, int>)

  const INITIAL := State(map[], map[], map[], map[])

  datatype Step =
    | Arrive(id: nat, text: string, expiresAt: int, now: int, valid: bool)  // `valid`: the other checks
    | UseStep(id: nat)
    | Resolve(id: nat, ok: bool)
    | ForgetStep(id: nat)

  predicate Holds(r: Request) { r.phase.Holding? || r.phase.Failing? || r.phase.Succeeded? }

  predicate Enabled(s: State, step: Step) {
    match step
    case Arrive(id, _, _, _, _) => id !in s.requests
    case UseStep(id) => id in s.requests && s.requests[id].phase.Validated?
    case Resolve(id, _) => id in s.requests && s.requests[id].phase.Holding?
    case ForgetStep(id) => id in s.requests && s.requests[id].phase.Failing?
  }

  /** ValidatePlatformSSOAssertion: the expiry is compared as it is presented, the signature
      covers its second. */
  predicate Validates(signed: Signed, text: string, expiresAt: int, now: int) {
    now < expiresAt && Covers(signed, text, expiresAt)
  }

  function Later(a: int, b: int): int { if a > b then a else b }

  /** A step that is not enabled does nothing. */
  function Next(signed: Signed, s: State, step: Step): State {
    if !Enabled(s, step) then s
    else match step
      case Arrive(id, text, expiresAt, now, valid) =>
        var phase := if valid && Validates(signed, text, expiresAt, now) then Validated else Rejected;
        s.(requests := s.requests[id := Request(TrimSpace(text), expiresAt, now, phase)])
      case UseStep(id) =>
        var r := s.requests[id];
        var ok := Accepts(s.cache, r.sig, r.now);
        var latest := map sig | sig in s.latest :: Later(s.latest[sig], r.now);
        State(Used(s.cache, r.sig, r.expiresAt, r.now),
              s.requests[id := r.(phase := if ok then Holding else Rejected)],
              if ok then s.owner[r.sig := id] else s.owner,
              if ok then latest[r.sig := r.now] else latest)
      case Resolve(id, ok) =>
        s.(requests := s.requests[id := s.requests[id].(phase := if ok then Succeeded else Failing)])
      case ForgetStep(id) =>
        var r := s.requests[id];
        s.(cache := s.cache - {r.sig}, requests := s.requests[id := r.(phase := Rejected)], owner := s.owner - {r.sig})
  }

  /** The steps are those of the handlers: a request enters with its signature text trimmed, and its
      Use and its Forget move the cache, and answer, as Next says. */
  method Perform(cache: SSOAssertionReplayCache, ghost signed: Signed, ghost s: State, step: Step,
                 text: string, expiresAt: int, now: int) returns (ok: bool)
    requires cache.signatures == s.cache && "" !in s.cache && Enabled(s, step)
    requires step.Arrive? ==> step.text == text
    requires !step.Arrive? ==> var r := s.requests[step.id]; r.sig == TrimSpace(text) && r.expiresAt == expiresAt && r.now == now
    modifies cache
    ensures cache.signatures == Next(signed, s, step).cache && "" !in cache.signatures
    ensures Next(signed, s, step).requests[step.id].sig == TrimSpace(text)
    ensures step.UseStep? ==> ok == Next(signed, s, step).requests[step.id].phase.Holding?
  {
    hide TrimSpace;
    ok := false;
    if step.UseStep? { ok := cache.Use(text, expiresAt, now); }
    if step.ForgetStep? {
      ok := true;
      cache.Forget(text);
    }
  }

  function After(signed: Signed, steps: seq<Step>): State {
    if steps == [] then INITIAL else Next(signed, After(signed, steps[..|steps| - 1]), steps[|steps| - 1])
  }

  /** A Use of a held text comes late if some Use since the holder's, this one included, has
      read the clock at or after the expiry that the holder presented. */
  predicate Late(s: State, step: Step, sig: string) {
    && step.UseStep? && Enabled(s, step) && s.requests[step.id].sig == sig
    && sig in s.owner && sig in s.latest && s.owner[sig] in s.requests
    && var holder := s.requests[s.owner[sig]];
    && Holds(holder) && holder.sig == sig
    && Later(s.latest[sig], s.requests[step.id].now) >= holder.expiresAt
  }

  ghost predicate NeverLate(signed: Signed, steps: seq<Step>, sig: string) {
    forall n :: 0 <= n < |steps| ==> !Late(After(signed, steps[..n]), steps[n], sig)
  }

  ghost predicate TwoHold(s: State, sig: string) {
    exists i, j :: i in s.requests && j in s.requests && i != j && HoldsSig(s.requests[i], sig) && HoldsSig(s.requests[j], sig)
  }

  predicate HoldsSig(r: Request, sig: string) { Holds(r) && r.sig == sig }

  // After every run

  /** A request that waits for its Use has not expired by its own clock reading. */
  ghost predicate Waiting(s: State) {
    forall i :: i in s.requests && s.requests[i].phase.Validated? ==>
      s.requests[i].sig != "" && s.requests[i].now < s.requests[i].expiresAt
  }

  /** The cache holds a text exactly while it has an owner whose expiry no Use since has read,
      and then with that expiry. */
  ghost predicate Matches(s: State, sig: string) {
    && (sig in s.owner ==> sig in s.latest && s.owner[sig] in s.requests && HoldsSig(s.requests[s.owner[sig]], sig))
    && (sig in s.cache <==> sig in s.owner && s.latest[sig] < s.requests[s.owner[sig]].expiresAt)
    && (sig in s.cache ==> s.cache[sig] == s.requests[s.owner[sig]].expiresAt)
  }

  lemma MatchesOther(signed: Signed, s: State, step: Step, sig: string)
    requires Matches(s, sig) && Waiting(s) && !step.UseStep?
    ensures Matches(Next(signed, s, step), sig) && Waiting(Next(signed, s, step))
  {}

  lemma MatchesUse(signed: Signed, s: State, step: Step, sig: string)
    requires Matches(s, sig) && Waiting(s) && step.UseStep?
    ensures Matches(Next(signed, s, step), sig) && Waiting(Next(signed, s, step))
  {}

  lemma {:induction false} CacheMatchesHistory(signed: Signed, steps: seq<Step>, sig: string)
    ensures Matches(After(signed, steps), sig) && Waiting(After(signed, steps))
  {
    if steps == [] { return; }
    var init, step := steps[..|steps| - 1], steps[|steps| - 1];
    hide Matches, Waiting, Next;
    CacheMatchesHistory(signed, init, sig);
    if step.UseStep? {
      MatchesUse(signed, After(signed, init), step, sig);
    } else {
      MatchesOther(signed, After(signed, init), step, sig);
    }
  }

  /** Exactly when a Use succeeds, after any run: when nobody has entered its text, when a Forget
      of the text has come since, or when some Use since, this one included, has read the clock at
      or after the expiry of the request that entered it last. */
  lemma AcceptedIff(signed: Signed, steps: seq<Step>, id: nat)
    requires Enabled(After(signed, steps), UseStep(id))
    ensures var s := After(signed, steps);
            var r := s.requests[id];
            && (r.sig in s.owner ==> r.sig in s.latest && s.owner[r.sig] in s.requests && HoldsSig(s.requests[s.owner[r.sig]], r.sig))
            && (Next(signed, s, UseStep(id)).requests[id].phase.Holding? <==>
                  r.sig !in s.owner || Later(s.latest[r.sig], r.now) >= s.requests[s.owner[r.sig]].expiresAt)
  {
    CacheMatchesHistory(signed, steps, After(signed, steps).requests[id].sig);
  }

  /** In particular, a text that nobody holds is accepted. */
  lemma FirstUseAccepted(signed: Signed, steps: seq<Step>, id: nat)
    requires Enabled(After(signed, steps), UseStep(id))
    requires var s := After(signed, steps); forall i :: i in s.requests ==> !HoldsSig(s.requests[i], s.requests[id].sig)
    ensures Next(signed, After(signed, steps), UseStep(id)).requests[id].phase.Holding?
  {
    hide After, Next;
    AcceptedIff(signed, steps, id);
  }

  // As long as no Use is late

  /** One text's holder owns it. */
  ghost predicate Held(s: State, sig: string) {
    forall i :: i in s.requests && HoldsSig(s.requests[i], sig) ==> sig in s.owner && s.owner[sig] == i
  }

  ghost predicate Inv(s: State, sig: string) {
    Held(s, sig) && Matches(s, sig) && Waiting(s)
  }

  lemma InvArrive(signed: Signed, s: State, step: Step, sig: string)
    requires Inv(s, sig) && step.Arrive?
    ensures Inv(Next(signed, s, step), sig)
  {}

  lemma InvResolve(signed: Signed, s: State, step: Step, sig: string)
    requires Inv(s, sig) && step.Resolve?
    ensures Inv(Next(signed, s, step), sig)
  {}

  lemma InvForget(signed: Signed, s: State, step: Step, sig: string)
    requires Inv(s, sig) && step.ForgetStep?
    ensures Inv(Next(signed, s, step), sig)
  {}

  lemma InvUse(signed: Signed, s: State, step: Step, sig: string)
    requires Inv(s, sig) && step.UseStep? && !Late(s, step, sig)
    ensures Inv(Next(signed, s, step), sig)
  {}

  lemma {:induction false} InvKept(signed: Signed, steps: seq<Step>, sig: string)
    requires NeverLate(signed, steps, sig)
    ensures Inv(After(signed, steps), sig)
  {
    if steps == [] { return; }
    var init, step := steps[..|steps| - 1], steps[|steps| - 1];
    assert steps[..|init|] == init;
    assert !Late(After(signed, init), step, sig);
    assert forall n :: 0 <= n < |init| ==> steps[..n] == init[..n] && steps[n] == init[n];
    hide Inv, Next, Late;
    InvKept(signed, init, sig);
    match step
    case UseStep(_) => InvUse(signed, After(signed, init), step, sig);
    case ForgetStep(_) => InvForget(signed, After(signed, init), step, sig);
    case Arrive(_, _, _, _, _) => InvArrive(signed, After(signed, init), step, sig);
    case Resolve(_, _) => InvResolve(signed, After(signed, init), step, sig);
  }

  /** At most one callback of a text succeeds, if no Use of that text comes late. */
  lemma SingleUse(signed: Signed, steps: seq<Step>, i: nat, j: nat)
    requires var rs := After(signed, steps).requests;
             i in rs && rs[i].phase.Succeeded? && j in rs && rs[j].phase.Succeeded? && rs[i].sig == rs[j].sig
    requires NeverLate(signed, steps, After(signed, steps).requests[i].sig)
    ensures i == j
  {
    InvKept(signed, steps, After(signed, steps).requests[i].sig);
  }

  /** As long as no Use of a text has been late, it is accepted again exactly when its Use is. */
  lemma ReplayAcceptedIffLate(signed: Signed, steps: seq<Step>, holder: nat, replay: nat)
    requires holder in After(signed, steps).requests && Enabled(After(signed, steps), UseStep(replay))
    requires HoldsSig(After(signed, steps).requests[holder], After(signed, steps).requests[replay].sig)
    requires NeverLate(signed, steps, After(signed, steps).requests[replay].sig)
    ensures var s := After(signed, steps);
            var sig := s.requests[replay].sig;
            && sig in s.latest
            && (Next(signed, s, UseStep(replay)).requests[replay].phase.Holding?
                <==> Later(s.latest[sig], s.requests[replay].now) >= s.requests[holder].expiresAt)
            && (Late(s, UseStep(replay), sig) <==> Later(s.latest[sig], s.requests[replay].now) >= s.requests[holder].expiresAt)
  {
    InvKept(signed, steps, After(signed, steps).requests[replay].sig);
  }

  lemma {:induction false} FirstLate(signed: Signed, steps: seq<Step>, sig: string) returns (n: nat)
    requires !NeverLate(signed, steps, sig)
    ensures n < |steps| && Late(After(signed, steps[..n]), steps[n], sig) && NeverLate(signed, steps[..n], sig)
    decreases |steps|
  {
    n :| 0 <= n < |steps| && Late(After(signed, steps[..n]), steps[n], sig);
    var before := steps[..n];
    hide Late, After;
    if !NeverLate(signed, before, sig) {
      n := FirstLate(signed, before, sig);
      assert before[..n] == steps[..n];
    }
  }

  lemma LateDoubles(signed: Signed, s: State, step: Step, sig: string)
    requires Inv(s, sig) && Late(s, step, sig)
    ensures TwoHold(Next(signed, s, step), sig)
  {
    var next := Next(signed, s, step);
    assert HoldsSig(next.requests[step.id], sig) && HoldsSig(next.requests[s.owner[sig]], sig);
  }

  lemma OneHolder(s: State, sig: string)
    requires Inv(s, sig)
    ensures !TwoHold(s, sig)
  {}

  /** Some state of a run has two requests holding one text exactly if some Use of that text
      comes late. Uses of other texts, late or not, do not matter. */
  lemma TwoHoldIffLate(signed: Signed, steps: seq<Step>, sig: string)
    ensures (exists n :: 0 <= n <= |steps| && TwoHold(After(signed, steps[..n]), sig)) <==> !NeverLate(signed, steps, sig)
  {
    hide After, Next, Late, TwoHold, Inv;
    if NeverLate(signed, steps, sig) {
      forall n | 0 <= n <= |steps| ensures !TwoHold(After(signed, steps[..n]), sig) {
        NeverLatePrefix(signed, steps, n, sig);
        InvKept(signed, steps[..n], sig);
        OneHolder(After(signed, steps[..n]), sig);
      }
    } else {
      var n := FirstLate(signed, steps, sig);
      InvKept(signed, steps[..n], sig);
      LateDoubles(signed, After(signed, steps[..n]), steps[n], sig);
      AfterStep(signed, steps[..n], steps[n]);
      assert steps[..n + 1] == steps[..n] + [steps[n]];
    }
  }

  lemma NeverLatePrefix(signed: Signed, steps: seq<Step>, n: nat, sig: string)
    requires n <= |steps| && NeverLate(signed, steps, sig)
    ensures NeverLate(signed, steps[..n], sig)
  {
    hide Late, After;
    assert forall k :: 0 <= k < n ==> steps[..n][..k] == steps[..k];
  }

  lemma AfterStep(signed: Signed, steps: seq<Step>, step: Step)
    ensures After(signed, steps + [step]) == Next(signed, After(signed, steps), step)
  {
    assert (steps + [step])[..|steps|] == steps;
  }

  /** A Forget finds its own entry or none. */
  lemma ForgetRemovesOwnEntry(signed: Signed, steps: seq<Step>, id: nat)
    requires Enabled(After(signed, steps), ForgetStep(id))
    requires NeverLate(signed, steps, After(signed, steps).requests[id].sig)
    ensures var s := After(signed, steps);
            var sig := s.requests[id].sig;
            sig in s.cache ==> sig in s.owner && s.owner[sig] == id
  {
    InvKept(signed, steps, After(signed, steps).requests[id].sig);
  }

  // In the order of the clock

  lemma DecodeTrimmed(text: string)
    ensures DecodeSignature(TrimSpace(text)) == DecodeSignature(text)
  {
    TrimSpaceTrimmed(text);
    TrimSpaceOfTrimmed(TrimSpace(text));
  }

  ghost predicate AllCovered(signed: Signed, s: State) {
    forall i :: i in s.requests && !s.requests[i].phase.Rejected? ==> Covers(signed, s.requests[i].sig, s.requests[i].expiresAt)
  }

  lemma CoveredNext(signed: Signed, s: State, step: Step)
    requires AllCovered(signed, s)
    ensures AllCovered(signed, Next(signed, s, step))
  {
    if step.Arrive? { DecodeTrimmed(step.text); }
    hide DecodeSignature, TrimSpace, Second;
  }

  lemma {:induction false} CoveredKept(signed: Signed, steps: seq<Step>)
    ensures AllCovered(signed, After(signed, steps))
  {
    if steps != [] {
      CoveredKept(signed, steps[..|steps| - 1]);
      CoveredNext(signed, After(signed, steps[..|steps| - 1]), steps[|steps| - 1]);
    }
  }

  lemma WithinSecond(a: int, b: int, now: int)
    requires Second(a) == Second(b) && a <= now < b
    ensures Second(now) == Second(a) && a < b
  {}

  /** When Uses read the clock in order, a held text is accepted again exactly if the clock has
      passed the expiry that its holder presented. That takes a later expiry and happens within
      the signed second only; presenting the same expiry is refused. */
  lemma InOrderReplay(signed: Signed, steps: seq<Step>, holder: nat, replay: nat)
    requires holder in After(signed, steps).requests && Enabled(After(signed, steps), UseStep(replay))
    requires HoldsSig(After(signed, steps).requests[holder], After(signed, steps).requests[replay].sig)
    requires NeverLate(signed, steps, After(signed, steps).requests[replay].sig)
    requires var s := After(signed, steps);
             var sig := s.requests[replay].sig; sig in s.latest ==> s.latest[sig] <= s.requests[replay].now
    ensures var s := After(signed, steps);
            var h, r := s.requests[holder], s.requests[replay];
            var accepted := Next(signed, s, UseStep(replay)).requests[replay].phase.Holding?;
            && (accepted <==> h.expiresAt <= r.now)
            && (accepted ==> h.expiresAt < r.expiresAt && Second(h.expiresAt) == Second(r.now) == Second(r.expiresAt))
            && (h.expiresAt == r.expiresAt ==> !accepted)
  {
    hide After, Next, Second, DecodeSignature, Late, NeverLate;
    var s := After(signed, steps);
    InvKept(signed, steps, s.requests[replay].sig);
    CoveredKept(signed, steps);
    ReplayAcceptedIffLate(signed, steps, holder, replay);
    var h, r := s.requests[holder], s.requests[replay];
    assert r.now < r.expiresAt && Second(h.expiresAt) == Second(r.expiresAt);
    if h.expiresAt <= r.now { WithinSecond(h.expiresAt, r.expiresAt, r.now); }
  }

  /** Two successes of one signature without a late Use come from different texts of it. */
  lemma TextsOfOneSignature(signed: Signed, steps: seq<Step>, i: nat, j: nat)
    requires var rs := After(signed, steps).requests;
             i in rs && rs[i].phase.Succeeded? && j in rs && rs[j].phase.Succeeded? && i != j
             && DecodeSignature(rs[i].sig) == DecodeSignature(rs[j].sig)
    requires NeverLate(signed, steps, After(signed, steps).requests[i].sig)
    ensures After(signed, steps).requests[i].sig != After(signed, steps).requests[j].sig
  {
    hide *;
    if After(signed, steps).requests[i].sig == After(signed, steps).requests[j].sig { SingleUse(signed, steps, i, j); }
  }
}
