/** Runs of SSO callbacks in which one signature succeeds twice. Each meets one of the two
    conditions that the theorems about the replay cache name: a late Use, or a second text. */
module AssertionReplayRuns {
  import opened Text
  import opened AssertionSignature
  import opened AssertionReplay

  /** A callback that runs from its arrival to its success with nothing in between. */
  function Callback(id: nat, text: string, expiresAt: int, now: int): seq<Step> {
    [Arrive(id, text, expiresAt, now, true), UseStep(id), Resolve(id, true)]
  }

  ghost predicate Succeeds(s: State, id: nat, sig: string) {
    id in s.requests && s.requests[id].phase.Succeeded? && s.requests[id].sig == sig
  }

  /** Requests arrive in the order of their clock readings. */
  ghost predicate ArrivalsInOrder(steps: seq<Step>) {
    forall i, j :: 0 <= i < j < |steps| && steps[i].Arrive? && steps[j].Arrive? ==> steps[i].now <= steps[j].now
  }

  function Advanced(latest: map<string, int>, now: int): map<string, int> {
    map sig | sig in latest :: Later(latest[sig], now)
  }

  lemma CallbackSucceeds(signed: Signed, steps: seq<Step>, id: nat, text: string, expiresAt: int, now: int)
    requires id !in After(signed, steps).requests && Validates(signed, text, expiresAt, now)
    requires Accepts(After(signed, steps).cache, TrimSpace(text), now)
    ensures var s, sig := After(signed, steps), TrimSpace(text);
            After(signed, steps + Callback(id, text, expiresAt, now))
            == State(Unexpired(s.cache, now)[sig := expiresAt], s.requests[id := Request(sig, expiresAt, now, Succeeded)],
                     s.owner[sig := id], Advanced(s.latest, now)[sig := now])
  {
    hide *;
    var arrive := Arrive(id, text, expiresAt, now, true);
    AfterStep(signed, steps, arrive);
    AfterStep(signed, steps + [arrive], UseStep(id));
    AfterStep(signed, steps + [arrive] + [UseStep(id)], Resolve(id, true));
    CallbackSteps(steps, id, text, expiresAt, now);
    var s, sig := After(signed, steps), TrimSpace(text);
    ArriveNext(signed, s, id, text, expiresAt, now);
    var arrived := s.(requests := s.requests[id := Request(sig, expiresAt, now, Validated)]);
    UseNext(signed, arrived, id);
    var used := Next(signed, arrived, UseStep(id));
    ResolveNext(signed, used, id);
    assert s.requests[id := Request(sig, expiresAt, now, Validated)][id := Request(sig, expiresAt, now, Holding)]
        == s.requests[id := Request(sig, expiresAt, now, Holding)];
    assert s.requests[id := Request(sig, expiresAt, now, Holding)][id := Request(sig, expiresAt, now, Succeeded)]
        == s.requests[id := Request(sig, expiresAt, now, Succeeded)];
  }

  lemma ArriveNext(signed: Signed, s: State, id: nat, text: string, expiresAt: int, now: int)
    requires id !in s.requests && Validates(signed, text, expiresAt, now)
    ensures Next(signed, s, Arrive(id, text, expiresAt, now, true))
            == s.(requests := s.requests[id := Request(TrimSpace(text), expiresAt, now, Validated)])
  {
    hide Validates, TrimSpace;
  }

  lemma UseNext(signed: Signed, s: State, id: nat)
    requires id in s.requests && s.requests[id].phase.Validated? && Accepts(s.cache, s.requests[id].sig, s.requests[id].now)
    ensures var r := s.requests[id];
            Next(signed, s, UseStep(id))
            == State(Unexpired(s.cache, r.now)[r.sig := r.expiresAt], s.requests[id := r.(phase := Holding)],
                     s.owner[r.sig := id], Advanced(s.latest, r.now)[r.sig := r.now])
  {
    hide Unexpired;
  }

  lemma ResolveNext(signed: Signed, s: State, id: nat)
    requires id in s.requests && s.requests[id].phase.Holding?
    ensures Next(signed, s, Resolve(id, true)) == s.(requests := s.requests[id := s.requests[id].(phase := Succeeded)])
  {}

  lemma NeverLateStep(signed: Signed, steps: seq<Step>, step: Step, sig: string)
    requires NeverLate(signed, steps, sig) && !Late(After(signed, steps), step, sig)
    ensures NeverLate(signed, steps + [step], sig)
  {
    var all := steps + [step];
    hide Late, After;
    forall n | 0 <= n < |all| ensures !Late(After(signed, all[..n]), all[n], sig) {
      if n < |steps| { assert all[..n] == steps[..n]; } else { assert all[..n] == steps; }
    }
  }

  lemma NeverLateCallback(signed: Signed, steps: seq<Step>, id: nat, text: string, expiresAt: int, now: int, sig: string)
    requires NeverLate(signed, steps, sig) && id !in After(signed, steps).requests
    requires TrimSpace(text) != sig || sig !in After(signed, steps).owner
    ensures NeverLate(signed, steps + Callback(id, text, expiresAt, now), sig)
  {
    hide *;
    var arrive := Arrive(id, text, expiresAt, now, true);
    var arrived, used := steps + [arrive], steps + [arrive] + [UseStep(id)];
    AfterStep(signed, steps, arrive);
    FirstUseNotLate(signed, After(signed, steps), id, text, expiresAt, now, sig);
    OnlyUsesAreLate(After(signed, steps), arrive, sig);
    OnlyUsesAreLate(After(signed, used), Resolve(id, true), sig);
    NeverLateStep(signed, steps, arrive, sig);
    NeverLateStep(signed, arrived, UseStep(id), sig);
    NeverLateStep(signed, used, Resolve(id, true), sig);
    CallbackSteps(steps, id, text, expiresAt, now);
  }

  lemma CallbackSteps(steps: seq<Step>, id: nat, text: string, expiresAt: int, now: int)
    ensures steps + Callback(id, text, expiresAt, now)
            == steps + [Arrive(id, text, expiresAt, now, true)] + [UseStep(id)] + [Resolve(id, true)]
  {}

  lemma OnlyUsesAreLate(s: State, step: Step, sig: string)
    requires !step.UseStep?
    ensures !Late(s, step, sig)
  {}

  lemma FirstUseNotLate(signed: Signed, s: State, id: nat, text: string, expiresAt: int, now: int, sig: string)
    requires id !in s.requests && (TrimSpace(text) != sig || sig !in s.owner)
    ensures !Late(Next(signed, s, Arrive(id, text, expiresAt, now, true)), UseStep(id), sig)
  {
    hide Validates, TrimSpace;
  }

  lemma NothingBefore(signed: Signed, text: string, now: int)
    requires DecodeSignature(text).Some?
    ensures After(signed, []) == State(map[], map[], map[], map[]) && Accepts(map[], TrimSpace(text), now)
    ensures forall sig :: NeverLate(signed, [], sig)
  {}

  lemma AcceptsNew(c: Cache, sig: string, now: int)
    requires sig != "" && (sig in c ==> now >= c[sig])
    ensures Accepts(c, sig, now)
  {}

  lemma DecodedNotBlank(text: string)
    requires DecodeSignature(text).Some?
    ensures TrimSpace(text) != ""
  {}

  /** A signature that covers a later instant of its second succeeds again with that as its
      expiry, once the clock has passed the first. The callbacks do not even overlap. */
  lemma LaterExpiryReplays(signed: Signed, text: string, first: int, second: int, now: int, later: int) returns (steps: seq<Step>)
    requires Covers(signed, text, first) && Covers(signed, text, second)
    requires now < first <= later < second
    ensures steps == Callback(1, text, first, now) + Callback(2, text, second, later) && ArrivalsInOrder(steps)
    ensures var s := After(signed, steps); Succeeds(s, 1, TrimSpace(text)) && Succeeds(s, 2, TrimSpace(text))
    ensures !NeverLate(signed, steps, TrimSpace(text))
  {
    hide *;
    var sig := TrimSpace(text);
    CoversDecodes(signed, text, first);
    NothingBefore(signed, text, now);
    ValidatesNow(signed, text, first, now);
    ValidatesNow(signed, text, second, later);
    var one := [] + Callback(1, text, first, now);
    assert one == Callback(1, text, first, now);
    CallbackSucceeds(signed, [], 1, text, first, now);
    DecodedNotBlank(text);
    AcceptsNew(After(signed, one).cache, sig, later);
    CallbackSucceeds(signed, one, 2, text, second, later);
    steps := one + Callback(2, text, second, later);
    Ordered(text, first, now, text, second, later);
    Succeed(After(signed, steps), 1, sig);
    Succeed(After(signed, steps), 2, sig);
    if NeverLate(signed, steps, sig) { SingleUse(signed, steps, 1, 2); }
  }

  lemma CoversDecodes(signed: Signed, text: string, expiresAt: int)
    requires Covers(signed, text, expiresAt)
    ensures DecodeSignature(text).Some?
  {}

  lemma Ordered(text: string, expiresAt: int, now: int, other: string, otherExpiry: int, later: int)
    requires now <= later
    ensures ArrivalsInOrder(Callback(1, text, expiresAt, now) + Callback(2, other, otherExpiry, later))
  {}

  /** Another text of the signature, with a line break or without padding, say, succeeds too,
      though no Use of either text is late. */
  lemma OtherTextReplays(signed: Signed, text: string, other: string, expiresAt: int, now: int) returns (steps: seq<Step>)
    requires Covers(signed, text, expiresAt) && now < expiresAt
    requires DecodeSignature(other) == DecodeSignature(text) && TrimSpace(other) != TrimSpace(text)
    ensures steps == Callback(1, text, expiresAt, now) + Callback(2, other, expiresAt, now) && ArrivalsInOrder(steps)
    ensures var s := After(signed, steps); Succeeds(s, 1, TrimSpace(text)) && Succeeds(s, 2, TrimSpace(other))
    ensures forall sig :: NeverLate(signed, steps, sig)
  {
    hide *;
    OtherCovers(signed, text, other, expiresAt);
    CoversDecodes(signed, text, expiresAt);
    CoversDecodes(signed, other, expiresAt);
    NothingBefore(signed, text, now);
    ValidatesNow(signed, text, expiresAt, now);
    ValidatesNow(signed, other, expiresAt, now);
    var one := [] + Callback(1, text, expiresAt, now);
    assert one == Callback(1, text, expiresAt, now);
    CallbackSucceeds(signed, [], 1, text, expiresAt, now);
    DecodedNotBlank(other);
    NotAmong(TrimSpace(other), TrimSpace(text), expiresAt, now);
    AcceptsNew(After(signed, one).cache, TrimSpace(other), now);
    CallbackSucceeds(signed, one, 2, other, expiresAt, now);
    steps := one + Callback(2, other, expiresAt, now);
    forall sig ensures NeverLate(signed, steps, sig) {
      NeverLateCallback(signed, [], 1, text, expiresAt, now, sig);
      NeverLateCallback(signed, one, 2, other, expiresAt, now, sig);
    }
    Ordered(text, expiresAt, now, other, expiresAt, now);
    Succeed(After(signed, steps), 1, TrimSpace(text));
    Succeed(After(signed, steps), 2, TrimSpace(other));
  }

  lemma Succeed(s: State, id: nat, sig: string)
    requires id in s.requests && s.requests[id].phase.Succeeded? && s.requests[id].sig == sig
    ensures Succeeds(s, id, sig)
  {}

  lemma OtherCovers(signed: Signed, text: string, other: string, expiresAt: int)
    requires Covers(signed, text, expiresAt) && DecodeSignature(other) == DecodeSignature(text)
    ensures Covers(signed, other, expiresAt)
  {}

  lemma NotAmong(sig: string, other: string, expiresAt: int, now: int)
    requires sig != other
    ensures sig !in Unexpired(map[], now)[other := expiresAt]
  {}

  /** A request that read the clock before the expiry, and stalls until another callback has read
      it after, succeeds with a text that has succeeded before, even with the same expiry. */
  lemma StalledRequestReplays(
      signed: Signed, text: string, expiresAt: int, now: int, stalled: int, other: string, otherExpiry: int, later: int)
    returns (steps: seq<Step>)
    requires Covers(signed, text, expiresAt) && now <= stalled < expiresAt
    requires Covers(signed, other, otherExpiry) && expiresAt <= later < otherExpiry && TrimSpace(other) != TrimSpace(text)
    ensures steps == Callback(1, text, expiresAt, now) + [Arrive(2, text, expiresAt, stalled, true)]
                     + Callback(3, other, otherExpiry, later) + [UseStep(2), Resolve(2, true)]
    ensures ArrivalsInOrder(steps)
    ensures var s := After(signed, steps); Succeeds(s, 1, TrimSpace(text)) && Succeeds(s, 2, TrimSpace(text))
  {
    hide *;
    var arrive := Arrive(2, text, expiresAt, stalled, true);
    var one := [] + Callback(1, text, expiresAt, now);
    var arrived := one + [arrive];
    var three := arrived + Callback(3, other, otherExpiry, later);
    steps := three + [UseStep(2)] + [Resolve(2, true)];
    OrderedStalled(text, expiresAt, now, stalled, other, otherExpiry, later);
    assert one == Callback(1, text, expiresAt, now);
    assert steps == Callback(1, text, expiresAt, now) + [arrive] + Callback(3, other, otherExpiry, later) + [UseStep(2), Resolve(2, true)];
    var sig := TrimSpace(text);
    CoversDecodes(signed, text, expiresAt);
    CoversDecodes(signed, other, otherExpiry);
    DecodedNotBlank(text);
    DecodedNotBlank(other);
    NothingBefore(signed, text, now);
    ValidatesNow(signed, text, expiresAt, now);
    ValidatesNow(signed, text, expiresAt, stalled);
    ValidatesNow(signed, other, otherExpiry, later);
    CallbackSucceeds(signed, [], 1, text, expiresAt, now);
    AfterStep(signed, one, arrive);
    ArriveNext(signed, After(signed, one), 2, text, expiresAt, stalled);
    Pruned(map[], now, sig, expiresAt, later);
    NotAmong(TrimSpace(other), sig, expiresAt, now);
    AcceptsNew(After(signed, arrived).cache, TrimSpace(other), later);
    CallbackSucceeds(signed, arrived, 3, other, otherExpiry, later);
    AcceptsNew(After(signed, three).cache, sig, stalled);
    AfterStep(signed, three, UseStep(2));
    UseNext(signed, After(signed, three), 2);
    AfterStep(signed, three + [UseStep(2)], Resolve(2, true));
    ResolveNext(signed, After(signed, three + [UseStep(2)]), 2);
    Succeed(After(signed, steps), 1, sig);
    Succeed(After(signed, steps), 2, sig);
  }

  lemma ValidatesNow(signed: Signed, text: string, expiresAt: int, now: int)
    requires Covers(signed, text, expiresAt) && now < expiresAt
    ensures Validates(signed, text, expiresAt, now)
  {}

  /** An entry is gone after a Use that reads the clock at or after its expiry. */
  lemma Pruned(c: Cache, now: int, sig: string, expiresAt: int, later: int)
    requires expiresAt <= later
    ensures sig !in Unexpired(Unexpired(c, now)[sig := expiresAt], later)
  {}

  lemma OrderedStalled(text: string, expiresAt: int, now: int, stalled: int, other: string, otherExpiry: int, later: int)
    requires now <= stalled <= later
    ensures ArrivalsInOrder(Callback(1, text, expiresAt, now) + [Arrive(2, text, expiresAt, stalled, true)]
                            + Callback(3, other, otherExpiry, later) + [UseStep(2), Resolve(2, true)])
  {}
}
