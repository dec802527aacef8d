/** Traffic attribution and aggregation (internal/api/project_traffic_handlers.go), over
    real numbers. */
module Traffic {

  import opened Wrappers

  // Attribution

  datatype Owner = Owner(ref: string, route: string)

  /** A router belongs to a ref if it is the ref, or the ref and a hyphen start it. */
  predicate Owns(ref: string, router: string) {
    router == ref || ref + "-" <= router
  }

  function RouteOf(ref: string, router: string): string
    requires Owns(ref, router)
  {
    if router == ref then "root" else router[|ref| + 1..]
  }

  function SplitRouter(router: string, refs: seq<string>): Option<Owner> {
    if refs == [] then None
    else if Owns(refs[0], router) then Some(Owner(refs[0], RouteOf(refs[0], router)))
    else SplitRouter(router, refs[1..])
  }

  method SplitRouterRef(router: string, refsByLen: seq<string>) returns (owner: Option<Owner>)
    ensures owner == SplitRouter(router, refsByLen)
  {
    assert refsByLen[0..] == refsByLen;
    for i := 0 to |refsByLen|
      invariant SplitRouter(router, refsByLen) == SplitRouter(router, refsByLen[i..])
    {
      var r := refsByLen[i];
      assert refsByLen[i..][1..] == refsByLen[i + 1..];
      if router == r { return Some(Owner(r, "root")); }
      if r + "-" <= router { return Some(Owner(r, router[|r| + 1..])); }
    }
    return None;
  }

  /** What refsByLengthDesc leaves: longer refs first, ties in any order. */
  ghost predicate LengthDescending(refs: seq<string>) {
    forall i, j :: 0 <= i < j < |refs| ==> |refs[i]| >= |refs[j]|
  }

  lemma OwnersOfOneLength(a: string, b: string, router: string)
    requires Owns(a, router) && Owns(b, router) && |a| == |b|
    ensures a == b
  {
    assert a == router[..|a|] && b == router[..|b|];
  }

  /** The answer is the longest owning ref, and there is no other owner of that length. */
  lemma {:induction false} LongestOwner(router: string, refs: seq<string>)
    requires LengthDescending(refs)
    ensures SplitRouter(router, refs).None? <==> forall r :: r in refs ==> !Owns(r, router)
    ensures SplitRouter(router, refs).Some? ==>
              var o := SplitRouter(router, refs).value;
              && o.ref in refs && Owns(o.ref, router) && o.route == RouteOf(o.ref, router)
              && forall r :: r in refs && Owns(r, router) ==> |r| < |o.ref| || r == o.ref
  {
    if refs == [] { return; }
    forall r | r in refs && Owns(r, router) && Owns(refs[0], router) ensures |r| < |refs[0]| || r == refs[0] {
      if |r| == |refs[0]| { OwnersOfOneLength(r, refs[0], router); }
    }
    LongestOwner(router, refs[1..]);
  }

  /** In terms of the names: a router has no owner exactly if it is no ref and starts with no ref and
      a hyphen; otherwise its owner is the longest such ref, and its route is what follows the hyphen,
      or "root" for the ref itself. */
  lemma OwnerByName(router: string, refs: seq<string>)
    requires LengthDescending(refs)
    ensures SplitRouter(router, refs).None? <==> forall r :: r in refs ==> router != r && !(r + "-" <= router)
    ensures SplitRouter(router, refs).Some? ==>
              var o := SplitRouter(router, refs).value;
              && o.ref in refs && (router == o.ref + "-" + o.route || (router == o.ref && o.route == "root"))
              && forall r :: r in refs && (router == r || r + "-" <= router) ==> |r| < |o.ref| || r == o.ref
  {
    LongestOwner(router, refs);
  }

  /** The sort's order among refs of equal length does not matter. */
  lemma TieOrderIrrelevant(router: string, refs: seq<string>, others: seq<string>)
    requires LengthDescending(refs) && LengthDescending(others)
    requires forall r :: r in refs <==> r in others
    ensures SplitRouter(router, refs) == SplitRouter(router, others)
  {
    LongestOwner(router, refs);
    LongestOwner(router, others);
  }

  /** Ref and route rebuild the router, but for the bare ref, which reads as its "root" route. */
  lemma RouterFromOwner(router: string, refs: seq<string>)
    requires LengthDescending(refs) && SplitRouter(router, refs).Some?
    ensures var o := SplitRouter(router, refs).value;
            router == o.ref + "-" + o.route || (router == o.ref && o.route == "root")
  {
    LongestOwner(router, refs);
  }

  /** Two routers get the same answer exactly if they are equal, or one is the ref itself and
      the other the ref's route named "root". */
  lemma SameOwnerIff(x: string, y: string, refs: seq<string>)
    requires LengthDescending(refs) && SplitRouter(x, refs).Some? && SplitRouter(y, refs).Some?
    ensures SplitRouter(x, refs) == SplitRouter(y, refs) <==>
              || x == y
              || (SplitRouter(x, refs).value.ref == SplitRouter(y, refs).value.ref
                  && var r := SplitRouter(x, refs).value.ref; (x == r && y == r + "-root") || (y == r && x == r + "-root"))
  {
    RouterFromOwner(x, refs);
    RouterFromOwner(y, refs);
    LongestOwner(x, refs);
    LongestOwner(y, refs);
    var a, b := SplitRouter(x, refs).value, SplitRouter(y, refs).value;
    assert (a.ref + "-root")[|a.ref| + 1..] == "root" && a.ref + "-" <= a.ref + "-root" by { assert "-root" == "-" + "root"; }
    assert a.ref + "-" + "root" == a.ref + "-root" by { assert "-root" == "-" + "root"; }
  }

  lemma LongerOwnerExtends(ref: string, longer: string, router: string)
    requires Owns(ref, router) && Owns(longer, router) && |ref| < |longer|
    ensures ref + "-" <= longer
  {
    assert router != ref;
    assert longer == router[..|longer|];
    assert ref + "-" == router[..|ref| + 1] == longer[..|ref| + 1];
  }

  /** Where a view over some of the refs attributes a router, the view over all does the same. */
  ghost predicate ViewAgrees(visible: seq<string>, refs: seq<string>) {
    forall router :: SplitRouter(router, visible).Some? ==> SplitRouter(router, refs) == SplitRouter(router, visible)
  }

  /** A view over some of the refs agrees with the view over all exactly if no hidden ref extends
      a visible one with a hyphen. */
  lemma ViewAgreesIff(visible: seq<string>, refs: seq<string>)
    requires LengthDescending(visible) && LengthDescending(refs) && forall v :: v in visible ==> v in refs
    ensures ViewAgrees(visible, refs)
            <==> forall h, v :: h in refs && h !in visible && v in visible ==> !(v + "-" <= h)
  {
    if h, v :| h in refs && h !in visible && v in visible && v + "-" <= h {
      LongestOwner(h, refs);
      LongestOwner(h, visible);
      assert Owns(h, h) && Owns(v, h);
      assert SplitRouter(h, visible).Some? && SplitRouter(h, refs) != SplitRouter(h, visible);
    } else {
      forall router | SplitRouter(router, visible).Some? ensures SplitRouter(router, refs) == SplitRouter(router, visible) {
        LongestOwner(router, visible);
        LongestOwner(router, refs);
        var o, mine := SplitRouter(router, refs).value.ref, SplitRouter(router, visible).value.ref;
        if o != mine { LongerOwnerExtends(mine, o, router); }
      }
    }
  }

  /** A project's own view, which knows its ref only. */
  lemma ProjectViewAgreesIff(ref: string, refs: seq<string>)
    requires LengthDescending(refs) && ref in refs
    ensures ViewAgrees([ref], refs) <==> forall r :: r in refs && r != ref ==> !(ref + "-" <= r)
  {
    ViewAgreesIff([ref], refs);
    assert forall r :: r in [ref] <==> r == ref;
  }

  // Aggregation

  datatype RouterTraffic = RouterTraffic(
    router: string, requestsTotal: real, requestsPerSec: real, errorRate: real, avgLatencyMs: real, p95Ms: real,
    bytesInPerSec: real, bytesOutPerSec: real, status2xx: real, status3xx: real, status4xx: real, status5xx: real)

  datatype Totals = Totals(
    requestsTotal: real, requestsPerSec: real, errorRate: real, avgLatencyMs: real, p95Ms: real,
    bytesInPerSec: real, bytesOutPerSec: real, status2xx: real, status3xx: real, status4xx: real, status5xx: real)

  const NO_TRAFFIC := Totals(0.0, 0.0, 0.0, 0.0, 0.0, 0.0, 0.0, 0.0, 0.0, 0.0, 0.0)

  function Accumulated(t: Totals, rt: RouterTraffic): Totals {
    var rate := t.requestsPerSec + rt.requestsPerSec;
    Totals(
      t.requestsTotal + rt.requestsTotal,
      rate,
      if rate > 0.0 then (t.errorRate * t.requestsPerSec + rt.errorRate * rt.requestsPerSec) / rate else t.errorRate,
      if rate > 0.0 then (t.avgLatencyMs * t.requestsPerSec + rt.avgLatencyMs * rt.requestsPerSec) / rate else t.avgLatencyMs,
      if rate > 0.0 && rt.p95Ms > t.p95Ms then rt.p95Ms else t.p95Ms,
      t.bytesInPerSec + rt.bytesInPerSec,
      t.bytesOutPerSec + rt.bytesOutPerSec,
      t.status2xx + rt.status2xx,
      t.status3xx + rt.status3xx,
      t.status4xx + rt.status4xx,
      t.status5xx + rt.status5xx)
  }

  class TrafficTotals {
    var requestsTotal: real
    var requestsPerSec: real
    var errorRate: real
    var avgLatencyMs: real
    var p95Ms: real
    var bytesInPerSec: real
    var bytesOutPerSec: real
    var status2xx: real
    var status3xx: real
    var status4xx: real
    var status5xx: real

    constructor ()
      ensures Value() == NO_TRAFFIC
    {
      requestsTotal, requestsPerSec, errorRate, avgLatencyMs, p95Ms := 0.0, 0.0, 0.0, 0.0, 0.0;
      bytesInPerSec, bytesOutPerSec := 0.0, 0.0;
      status2xx, status3xx, status4xx, status5xx := 0.0, 0.0, 0.0, 0.0;
    }

    function Value(): Totals
      reads this
    {
      Totals(requestsTotal, requestsPerSec, errorRate, avgLatencyMs, p95Ms, bytesInPerSec, bytesOutPerSec,
             status2xx, status3xx, status4xx, status5xx)
    }

    method Accumulate(rt: RouterTraffic)
      modifies this
      ensures Value() == Accumulated(old(Value()), rt)
    {
      var prevRate := requestsPerSec;
      requestsTotal := requestsTotal + rt.requestsTotal;
      requestsPerSec := requestsPerSec + rt.requestsPerSec;
      bytesInPerSec := bytesInPerSec + rt.bytesInPerSec;
      bytesOutPerSec := bytesOutPerSec + rt.bytesOutPerSec;
      status2xx := status2xx + rt.status2xx;
      status3xx := status3xx + rt.status3xx;
      status4xx := status4xx + rt.status4xx;
      status5xx := status5xx + rt.status5xx;
      if requestsPerSec > 0.0 {
        errorRate := (errorRate * prevRate + rt.errorRate * rt.requestsPerSec) / requestsPerSec;
        avgLatencyMs := (avgLatencyMs * prevRate + rt.avgLatencyMs * rt.requestsPerSec) / requestsPerSec;
        if rt.p95Ms > p95Ms { p95Ms := rt.p95Ms; }
      }
    }
  }

  function Total(rts: seq<RouterTraffic>): Totals {
    if rts == [] then NO_TRAFFIC else Accumulated(Total(rts[..|rts| - 1]), rts[|rts| - 1])
  }

  // Conservation

  /** What adds up: the counters, and rate-weighted error rate and latency. */
  datatype Measure = Measure(
    requests: real, rate: real, errors: real, latency: real, bytesIn: real, bytesOut: real,
    s2: real, s3: real, s4: real, s5: real)
  {
    function Plus(m: Measure): Measure {
      Measure(requests + m.requests, rate + m.rate, errors + m.errors, latency + m.latency, bytesIn + m.bytesIn,
              bytesOut + m.bytesOut, s2 + m.s2, s3 + m.s3, s4 + m.s4, s5 + m.s5)
    }
  }

  const NOTHING := Measure(0.0, 0.0, 0.0, 0.0, 0.0, 0.0, 0.0, 0.0, 0.0, 0.0)

  function OfRoute(rt: RouterTraffic): Measure {
    Measure(rt.requestsTotal, rt.requestsPerSec, rt.errorRate * rt.requestsPerSec, rt.avgLatencyMs * rt.requestsPerSec,
            rt.bytesInPerSec, rt.bytesOutPerSec, rt.status2xx, rt.status3xx, rt.status4xx, rt.status5xx)
  }

  function OfTotals(t: Totals): Measure {
    Measure(t.requestsTotal, t.requestsPerSec, t.errorRate * t.requestsPerSec, t.avgLatencyMs * t.requestsPerSec,
            t.bytesInPerSec, t.bytesOutPerSec, t.status2xx, t.status3xx, t.status4xx, t.status5xx)
  }

  function Sum(rts: seq<RouterTraffic>): Measure {
    if rts == [] then NOTHING else Sum(rts[..|rts| - 1]).Plus(OfRoute(rts[|rts| - 1]))
  }

  ghost predicate RatesNonnegative(rts: seq<RouterTraffic>) {
    forall rt :: rt in rts ==> rt.requestsPerSec >= 0.0
  }

  lemma Reweigh(mean: real, weight: real, value: real, rate: real)
    requires weight + rate > 0.0
    ensures (mean * weight + value * rate) / (weight + rate) * (weight + rate) == mean * weight + value * rate
  {}

  lemma AccumulateConserves(t: Totals, rt: RouterTraffic)
    requires t.requestsPerSec >= 0.0 && rt.requestsPerSec >= 0.0
    ensures OfTotals(Accumulated(t, rt)) == OfTotals(t).Plus(OfRoute(rt))
  {
    var sum := Accumulated(t, rt);
    if t.requestsPerSec + rt.requestsPerSec > 0.0 {
      Reweigh(t.errorRate, t.requestsPerSec, rt.errorRate, rt.requestsPerSec);
      Reweigh(t.avgLatencyMs, t.requestsPerSec, rt.avgLatencyMs, rt.requestsPerSec);
    } else {
      assert t.requestsPerSec == 0.0 && rt.requestsPerSec == 0.0;
    }
    assert sum.errorRate * sum.requestsPerSec == t.errorRate * t.requestsPerSec + rt.errorRate * rt.requestsPerSec;
    assert sum.avgLatencyMs * sum.requestsPerSec == t.avgLatencyMs * t.requestsPerSec + rt.avgLatencyMs * rt.requestsPerSec;
  }

  /** The running mean loses nothing: totals measure what their routes measure together. */
  lemma {:induction false} TotalConserves(rts: seq<RouterTraffic>)
    requires RatesNonnegative(rts)
    ensures OfTotals(Total(rts)) == Sum(rts)
    ensures Total(rts).requestsPerSec >= 0.0
  {
    if rts != [] {
      var init, last := rts[..|rts| - 1], rts[|rts| - 1];
      assert last in rts && forall rt :: rt in init ==> rt in rts;
      TotalConserves(init);
      AccumulateConserves(Total(init), last);
    }
  }

  lemma PlusNothing(m: Measure)
    ensures m.Plus(NOTHING) == m && NOTHING.Plus(m) == m
  {}

  lemma PlusMoves(a: Measure, b: Measure, c: Measure)
    ensures a.Plus(b).Plus(c) == a.Plus(c).Plus(b) == a.Plus(b.Plus(c))
  {}

  lemma SumStep(rts: seq<RouterTraffic>, rt: RouterTraffic)
    ensures Sum(rts + [rt]) == Sum(rts).Plus(OfRoute(rt))
  {
    assert (rts + [rt])[..|rts|] == rts;
  }

  lemma {:induction false} SumConcat(a: seq<RouterTraffic>, b: seq<RouterTraffic>)
    ensures Sum(a + b) == Sum(a).Plus(Sum(b))
  {
    if b == [] {
      assert a + b == a;
      PlusNothing(Sum(a));
    } else {
      var init, last := b[..|b| - 1], b[|b| - 1];
      assert a + b == (a + init) + [last] && b == init + [last];
      SumConcat(a, init);
      hide *;
      SumStep(a + init, last);
      SumStep(init, last);
      PlusMoves(Sum(a), Sum(init), OfRoute(last));
    }
  }

  lemma Cancel<T>(init: seq<T>, l: seq<T>, x: T, r: seq<T>)
    requires multiset(init + [x]) == multiset(l + [x] + r)
    ensures multiset(init) == multiset(l + r)
  {
    assert multiset(init + [x]) == multiset(init) + multiset{x};
    assert multiset(l + [x] + r) == multiset(l) + multiset{x} + multiset(r);
    assert multiset(init) == multiset(init + [x]) - multiset{x};
    assert multiset(l + r) == multiset(l) + multiset(r) == multiset(l + [x] + r) - multiset{x};
  }

  lemma {:induction false} SumOrder(a: seq<RouterTraffic>, b: seq<RouterTraffic>)
    requires multiset(a) == multiset(b)
    ensures Sum(a) == Sum(b)
  {
    assert |a| == |multiset(a)| == |multiset(b)| == |b|;
    if a == [] { return; }
    var x := a[|a| - 1];
    var init := a[..|a| - 1];
    assert a == init + [x];
    assert x in multiset(b);
    var i :| 0 <= i < |b| && b[i] == x;
    var l, r := b[..i], b[i + 1..];
    assert b == l + [x] + r;
    Cancel(init, l, x, r);
    SumOrder(init, l + r);
    hide *;
    SumStep(init, x);
    SumStep(l, x);
    SumConcat(l, r);
    SumConcat(l + [x], r);
    PlusMoves(Sum(l), OfRoute(x), Sum(r));
  }

  lemma Divide(x: real, y: real, d: real)
    requires d > 0.0 && x * d == y * d
    ensures x == y
  {
    assert x == x * d / d && y == y * d / d;
  }

  lemma SameMeasureSameMeans(t: Totals, u: Totals)
    requires OfTotals(t) == OfTotals(u) && t.requestsPerSec > 0.0
    ensures t.errorRate == u.errorRate && t.avgLatencyMs == u.avgLatencyMs
  {
    assert OfTotals(t).rate == OfTotals(u).rate;
    assert OfTotals(t).errors == OfTotals(u).errors && OfTotals(t).latency == OfTotals(u).latency;
    Divide(t.errorRate, u.errorRate, t.requestsPerSec);
    Divide(t.avgLatencyMs, u.avgLatencyMs, t.requestsPerSec);
  }

  /** Order does not matter: counters, and error rate and latency where there is any traffic. */
  lemma TotalOrderIrrelevant(a: seq<RouterTraffic>, b: seq<RouterTraffic>)
    requires multiset(a) == multiset(b) && RatesNonnegative(a)
    ensures OfTotals(Total(a)) == OfTotals(Total(b))
    ensures Total(a).requestsPerSec > 0.0 ==>
              Total(a).errorRate == Total(b).errorRate && Total(a).avgLatencyMs == Total(b).avgLatencyMs
  {
    forall rt | rt in b ensures rt.requestsPerSec >= 0.0 { assert rt in multiset(b) && rt in multiset(a); }
    TotalConserves(a);
    TotalConserves(b);
    SumOrder(a, b);
    hide *;
    if Total(a).requestsPerSec > 0.0 { SameMeasureSameMeans(Total(a), Total(b)); }
  }

  // The handlers' loops

  predicate OwnedBy(router: string, refs: seq<string>, ref: string) {
    SplitRouter(router, refs).Some? && SplitRouter(router, refs).value.ref == ref
  }

  function Attributed(rts: seq<RouterTraffic>, refs: seq<string>, ref: string): seq<RouterTraffic> {
    if rts == [] then []
    else
      var init, last := rts[..|rts| - 1], rts[|rts| - 1];
      if OwnedBy(last.router, refs, ref) then Attributed(init, refs, ref) + [last] else Attributed(init, refs, ref)
  }

  function Owned(rts: seq<RouterTraffic>, refs: seq<string>): seq<RouterTraffic> {
    if rts == [] then []
    else
      var init, last := rts[..|rts| - 1], rts[|rts| - 1];
      if SplitRouter(last.router, refs).Some? then Owned(init, refs) + [last] else Owned(init, refs)
  }

  datatype ProjectSummary = ProjectSummary(ref: string, totals: Totals)

  function Summaries(rts: seq<RouterTraffic>, refs: seq<string>, listed: seq<string>): seq<ProjectSummary> {
    if listed == [] then []
    else
      var init, ref := listed[..|listed| - 1], listed[|listed| - 1];
      if |Attributed(rts, refs, ref)| == 0 then Summaries(rts, refs, init)
      else Summaries(rts, refs, init) + [ProjectSummary(ref, Total(Attributed(rts, refs, ref)))]
  }

  lemma TotalStep(rts: seq<RouterTraffic>, rt: RouterTraffic)
    ensures Total(rts + [rt]) == Accumulated(Total(rts), rt)
  {
    assert (rts + [rt])[..|rts|] == rts;
  }

  lemma NoneAttributed(refs: seq<string>)
    ensures forall ref :: Attributed([], refs, ref) == []
    ensures Owned([], refs) == []
  {}

  lemma AttributedSteps(rts: seq<RouterTraffic>, rt: RouterTraffic, refs: seq<string>)
    ensures forall ref :: Attributed(rts + [rt], refs, ref)
                          == if OwnedBy(rt.router, refs, ref) then Attributed(rts, refs, ref) + [rt] else Attributed(rts, refs, ref)
    ensures Owned(rts + [rt], refs)
            == if SplitRouter(rt.router, refs).Some? then Owned(rts, refs) + [rt] else Owned(rts, refs)
  {
    assert (rts + [rt])[..|rts|] == rts;
  }

  /** The totals of the first routers: by ref, and of all that have an owner. */
  ghost predicate IsTally(byRef: map<string, Totals>, whole: Totals, rts: seq<RouterTraffic>, refs: seq<string>) {
    && (forall r :: r in byRef <==> |Attributed(rts, refs, r)| > 0)
    && (forall r :: r in byRef ==> byRef[r] == Total(Attributed(rts, refs, r)))
    && whole == Total(Owned(rts, refs))
  }

  lemma TallyNone(rts: seq<RouterTraffic>, refs: seq<string>)
    ensures IsTally(map[], NO_TRAFFIC, rts[..0], refs)
  {
    assert rts[..0] == [];
  }

  function Tallied(byRef: map<string, Totals>, ref: string, rt: RouterTraffic): map<string, Totals> {
    byRef[ref := Accumulated(if ref in byRef then byRef[ref] else NO_TRAFFIC, rt)]
  }

  lemma TotalNone()
    ensures Total([]) == NO_TRAFFIC
  {}

  lemma TallyStep(byRef: map<string, Totals>, whole: Totals, rts: seq<RouterTraffic>, rt: RouterTraffic, refs: seq<string>)
    requires IsTally(byRef, whole, rts, refs)
    ensures var owner := SplitRouter(rt.router, refs);
            if owner.None? then IsTally(byRef, whole, rts + [rt], refs)
            else IsTally(Tallied(byRef, owner.value.ref, rt), Accumulated(whole, rt), rts + [rt], refs)
  {
    hide Attributed, Owned, SplitRouter, Accumulated, Total;
    TotalNone();
    AttributedSteps(rts, rt, refs);
    var owner := SplitRouter(rt.router, refs);
    if owner.Some? {
      TotalStep(Attributed(rts, refs, owner.value.ref), rt);
      TotalStep(Owned(rts, refs), rt);
    }
  }

  lemma TallyNext(byRef: map<string, Totals>, whole: Totals, rts: seq<RouterTraffic>, i: nat, refs: seq<string>)
    requires i < |rts| && IsTally(byRef, whole, rts[..i], refs)
    ensures var owner := SplitRouter(rts[i].router, refs);
            if owner.None? then IsTally(byRef, whole, rts[..i + 1], refs)
            else IsTally(Tallied(byRef, owner.value.ref, rts[i]), Accumulated(whole, rts[i]), rts[..i + 1], refs)
  {
    hide *;
    assert rts[..i + 1] == rts[..i] + [rts[i]];
    TallyStep(byRef, whole, rts[..i], rts[i], refs);
  }

  lemma TallyAll(byRef: map<string, Totals>, whole: Totals, rts: seq<RouterTraffic>, refs: seq<string>)
    requires IsTally(byRef, whole, rts[..|rts|], refs)
    ensures IsTally(byRef, whole, rts, refs)
  {
    assert rts[..|rts|] == rts;
  }

  /** getFleetTrafficHandler's first loop: a totals object for every ref that owns a router, and the fleet's. */
  method TallyRouters(routers: seq<RouterTraffic>, refs: seq<string>)
    returns (perProject: map<string, TrafficTotals>, totals: TrafficTotals)
    ensures fresh(totals) && totals.Value() == Total(Owned(routers, refs))
    ensures forall r :: r in perProject <==> |Attributed(routers, refs, r)| > 0
    ensures forall r :: r in perProject ==> perProject[r].Value() == Total(Attributed(routers, refs, r))
  {
    totals := new TrafficTotals();
    perProject := map[];
    ghost var byRef: map<string, Totals> := map[];
    TallyNone(routers, refs);
    hide Accumulated, IsTally, SplitRouter, Total, Attributed, Owned, TrafficTotals.Value;
    for i := 0 to |routers|
      invariant IsTally(byRef, totals.Value(), routers[..i], refs)
      invariant fresh(totals) && perProject.Keys == byRef.Keys
      invariant forall r :: r in perProject ==> fresh(perProject[r]) && perProject[r] != totals
      invariant forall r, s :: r in perProject && s in perProject && r != s ==> perProject[r] != perProject[s]
      invariant forall r :: r in perProject ==> perProject[r].Value() == byRef[r]
    {
      var rt := routers[i];
      TallyNext(byRef, totals.Value(), routers, i, refs);
      var owner := SplitRouterRef(rt.router, refs);
      if owner.None? { continue; }
      var ref := owner.value.ref;
      if ref !in perProject {
        var t := new TrafficTotals();
        perProject := perProject[ref := t];
      }
      byRef := Tallied(byRef, ref, rt);
      perProject[ref].Accumulate(rt);
      totals.Accumulate(rt);
    }
    TallyAll(byRef, totals.Value(), routers, refs);
    Unfold(byRef, totals.Value(), routers, refs);
  }

  lemma Unfold(byRef: map<string, Totals>, whole: Totals, rts: seq<RouterTraffic>, refs: seq<string>)
    requires IsTally(byRef, whole, rts, refs)
    ensures forall r :: r in byRef <==> |Attributed(rts, refs, r)| > 0
    ensures forall r :: r in byRef ==> byRef[r] == Total(Attributed(rts, refs, r))
    ensures whole == Total(Owned(rts, refs))
  {}

  /** getFleetTrafficHandler: the projects that have routers, in the order of the refs, and the fleet. */
  method FleetTraffic(routers: seq<RouterTraffic>, refs: seq<string>)
    returns (projects: seq<ProjectSummary>, totals: TrafficTotals)
    ensures fresh(totals)
    ensures projects == Summaries(routers, refs, refs)
    ensures totals.Value() == Total(Owned(routers, refs))
    ensures RatesNonnegative(routers) && Distinct(refs) && LengthDescending(refs) ==>
              OfTotals(totals.Value()) == SumOfSummaries(projects)
  {
    hide Accumulated, Attributed, Owned, SplitRouter, Total, RatesNonnegative, Distinct, LengthDescending, OfTotals;
    var perProject;
    perProject, totals := TallyRouters(routers, refs);
    projects := [];
    for i := 0 to |refs|
      invariant projects == Summaries(routers, refs, refs[..i])
    {
      assert refs[..i + 1][..i] == refs[..i];
      if refs[i] in perProject {
        projects := projects + [ProjectSummary(refs[i], perProject[refs[i]].Value())];
      }
    }
    assert refs[..|refs|] == refs;
    if RatesNonnegative(routers) && Distinct(refs) && LengthDescending(refs) { FleetIsSumOfProjects(routers, refs); }
  }

  lemma TakeNone<T>(s: seq<T>)
    ensures s[..0] == []
  {}

  lemma TakeNext<T>(s: seq<T>, i: nat)
    requires i < |s|
    ensures s[..i + 1] == s[..i] + [s[i]]
  {}

  lemma TakeAll<T>(s: seq<T>)
    ensures s[..|s|] == s
  {}

  /** getProjectTrafficHandler's loop: the routes that are the project's, and their total. */
  method ProjectTraffic(routers: seq<RouterTraffic>, ref: string)
    returns (routes: seq<(string, RouterTraffic)>, totals: TrafficTotals)
    ensures fresh(totals)
    ensures totals.Value() == Total(Attributed(routers, [ref], ref))
    ensures |routes| == |Attributed(routers, [ref], ref)|
    ensures forall k :: 0 <= k < |routes| ==>
              && routes[k].1 == Attributed(routers, [ref], ref)[k]
              && (routes[k].1.router == ref + "-" + routes[k].0 || (routes[k].1.router == ref && routes[k].0 == "root"))
  {
    hide Attributed, Owned, Accumulated, Total, SplitRouter;
    NoneAttributed([ref]);
    TotalNone();
    TakeNone(routers);
    routes := [];
    totals := new TrafficTotals();
    for i := 0 to |routers|
      invariant fresh(totals) && totals.Value() == Total(Attributed(routers[..i], [ref], ref))
      invariant |routes| == |Attributed(routers[..i], [ref], ref)|
      invariant forall k :: 0 <= k < |routes| ==>
                  && routes[k].1 == Attributed(routers[..i], [ref], ref)[k]
                  && (routes[k].1.router == ref + "-" + routes[k].0 || (routes[k].1.router == ref && routes[k].0 == "root"))
    {
      var rt := routers[i];
      TakeNext(routers, i);
      AttributedSteps(routers[..i], rt, [ref]);
      var owner := SplitRouterRef(rt.router, [ref]);
      if owner.Some? && owner.value.ref == ref {
        RouterFromOwner(rt.router, [ref]);
        routes := routes + [(owner.value.route, rt)];
        TotalStep(Attributed(routers[..i], [ref], ref), rt);
        totals.Accumulate(rt);
      }
    }
    TakeAll(routers);
  }

  // The fleet is the sum of its projects

  function SumOver(listed: seq<string>, rts: seq<RouterTraffic>, refs: seq<string>): Measure {
    if listed == [] then NOTHING
    else SumOver(listed[..|listed| - 1], rts, refs).Plus(Sum(Attributed(rts, refs, listed[|listed| - 1])))
  }

  function SumOfSummaries(ps: seq<ProjectSummary>): Measure {
    if ps == [] then NOTHING else SumOfSummaries(ps[..|ps| - 1]).Plus(OfTotals(ps[|ps| - 1].totals))
  }

  ghost predicate Distinct(refs: seq<string>) {
    forall i, j :: 0 <= i < j < |refs| ==> refs[i] != refs[j]
  }

  lemma SumOverStep(listed: seq<string>, ref: string, rts: seq<RouterTraffic>, refs: seq<string>)
    ensures SumOver(listed + [ref], rts, refs) == SumOver(listed, rts, refs).Plus(Sum(Attributed(rts, refs, ref)))
  {
    assert (listed + [ref])[..|listed|] == listed;
  }

  ghost predicate OwnerIn(router: string, refs: seq<string>, listed: seq<string>) {
    exists r :: r in listed && OwnedBy(router, refs, r)
  }

  lemma OwnerInStep(router: string, refs: seq<string>, listed: seq<string>, ref: string)
    requires Distinct(listed + [ref])
    ensures Distinct(listed)
    ensures OwnerIn(router, refs, listed + [ref]) <==> OwnerIn(router, refs, listed) || OwnedBy(router, refs, ref)
    ensures OwnedBy(router, refs, ref) ==> !OwnerIn(router, refs, listed)
  {
    var all := listed + [ref];
    assert forall r :: r in all <==> r in listed || r == ref;
    assert all[..|listed|] == listed && all[|listed|] == ref;
    assert ref !in listed;
  }

  /** One more router adds its measure once, to the listed ref that owns it. */
  lemma {:induction false} OneMoreRouter(listed: seq<string>, rts: seq<RouterTraffic>, rt: RouterTraffic, refs: seq<string>)
    requires Distinct(listed)
    ensures SumOver(listed, rts + [rt], refs)
            == if OwnerIn(rt.router, refs, listed) then SumOver(listed, rts, refs).Plus(OfRoute(rt)) else SumOver(listed, rts, refs)
  {
    if listed == [] { return; }
    var init, ref := listed[..|listed| - 1], listed[|listed| - 1];
    assert listed == init + [ref];
    hide *;
    OwnerInStep(rt.router, refs, init, ref);
    OneMoreRouter(init, rts, rt, refs);
    SumOverStep(init, ref, rts, refs);
    SumOverStep(init, ref, rts + [rt], refs);
    AttributedSteps(rts, rt, refs);
    SumStep(Attributed(rts, refs, ref), rt);
    PlusMoves(SumOver(init, rts, refs), Sum(Attributed(rts, refs, ref)), OfRoute(rt));
    PlusMoves(SumOver(init, rts, refs), OfRoute(rt), Sum(Attributed(rts, refs, ref)));
  }

  lemma OwnerInAll(router: string, refs: seq<string>)
    requires LengthDescending(refs)
    ensures OwnerIn(router, refs, refs) <==> SplitRouter(router, refs).Some?
  {
    LongestOwner(router, refs);
    if SplitRouter(router, refs).Some? { assert OwnedBy(router, refs, SplitRouter(router, refs).value.ref); }
  }

  lemma {:induction false} SumOverAll(rts: seq<RouterTraffic>, refs: seq<string>)
    requires Distinct(refs) && LengthDescending(refs)
    ensures SumOver(refs, rts, refs) == Sum(Owned(rts, refs))
  {
    if rts == [] {
      SumOverNone(refs, refs);
      return;
    }
    var init, last := rts[..|rts| - 1], rts[|rts| - 1];
    assert rts == init + [last];
    hide *;
    SumOverAll(init, refs);
    OneMoreRouter(refs, init, last, refs);
    OwnerInAll(last.router, refs);
    AttributedSteps(init, last, refs);
    SumStep(Owned(init, refs), last);
  }

  lemma {:induction false} SumOverNone(listed: seq<string>, refs: seq<string>)
    ensures SumOver(listed, [], refs) == NOTHING
  {
    if listed != [] {
      SumOverNone(listed[..|listed| - 1], refs);
      PlusNothing(NOTHING);
    }
  }

  lemma {:induction false} AttributedRates(rts: seq<RouterTraffic>, refs: seq<string>, ref: string)
    ensures forall rt :: rt in Attributed(rts, refs, ref) || rt in Owned(rts, refs) ==> rt in rts
  {
    if rts == [] {
      NoneAttributed(refs);
      return;
    }
    hide *;
    var init, last := rts[..|rts| - 1], rts[|rts| - 1];
    assert rts == init + [last];
    AttributedRates(init, refs, ref);
    AttributedSteps(init, last, refs);
  }

  lemma SumOfSummariesStep(ps: seq<ProjectSummary>, p: ProjectSummary)
    ensures SumOfSummaries(ps + [p]) == SumOfSummaries(ps).Plus(OfTotals(p.totals))
  {
    assert (ps + [p])[..|ps|] == ps;
  }

  lemma SummariesStep(rts: seq<RouterTraffic>, refs: seq<string>, listed: seq<string>, ref: string)
    ensures Summaries(rts, refs, listed + [ref])
            == if |Attributed(rts, refs, ref)| == 0 then Summaries(rts, refs, listed)
               else Summaries(rts, refs, listed) + [ProjectSummary(ref, Total(Attributed(rts, refs, ref)))]
  {
    assert (listed + [ref])[..|listed|] == listed;
  }

  lemma {:induction false} SummariesSum(rts: seq<RouterTraffic>, refs: seq<string>, listed: seq<string>)
    requires RatesNonnegative(rts)
    ensures SumOfSummaries(Summaries(rts, refs, listed)) == SumOver(listed, rts, refs)
  {
    if listed == [] { return; }
    var init, ref := listed[..|listed| - 1], listed[|listed| - 1];
    assert listed == init + [ref];
    SummariesSum(rts, refs, init);
    AttributedRates(rts, refs, ref);
    var mine := Attributed(rts, refs, ref);
    TotalConserves(mine);
    assert |mine| == 0 ==> Sum(mine) == NOTHING;
    hide *;
    SumOverStep(init, ref, rts, refs);
    SummariesStep(rts, refs, init, ref);
    if |mine| == 0 {
      PlusNothing(SumOver(init, rts, refs));
    } else {
      SumOfSummariesStep(Summaries(rts, refs, init), ProjectSummary(ref, Total(mine)));
    }
  }

  /** What FleetTraffic reports of the whole fleet is the sum of what it reports of its projects. */
  lemma FleetIsSumOfProjects(rts: seq<RouterTraffic>, refs: seq<string>)
    requires RatesNonnegative(rts) && Distinct(refs) && LengthDescending(refs)
    ensures OfTotals(Total(Owned(rts, refs))) == SumOfSummaries(Summaries(rts, refs, refs))
  {
    AttributedRates(rts, refs, "");
    TotalConserves(Owned(rts, refs));
    hide *;
    SummariesSum(rts, refs, refs);
    SumOverAll(rts, refs);
  }

  /** A router is counted for a ref exactly if the ref is the longest that the router is, or that
      starts it with a hyphen after. */
  lemma {:induction false} AttributedIff(rts: seq<RouterTraffic>, refs: seq<string>, ref: string, rt: RouterTraffic)
    requires LengthDescending(refs)
    ensures rt in Attributed(rts, refs, ref) <==>
              && rt in rts && ref in refs && (rt.router == ref || ref + "-" <= rt.router)
              && forall r :: r in refs && (rt.router == r || r + "-" <= rt.router) ==> |r| <= |ref|
  {
    if rts == [] {
      NoneAttributed(refs);
      return;
    }
    var init, last := rts[..|rts| - 1], rts[|rts| - 1];
    assert rts == init + [last];
    AttributedSteps(init, last, refs);
    hide Attributed, Owned, LengthDescending;
    AttributedIff(init, refs, ref, rt);
    if rt == last { OwnedByIff(rt.router, refs, ref); }
  }

  lemma OwnedByIff(router: string, refs: seq<string>, ref: string)
    requires LengthDescending(refs)
    ensures OwnedBy(router, refs, ref) <==>
              && ref in refs && (router == ref || ref + "-" <= router)
              && forall r :: r in refs && (router == r || r + "-" <= router) ==> |r| <= |ref|
  {
    OwnerByName(router, refs);
    hide SplitRouter;
    if SplitRouter(router, refs).Some? {
      var o := SplitRouter(router, refs).value;
      StartsWithHyphen(router, o.ref, o.route);
    }
  }

  lemma StartsWithHyphen(router: string, ref: string, route: string)
    requires router == ref + "-" + route || router == ref
    ensures router == ref || ref + "-" <= router
  {}

  /** A summary tells of its own ref's routers, and every listed ref that has one gets a summary. */
  lemma {:induction false} SummaryIff(rts: seq<RouterTraffic>, refs: seq<string>, listed: seq<string>, p: ProjectSummary)
    ensures p in Summaries(rts, refs, listed) <==>
              p.ref in listed && Attributed(rts, refs, p.ref) != [] && p.totals == Total(Attributed(rts, refs, p.ref))
  {
    if listed == [] { return; }
    var init, ref := listed[..|listed| - 1], listed[|listed| - 1];
    assert listed == init + [ref];
    hide Attributed, Total, Summaries;
    SummaryIff(rts, refs, init, p);
    SummariesStep(rts, refs, init, ref);
  }
}
