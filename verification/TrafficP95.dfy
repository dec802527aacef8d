/** The 95th percentile of a traffic total (internal/api/project_traffic_handlers.go), which
    skips routes until there is some traffic. */
module TrafficP95 {
  import opened Traffic

  predicate Busy(rt: RouterTraffic) { rt.requestsPerSec > 0.0 }

  function MaxP95(rts: seq<RouterTraffic>): real {
    if rts == [] then 0.0
    else var most, last := MaxP95(rts[..|rts| - 1]), rts[|rts| - 1]; if last.p95Ms > most then last.p95Ms else most
  }

  ghost predicate Measured(rts: seq<RouterTraffic>) {
    forall rt :: rt in rts ==> rt.requestsPerSec >= 0.0 && rt.p95Ms >= 0.0
  }

  function Those(rts: seq<RouterTraffic>, busy: bool): seq<RouterTraffic> {
    if rts == [] then []
    else
      var init, last := rts[..|rts| - 1], rts[|rts| - 1];
      if Busy(last) == busy then Those(init, busy) + [last] else Those(init, busy)
  }

  lemma ThoseStep(rts: seq<RouterTraffic>, rt: RouterTraffic, busy: bool)
    ensures Those(rts + [rt], busy) == if Busy(rt) == busy then Those(rts, busy) + [rt] else Those(rts, busy)
    ensures Those([], busy) == []
  {
    assert (rts + [rt])[..|rts|] == rts;
  }

  lemma AddOne<T>(a: seq<T>, b: seq<T>, whole: seq<T>, x: T)
    requires multiset(a + b) == multiset(whole)
    ensures multiset(a + [x] + b) == multiset(whole + [x]) == multiset(a + (b + [x]))
  {}

  lemma {:induction false} ThoseTogether(rts: seq<RouterTraffic>)
    ensures multiset(Those(rts, true) + Those(rts, false)) == multiset(rts)
  {
    hide *;
    if rts == [] {
      NoneOfThose();
      return;
    }
    var init, last := rts[..|rts| - 1], rts[|rts| - 1];
    assert rts == init + [last];
    ThoseTogether(init);
    ThoseStep(init, last, true);
    ThoseStep(init, last, false);
    AddOne(Those(init, true), Those(init, false), init, last);
  }

  lemma NoneOfThose()
    ensures Those([], true) + Those([], false) == []
  {}

  lemma {:induction false} AmongThose(rts: seq<RouterTraffic>, busy: bool)
    ensures forall rt :: rt in Those(rts, busy) <==> rt in rts && Busy(rt) == busy
  {
    if rts == [] { return; }
    var init, last := rts[..|rts| - 1], rts[|rts| - 1];
    assert rts == init + [last];
    hide Those;
    AmongThose(init, busy);
    ThoseStep(init, last, busy);
  }

  lemma ThoseParts(rts: seq<RouterTraffic>)
    ensures multiset(Those(rts, true) + Those(rts, false)) == multiset(rts) == multiset(Those(rts, false) + Those(rts, true))
    ensures forall b, rt :: rt in Those(rts, b) <==> rt in rts && Busy(rt) == b
  {
    hide *;
    ThoseTogether(rts);
    forall b ensures forall rt :: rt in Those(rts, b) <==> rt in rts && Busy(rt) == b { AmongThose(rts, b); }
    assert multiset(Those(rts, false) + Those(rts, true)) == multiset(Those(rts, false)) + multiset(Those(rts, true));
  }

  lemma {:induction false} MaxIsLargest(rts: seq<RouterTraffic>)
    ensures forall rt :: rt in rts ==> rt.p95Ms <= MaxP95(rts)
    ensures MaxP95(rts) == 0.0 || exists rt :: rt in rts && rt.p95Ms == MaxP95(rts)
    ensures MaxP95(rts) >= 0.0
  {
    if rts == [] { return; }
    var init, last := rts[..|rts| - 1], rts[|rts| - 1];
    assert rts == init + [last];
    MaxIsLargest(init);
  }

  lemma P95Step(rts: seq<RouterTraffic>, rt: RouterTraffic)
    ensures var t, next := Total(rts), Total(rts + [rt]);
            && next.requestsPerSec == t.requestsPerSec + rt.requestsPerSec
            && next.p95Ms == if next.requestsPerSec > 0.0 && rt.p95Ms > t.p95Ms then rt.p95Ms else t.p95Ms
    ensures MaxP95(rts + [rt]) == if rt.p95Ms > MaxP95(rts) then rt.p95Ms else MaxP95(rts)
    ensures Total([]) == NO_TRAFFIC && MaxP95([]) == 0.0
  {
    assert (rts + [rt])[..|rts|] == rts;
  }

  /** The p95 lies between the largest of the routes with traffic and the largest of all. */
  lemma {:induction false} P95Between(rts: seq<RouterTraffic>)
    requires Measured(rts)
    ensures Total(rts).requestsPerSec >= 0.0
    ensures 0.0 <= Total(rts).p95Ms <= MaxP95(rts)
    ensures forall rt :: rt in rts && Busy(rt) ==> rt.p95Ms <= Total(rts).p95Ms && Total(rts).requestsPerSec > 0.0
    ensures (forall rt :: rt in rts ==> !Busy(rt)) ==> Total(rts).requestsPerSec == 0.0 && Total(rts).p95Ms == 0.0
  {
    if rts == [] { return; }
    var init, last := rts[..|rts| - 1], rts[|rts| - 1];
    assert rts == init + [last] && last in rts;
    hide Total, MaxP95;
    P95Between(init);
    P95Step(init, last);
    P95Step([], last);
  }

  /** A route that comes when there is traffic counts. */
  lemma P95AndOneMore(rts: seq<RouterTraffic>, rt: RouterTraffic)
    requires Total(rts).requestsPerSec > 0.0 && rt.requestsPerSec >= 0.0
    ensures var t, next := Total(rts), Total(rts + [rt]);
            next.requestsPerSec > 0.0 && rt.p95Ms <= next.p95Ms && t.p95Ms <= next.p95Ms
  {
    hide Total, MaxP95;
    P95Step(rts, rt);
  }

  lemma MeasuredParts(init: seq<RouterTraffic>, last: RouterTraffic)
    requires Measured(init + [last])
    ensures Measured(init) && last.requestsPerSec >= 0.0
  {
    assert last in init + [last] && forall rt :: rt in init ==> rt in init + [last];
  }

  /** Once there is traffic, every further route counts. */
  lemma {:induction false} P95AfterTraffic(rts: seq<RouterTraffic>, more: seq<RouterTraffic>, k: nat)
    requires Measured(more) && Total(rts).requestsPerSec > 0.0 && k <= |more|
    ensures Total(rts + more).requestsPerSec > 0.0
    ensures k < |more| ==> more[k].p95Ms <= Total(rts + more).p95Ms
    decreases |more|
  {
    hide *;
    if more == [] {
      assert rts + more == rts;
      return;
    }
    var init, last := more[..|more| - 1], more[|more| - 1];
    assert more == init + [last] && rts + more == (rts + init) + [last];
    MeasuredParts(init, last);
    P95AfterTraffic(rts, init, if k <= |init| then k else 0);
    P95AndOneMore(rts + init, last);
  }

  /** Routes without traffic that come first do not count. */
  lemma {:induction false} P95IdleFirst(idle: seq<RouterTraffic>, busy: seq<RouterTraffic>)
    requires Measured(idle) && Measured(busy) && forall rt :: rt in idle ==> !Busy(rt)
    ensures Total(idle + busy).requestsPerSec >= 0.0 && Total(idle + busy).p95Ms <= MaxP95(busy)
  {
    if busy == [] {
      assert idle + busy == idle;
      P95Between(idle);
      MaxIsLargest(busy);
      return;
    }
    var init, last := busy[..|busy| - 1], busy[|busy| - 1];
    assert busy == init + [last] && idle + busy == (idle + init) + [last] && last in busy;
    hide Total, MaxP95;
    P95IdleFirst(idle, init);
    P95Step(idle + init, last);
    P95Step(init, last);
  }

  ghost predicate P95InAnyOrder(rts: seq<RouterTraffic>) {
    forall other :: multiset(other) == multiset(rts) ==> Total(other).p95Ms == Total(rts).p95Ms
  }

  /** There is traffic, and a route without any whose p95 exceeds that of every route with some. */
  ghost predicate IdleAbove(rts: seq<RouterTraffic>) {
    && (exists busy :: busy in rts && Busy(busy))
    && (exists idle :: idle in rts && !Busy(idle) && forall busy :: busy in rts && Busy(busy) ==> busy.p95Ms < idle.p95Ms)
  }

  lemma SameRoutes(a: seq<RouterTraffic>, b: seq<RouterTraffic>)
    requires multiset(a) == multiset(b)
    ensures forall rt :: rt in a <==> rt in b
  {
    assert forall rt :: rt in a <==> rt in multiset(a);
    assert forall rt :: rt in b <==> rt in multiset(b);
  }

  /** Without such a route, the p95 is the largest of the routes with traffic, in any order. */
  lemma P95IsBusyMax(rts: seq<RouterTraffic>)
    requires Measured(rts) && !IdleAbove(rts) && exists busy :: busy in rts && Busy(busy)
    ensures exists busy :: busy in rts && Busy(busy) && busy.p95Ms == Total(rts).p95Ms
    ensures forall busy :: busy in rts && Busy(busy) ==> busy.p95Ms <= Total(rts).p95Ms
  {
    hide Total, MaxP95;
    P95Between(rts);
    BusyReachesMax(rts);
  }

  lemma P95Unmoved(rts: seq<RouterTraffic>, other: seq<RouterTraffic>)
    requires Measured(rts) && !IdleAbove(rts) && multiset(other) == multiset(rts)
    ensures Total(other).p95Ms == Total(rts).p95Ms
  {
    SameRoutes(rts, other);
    hide Total, MaxP95;
    P95Between(rts);
    P95Between(other);
    if exists busy :: busy in rts && Busy(busy) {
      MaxIsLargest(rts);
      MaxIsLargest(other);
      BusyReachesMax(rts);
      BusyReachesMax(other);
    }
  }

  lemma BusyReachesMax(rts: seq<RouterTraffic>)
    requires Measured(rts) && !IdleAbove(rts) && exists busy :: busy in rts && Busy(busy)
    ensures exists busy :: busy in rts && Busy(busy) && busy.p95Ms == MaxP95(rts)
  {
    MaxIsLargest(rts);
    hide MaxP95;
    if MaxP95(rts) == 0.0 {
      var busy :| busy in rts && Busy(busy);
      assert busy.p95Ms == MaxP95(rts);
    } else {
      var top :| top in rts && top.p95Ms == MaxP95(rts);
      if !Busy(top) {
        var busy :| busy in rts && Busy(busy) && busy.p95Ms >= top.p95Ms;
      }
    }
  }

  lemma P95Differs(rts: seq<RouterTraffic>)
    requires Measured(rts) && IdleAbove(rts)
    ensures var busy, idle := Those(rts, true), Those(rts, false);
            Total(idle + busy).p95Ms < Total(busy + idle).p95Ms
  {
    var busy, idle := Those(rts, true), Those(rts, false);
    ThoseParts(rts);
    hide Total, MaxP95, Those;
    var top :| top in rts && !Busy(top) && forall b :: b in rts && Busy(b) ==> b.p95Ms < top.p95Ms;
    var one :| one in rts && Busy(one);
    assert one in busy && top in idle;
    P95Between(busy);
    var k :| 0 <= k < |idle| && idle[k] == top;
    P95AfterTraffic(busy, idle, k);
    P95IdleFirst(idle, busy);
    MaxIsLargest(busy);
    assert MaxP95(busy) < top.p95Ms;
  }

  /** The p95 is the same in every order of the routes exactly if no route has traffic, or no
      route without traffic has a p95 above all routes with some. */
  lemma P95OrderIff(rts: seq<RouterTraffic>)
    requires Measured(rts)
    ensures P95InAnyOrder(rts) <==> !IdleAbove(rts)
  {
    hide Total, Measured, IdleAbove, Those;
    if IdleAbove(rts) {
      P95Differs(rts);
      ThoseParts(rts);
    } else {
      forall other | multiset(other) == multiset(rts) ensures Total(other).p95Ms == Total(rts).p95Ms { P95Unmoved(rts, other); }
    }
  }
}
