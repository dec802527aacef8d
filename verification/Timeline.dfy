/** Sequences of instants in order, counted over intervals and cut into windows.
    Both limiters restart a key's window at the first event later than `width`
    after the event that opened the current one. */
module Timeline {

  predicate Ordered(ts: seq<int>) {
    forall i, j :: 0 <= i <= j < |ts| ==> ts[i] <= ts[j]
  }

  /** How many instants lie in the closed interval from lo to hi. */
  function CountWithin(ts: seq<int>, lo: int, hi: int): (n: nat) {
    if ts == [] then 0
    else CountWithin(ts[..|ts| - 1], lo, hi) + if lo <= ts[|ts| - 1] <= hi then 1 else 0
  }

  /** The index of the event that opened the window in which event i falls. */
  function WindowOpener(ts: seq<int>, width: int, i: nat): (s: nat)
    requires i < |ts|
    ensures s <= i
    decreases i
  {
    if i == 0 then 0
    else
      var s := WindowOpener(ts, width, i - 1);
      if ts[i] - ts[s] > width then i else s
  }

  /** No window holds more than `cap` events. */
  ghost predicate Capped(ts: seq<int>, width: int, cap: int) {
    forall i {:trigger WindowOpener(ts, width, i)} :: 0 <= i < |ts| ==> i - WindowOpener(ts, width, i) < cap
  }

  /** After the event that fills a window nothing happens for `pause`. */
  ghost predicate PausesWhenFull(ts: seq<int>, width: int, cap: int, pause: int) {
    forall i {:trigger WindowOpener(ts, width, i)} ::
      0 <= i < |ts| - 1 && i - WindowOpener(ts, width, i) == cap - 1 ==> ts[i + 1] >= ts[i] + pause
  }

  lemma {:induction false} WindowOpenerPrefix(ts: seq<int>, more: seq<int>, width: int, i: nat)
    requires i < |ts|
    ensures WindowOpener(ts + more, width, i) == WindowOpener(ts, width, i)
    decreases i
  {
    if i > 0 { WindowOpenerPrefix(ts, more, width, i - 1); }
  }

  /** One more event joins the window of the last one, or opens the next. */
  lemma NextOpener(ts: seq<int>, now: int, width: int)
    ensures WindowOpener(ts + [now], width, |ts|)
            == if ts == [] then 0
               else var s := WindowOpener(ts, width, |ts| - 1); if now - ts[s] > width then |ts| else s
  {
    if ts != [] {
      hide WindowOpener;
      WindowOpenerPrefix(ts, [now], width, |ts| - 1);
      WindowOpenerStep(ts + [now], width, |ts|);
    }
  }

  lemma WindowOpenerStep(ts: seq<int>, width: int, i: nat)
    requires 0 < i < |ts|
    ensures WindowOpener(ts, width, i)
            == var s := WindowOpener(ts, width, i - 1); if ts[i] - ts[s] > width then i else s
  {}

  /** An opener opens its own window, and it lies beyond the width of the window before. */
  lemma {:induction false} OpenerFacts(ts: seq<int>, width: int, i: nat)
    requires i < |ts| && width >= 0
    ensures var s := WindowOpener(ts, width, i);
            WindowOpener(ts, width, s) == s &&
            ts[i] - ts[s] <= width &&
            (s > 0 ==> ts[s] - ts[WindowOpener(ts, width, s - 1)] > width)
    decreases i
  {
    if i > 0 { OpenerFacts(ts, width, i - 1); }
  }

  /** With at most cap events a window, 2 * cap consecutive events span more than one width. */
  lemma TwoWindowsSpan(ts: seq<int>, width: int, cap: int, i: nat)
    requires Ordered(ts) && width >= 0 && cap >= 1
    requires Capped(ts, width, cap)
    requires i + 2 * cap - 1 < |ts|
    ensures ts[i + 2 * cap - 1] - ts[i] > width
  {
    var last := i + 2 * cap - 1;
    var j := WindowOpener(ts, width, last);
    OpenerFacts(ts, width, last);
    var q := WindowOpener(ts, width, j - 1);
    assert j - 1 - q < cap;
    assert ts[i] <= ts[q] && ts[j] <= ts[last];
  }

  /** A pause longer than the width after each full window saves one event more. */
  lemma PausedWindowsSpan(ts: seq<int>, width: int, cap: int, pause: int, i: nat)
    requires Ordered(ts) && 0 <= width < pause && cap >= 2
    requires Capped(ts, width, cap) && PausesWhenFull(ts, width, cap, pause)
    requires i + 2 * cap - 2 < |ts|
    ensures ts[i + 2 * cap - 2] - ts[i] > width
  {
    var last := i + 2 * cap - 2;
    var j := WindowOpener(ts, width, last);
    OpenerFacts(ts, width, last);
    var q := WindowOpener(ts, width, j - 1);
    assert j - 1 - q < cap;
    assert ts[j] <= ts[last];
    if q >= i {
      assert ts[i] <= ts[q];
    } else {
      assert j - 1 - q == cap - 1;
      assert ts[i] <= ts[j - 1];
    }
  }

  lemma {:induction false} CountAfterEarly(ts: seq<int>, lo: int, hi: int, early: nat)
    requires early <= |ts|
    requires forall i :: 0 <= i < early ==> ts[i] < lo
    ensures CountWithin(ts, lo, hi) <= |ts| - early
  {
    if |ts| > 0 {
      CountAfterEarly(ts[..|ts| - 1], lo, hi, if early < |ts| then early else early - 1);
    }
  }

  /** If n + 1 consecutive events always span more than the width, no interval of
      that width holds more than n of them. */
  lemma {:induction false} CountBound(ts: seq<int>, width: int, n: nat, lo: int)
    requires Ordered(ts) && width >= 0
    requires forall i :: 0 <= i < |ts| - n ==> ts[i + n] - ts[i] > width
    ensures CountWithin(ts, lo, lo + width) <= n
  {
    if ts == [] { return; }
    var t := ts[|ts| - 1];
    if t > lo + width {
      CountBound(ts[..|ts| - 1], width, n, lo);
    } else if t < lo {
      CountAfterEarly(ts, lo, lo + width, |ts|);
    } else {
      var early := if |ts| > n then |ts| - n else 0;
      if early > 0 { assert ts[early - 1 + n] - ts[early - 1] > width; }
      CountAfterEarly(ts, lo, lo + width, early);
    }
  }
}
