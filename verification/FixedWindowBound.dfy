/** The bound on the charges of a key is reached, for every limit and every window of at least
    two instants. */
module FixedWindowBound {
  import opened Text
  import opened Timeline
  import opened FixedWindow
  import opened FixedWindowRuns

  function Repeat<T>(x: T, n: nat): (xs: seq<T>)
    ensures |xs| == n && forall i :: 0 <= i < n ==> xs[i] == x
  {
    seq(n, i => x)
  }

  lemma RepeatStep<T>(x: T, n: nat)
    requires n > 0
    ensures Repeat(x, n) == Repeat(x, n - 1) + [x]
  {}

  lemma {:induction false} Prefix(q: Quota, run: seq<Call>, more: seq<Call>, n: nat, key: string)
    requires n <= |run|
    ensures StateAt(q, run + more, n) == StateAt(q, run, n) && Charges(q, run + more, n, key) == Charges(q, run, n, key)
    decreases n
  {
    if n > 0 {
      Prefix(q, run, more, n - 1, key);
      assert (run + more)[n - 1] == run[n - 1];
    }
  }

  /** The limiter and the key's charges after a whole run. */
  function Final(q: Quota, run: seq<Call>): Limits { StateAt(q, run, |run|) }

  function AllCharges(q: Quota, run: seq<Call>, key: string): seq<int> { Charges(q, run, |run|, key) }

  lemma OneMoreCall(q: Quota, run: seq<Call>, c: Call, key: string)
    ensures Final(q, run + [c]) == Next(q, Final(q, run), c)
    ensures AllCharges(q, run + [c], key) == Recorded(q, Final(q, run), AllCharges(q, run, key), c, key)
  {
    Prefix(q, run, [c], |run|, key);
  }

  predicate PlainKey(key: string) { key != "" && Trimmed(key) }

  lemma AsksOne(key: string, now: int)
    requires PlainKey(key)
    ensures Asked(Take([key], now)) == [key]
  {
    TrimSpaceOfTrimmed(key);
    assert [key][..0] == [];
    assert Normalized([key]) == Normalized([key][..0]) + [key];
  }

  /** A take of one key that has room is admitted and charges it. */
  lemma OneCharge(q: Quota, m: Limits, ts: seq<int>, key: string, now: int)
    requires Enabled(q) && PlainKey(key) && now > 0
    requires Live(q, View(m, key), now) ==> View(m, key).count < q.limit
    ensures var c := Take([key], now);
            View(Next(q, m, c), key) == Charged(q, View(m, key), now) && Recorded(q, m, ts, c, key) == ts + [now]
  {
    AsksOne(key, now);
    assert [key][..0] == [];
    assert LongestWait(q, m, [key], now) == 0;
    ChargeOnce(q, Pruned(q, m, now), [key], now, key);
    hide Normalized, ChargeAll;
  }

  /** As many takes at one instant as there is room are all admitted. */
  lemma {:induction false} Burst(q: Quota, run: seq<Call>, key: string, now: int, n: nat)
    requires Enabled(q) && PlainKey(key) && now > 0
    requires n + (if Live(q, View(Final(q, run), key), now) then View(Final(q, run), key).count else 0) <= q.limit
    ensures var a, all := View(Final(q, run), key), run + Repeat(Take([key], now), n);
            && AllCharges(q, all, key) == AllCharges(q, run, key) + Repeat(now, n)
            && View(Final(q, all), key)
               == if n == 0 then a
                  else if Live(q, a, now) then FixedWindowLimit(a.count + n, a.windowStart)
                  else FixedWindowLimit(n, now)
  {
    var c := Take([key], now);
    if n == 0 {
      assert run + Repeat(c, 0) == run && AllCharges(q, run, key) + Repeat(now, 0) == AllCharges(q, run, key);
      return;
    }
    var before := run + Repeat(c, n - 1);
    Burst(q, run, key, now, n - 1);
    RepeatStep(c, n);
    RepeatStep(now, n);
    assert run + Repeat(c, n) == before + [c];
    assert AllCharges(q, run, key) + Repeat(now, n) == AllCharges(q, run, key) + Repeat(now, n - 1) + [now];
    hide Final, AllCharges, Next, Recorded, Repeat;
    OneMoreCall(q, before, c, key);
    OneCharge(q, Final(q, before), AllCharges(q, before, key), key, now);
  }

  lemma {:induction false} CountConcat(a: seq<int>, b: seq<int>, lo: int, hi: int)
    ensures CountWithin(a + b, lo, hi) == CountWithin(a, lo, hi) + CountWithin(b, lo, hi)
  {
    if b == [] {
      assert a + b == a;
    } else {
      assert (a + b)[..|a + b| - 1] == a + b[..|b| - 1];
      CountConcat(a, b[..|b| - 1], lo, hi);
    }
  }

  lemma {:induction false} CountRepeat(t: int, n: nat, lo: int, hi: int)
    requires lo <= t <= hi
    ensures CountWithin(Repeat(t, n), lo, hi) == n
  {
    if n > 0 {
      RepeatStep(t, n);
      CountRepeat(t, n - 1, lo, hi);
      assert Repeat(t, n)[..n - 1] == Repeat(t, n - 1);
    }
  }

  /** One charge opens a window, the rest of the limit comes at the window's last instant, and
      as many again as the limit an instant later. */
  function TwoBursts(q: Quota, key: string): seq<Call>
    requires Enabled(q)
  {
    Repeat(Take([key], 1), 1) + Repeat(Take([key], q.window), q.limit - 1) + Repeat(Take([key], q.window + 1), q.limit)
  }

  lemma TwoBurstsCharges(q: Quota, key: string)
    requires Enabled(q) && q.window >= 2 && PlainKey(key)
    ensures AllCharges(q, TwoBursts(q, key), key) == Repeat(1, 1) + Repeat(q.window, q.limit - 1) + Repeat(q.window + 1, q.limit)
  {
    var one := [] + Repeat(Take([key], 1), 1);
    var two := one + Repeat(Take([key], q.window), q.limit - 1);
    assert one == Repeat(Take([key], 1), 1);
    assert Final(q, []) == map[] && AllCharges(q, [], key) == [];
    assert [] + Repeat(1, 1) == Repeat(1, 1);
    hide Final, AllCharges, Repeat;
    Burst(q, [], key, 1, 1);
    Burst(q, one, key, q.window, q.limit - 1);
    Burst(q, two, key, q.window + 1, q.limit);
  }

  lemma TwoBurstsValid(q: Quota, key: string)
    requires Enabled(q) && PlainKey(key)
    ensures ValidRun(TwoBursts(q, key))
  {
    var run := TwoBursts(q, key);
    AsksOne(key, 1);
    AsksOne(key, q.window);
    AsksOne(key, q.window + 1);
    hide Asked, PlainKey;
    assert forall i :: 0 <= i < |run| ==>
      run[i] == if i == 0 then Take([key], 1) else if i < q.limit then Take([key], q.window) else Take([key], q.window + 1);
  }

  /** A run that charges a key 2 * limit - 1 times in a half-open interval as long as the window. */
  lemma BoundReached(q: Quota, key: string)
    requires Enabled(q) && q.window >= 2 && PlainKey(key)
    ensures var run := TwoBursts(q, key);
            && ValidRun(run)
            && CountWithin(Charges(q, run, |run|, key), 2, 2 + q.window - 1) == 2 * q.limit - 1
  {
    hide *;
    TwoBurstsCharges(q, key);
    TwoBurstsValid(q, key);
    WholeRun(q, TwoBursts(q, key), key);
    TwoBurstsCount(q.limit, q.window);
  }

  lemma WholeRun(q: Quota, run: seq<Call>, key: string)
    ensures AllCharges(q, run, key) == Charges(q, run, |run|, key)
  {}

  lemma TwoBurstsCount(limit: int, window: int)
    requires limit > 0 && window >= 2
    ensures CountWithin(Repeat(1, 1) + Repeat(window, limit - 1) + Repeat(window + 1, limit), 2, 2 + window - 1) == 2 * limit - 1
  {
    hide *;
    var lo, hi := 2, 2 + window - 1;
    CountConcat(Repeat(1, 1) + Repeat(window, limit - 1), Repeat(window + 1, limit), lo, hi);
    CountConcat(Repeat(1, 1), Repeat(window, limit - 1), lo, hi);
    CountOne(1, lo, hi);
    CountRepeat(window, limit - 1, lo, hi);
    CountRepeat(window + 1, limit, lo, hi);
  }

  lemma CountOne(t: int, lo: int, hi: int)
    ensures CountWithin(Repeat(t, 1), lo, hi) == if lo <= t <= hi then 1 else 0
  {
    assert Repeat(t, 1)[..0] == [];
  }
}
