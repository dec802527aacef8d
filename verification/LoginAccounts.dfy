/** Who is locked out of the login (internal/api/auth_handlers.go:151-216): the verdicts of whole
    runs in terms of addresses and accounts, whatever keys the limiter files them under. */
module LoginAccounts {
  import opened Text
  import opened Timeline
  import opened LockoutLimiter
  import opened LoginRuns

  /** Whom failures are counted against: a client address, or an account by its folded email. */
  datatype Party = Address(ip: string) | Account(name: string)

  function NameOf(email: string): string { ToLower(TrimSpace(email)) }

  predicate Concerns(p: Party, e: Login) {
    match p
    case Address(ip) => e.ip == ip
    case Account(name) => name != "" && NameOf(e.email) == name
  }

  /** The reply to login n of a run. */
  predicate Refused(run: seq<Login>, n: nat)
    requires n < |run|
  {
    !Admits(StateAt(run, n), run[n])
  }

  /** When the admitted logins of a party failed since it last logged in. */
  function FailuresOf(run: seq<Login>, n: nat, p: Party): seq<int>
    requires n <= |run|
  {
    if n == 0 then []
    else
      var before, e := FailuresOf(run, n - 1, p), run[n - 1];
      if !Concerns(p, e) || Refused(run, n - 1) then before
      else if e.credentials.Accepted? then []
      else before + [e.now]
  }

  lemma NoFailures(run: seq<Login>, p: Party)
    ensures FailuresOf(run, 0, p) == []
  {}

  lemma FailuresOfNext(run: seq<Login>, n: nat, p: Party)
    requires n < |run|
    ensures FailuresOf(run, n + 1, p)
            == if !Concerns(p, run[n]) || Refused(run, n) then FailuresOf(run, n, p)
               else if run[n].credentials.Accepted? then []
               else FailuresOf(run, n, p) + [run[n].now]
  {
    hide Refused, Concerns;
  }

  // Shared keys

  function KeyOf(p: Party): string {
    match p
    case Address(ip) => "ip:" + ip
    case Account(name) => "email:" + name
  }

  lemma KeysFiled(e: Login)
    ensures Keys(e) == [KeyOf(Address(e.ip))] + if NameOf(e.email) != "" then [KeyOf(Account(NameOf(e.email)))] else []
  {}

  lemma KeysDiffer(p: Party, q: Party)
    ensures KeyOf(p) == KeyOf(q) <==> p == q
    ensures KeyOf(p) != ""
  {
    assert KeyOf(p)[0] == (if p.Address? then 'i' else 'e') && KeyOf(q)[0] == (if q.Address? then 'i' else 'e');
    if p.Address? && q.Address? {
      assert KeyOf(p)[3..] == p.ip && KeyOf(q)[3..] == q.ip;
    }
    if p.Account? && q.Account? {
      assert KeyOf(p)[6..] == p.name && KeyOf(q)[6..] == q.name;
    }
  }

  lemma FiledIff(p: Party, e: Login)
    requires p.Account? ==> p.name != ""
    ensures KeyOf(p) in Keys(e) <==> Concerns(p, e)
  {
    KeysFiled(e);
    KeysDiffer(p, Address(e.ip));
    KeysDiffer(p, Account(NameOf(e.email)));
    hide Keys, KeyOf, NameOf;
  }

  lemma FoldKeepsLength(s: string)
    ensures ToLower(s) == "" <==> s == ""
  {}

  /** Two logins are counted together exactly if they come from one address or name one account:
      the same text, up to case and surrounding white space, that is not blank. */
  lemma SharedKeyIff(a: Login, b: Login)
    ensures (exists key :: key in Keys(a) && key in Keys(b))
            <==> a.ip == b.ip || (TrimSpace(a.email) != "" && EqualFold(TrimSpace(a.email), TrimSpace(b.email)))
  {
    FoldKeepsLength(TrimSpace(a.email));
    KeysFiled(a);
    KeysFiled(b);
    KeysDiffer(Address(a.ip), Address(b.ip));
    KeysDiffer(Address(a.ip), Account(NameOf(b.email)));
    KeysDiffer(Address(b.ip), Account(NameOf(a.email)));
    KeysDiffer(Account(NameOf(a.email)), Account(NameOf(b.email)));
    hide KeyOf, Keys, ToLower, TrimSpace;
    assert a.ip == b.ip ==> KeyOf(Address(a.ip)) in Keys(a) && KeyOf(Address(a.ip)) in Keys(b);
    assert NameOf(a.email) != "" && NameOf(a.email) == NameOf(b.email) ==>
        KeyOf(Account(NameOf(a.email))) in Keys(a) && KeyOf(Account(NameOf(a.email))) in Keys(b);
  }

  // Verdicts

  lemma NothingFiled(run: seq<Login>, key: string)
    ensures Failures(run, 0, key) == []
  {}

  lemma FailuresOfStep(run: seq<Login>, n: nat, p: Party)
    requires n < |run| && (p.Account? ==> p.name != "") && FailuresOf(run, n, p) == Failures(run, n, KeyOf(p))
    ensures FailuresOf(run, n + 1, p) == Failures(run, n + 1, KeyOf(p))
  {
    FiledIff(p, run[n]);
    hide Keys, KeyOf, Concerns, Admits, StateAt;
  }

  /** What is counted against a party is the history of its key. */
  lemma {:induction false} FailuresAreFiled(run: seq<Login>, n: nat, p: Party)
    requires n <= |run| && (p.Account? ==> p.name != "")
    ensures FailuresOf(run, n, p) == Failures(run, n, KeyOf(p))
  {
    hide *;
    if n == 0 {
      NoFailures(run, p);
      NothingFiled(run, KeyOf(p));
      return;
    }
    FailuresAreFiled(run, n - 1, p);
    FailuresOfStep(run, n - 1, p);
  }

  /** How long a login has to wait, by what is counted against its address and its account. */
  function Remaining(run: seq<Login>, n: nat, p: Party): nat
    requires n < |run|
  {
    RemainingLock(FailuresOf(run, n, p), run[n].now)
  }

  function Longer(a: nat, b: nat): nat { if a < b then b else a }

  lemma PartyWait(run: seq<Login>, n: nat, p: Party)
    requires n < |run| && ValidRun(run) && (p.Account? ==> p.name != "")
    ensures RetryAfter(StateAt(run, n), KeyOf(p), run[n].now) == Remaining(run, n, p)
  {
    KeysDiffer(p, p);
    FailuresAreFiled(run, n, p);
    VerdictFromHistory(run, n, KeyOf(p));
  }

  lemma LongestOfOne(m: Attempts, a: string, now: int)
    ensures LongestRetry(m, [a], now) == RetryAfter(m, a, now)
  {
    hide RetryAfter;
  }

  lemma LongestOfTwo(m: Attempts, a: string, b: string, now: int)
    ensures LongestRetry(m, [a, b], now) == Longer(RetryAfter(m, a, now), RetryAfter(m, b, now))
  {
    LongestOfOne(m, a, now);
    hide RetryAfter;
    assert [a, b][..1] == [a];
  }

  lemma LockedIsRemaining(ts: seq<int>, now: int)
    ensures LockedAt(ts, now) <==> RemainingLock(ts, now) > 0
  {}

  /** A login is refused exactly while a lock of its address or of its account lasts, and is told
      to wait until the later of the two ends. */
  lemma RefusedIff(run: seq<Login>, n: nat)
    requires n < |run| && ValidRun(run)
    ensures var e, now := run[n], run[n].now;
            var address, account := FailuresOf(run, n, Address(e.ip)), FailuresOf(run, n, Account(NameOf(e.email)));
            var named := TrimSpace(e.email) != "";
            && (Refused(run, n) <==> LockedAt(address, now) || (named && LockedAt(account, now)))
            && LongestRetry(StateAt(run, n), Keys(e), now)
               == Longer(RemainingLock(address, now), if named then RemainingLock(account, now) else 0)
  {
    var e, m := run[n], StateAt(run, n);
    var address, account := Address(e.ip), Account(NameOf(e.email));
    FoldKeepsLength(TrimSpace(e.email));
    KeysFiled(e);
    PartyWait(run, n, address);
    LockedIsRemaining(FailuresOf(run, n, address), e.now);
    LockedIsRemaining(FailuresOf(run, n, account), e.now);
    if NameOf(e.email) != "" { PartyWait(run, n, account); }
    assert NameOf(e.email) == ToLower(TrimSpace(e.email));
    hide Keys, KeyOf, StateAt, FailuresOf, LongestRetry, RetryAfter, LockedAt, RemainingLock, NameOf, TrimSpace, ValidRun, ToLower;
    if NameOf(e.email) != "" {
      LongestOfTwo(m, KeyOf(address), KeyOf(account), e.now);
      assert [KeyOf(address)] + [KeyOf(account)] == [KeyOf(address), KeyOf(account)];
    } else {
      LongestOfOne(m, KeyOf(address), e.now);
      assert [KeyOf(address)] + [] == [KeyOf(address)];
    }
  }

  /** Once a party has locked, each of its logins is refused until the lock ends. */
  lemma LockedParty(run: seq<Login>, n: nat, later: nat, p: Party)
    requires n <= later < |run| && ValidRun(run) && Concerns(p, run[later])
    requires LockedAt(FailuresOf(run, n, p), run[later].now)
    ensures Refused(run, later) && FailuresOf(run, later, p) == FailuresOf(run, n, p)
  {
    KeysDiffer(p, p);
    FiledIff(p, run[later]);
    FailuresAreFiled(run, n, p);
    FailuresAreFiled(run, later, p);
    hide Keys, KeyOf, StateAt, FailuresOf, Failures, ValidRun;
    LockPersists(run, n, later, KeyOf(p));
  }

  // Five failures

  /** The last five failures lie within ten minutes, and any before them are at least as far away. */
  ghost predicate FiveTogether(ts: seq<int>) {
    && |ts| >= 5
    && ts[|ts| - 1] - ts[|ts| - 5] <= 600_000_000_000
    && (forall i :: 0 <= i < |ts| - 5 ==> ts[|ts| - 5] - ts[i] > 600_000_000_000)
  }

  lemma LastWindow(ts: seq<int>, from: nat, i: nat)
    requires from <= i < |ts| && Ordered(ts) && ts[i] - ts[from] <= AUTH_ATTEMPT_WINDOW
    requires forall j :: 0 <= j < from ==> ts[from] - ts[j] > AUTH_ATTEMPT_WINDOW
    ensures WindowOpener(ts, AUTH_ATTEMPT_WINDOW, i) == from
    decreases i
  {
    if i > from {
      assert ts[i - 1] <= ts[i];
      LastWindow(ts, from, i - 1);
    }
  }

  lemma HistoryOrdered(run: seq<Login>, n: nat, p: Party)
    requires n <= |run| && ValidRun(run) && (p.Account? ==> p.name != "")
    ensures Ordered(FailuresOf(run, n, p))
  {
    KeysDiffer(p, p);
    FailuresAreFiled(run, n, p);
    hide FailuresOf, Failures, ValidRun, StateAt, KeyOf;
    EntryMatchesHistory(run, n, KeyOf(p));
  }

  /** Five failures of an account in one window, from whatever addresses, shut it for every
      address for fifteen minutes from the fifth. */
  lemma FiveFailuresLock(run: seq<Login>, n: nat, later: nat, email: string)
    requires n <= later < |run| && ValidRun(run) && TrimSpace(email) != ""
    requires FiveTogether(FailuresOf(run, n, Account(NameOf(email))))
    requires NameOf(run[later].email) == NameOf(email)
    requires var ts := FailuresOf(run, n, Account(NameOf(email))); run[later].now < ts[|ts| - 1] + 900_000_000_000
    ensures Refused(run, later)
  {
    var p := Account(NameOf(email));
    var ts := FailuresOf(run, n, p);
    FoldKeepsLength(TrimSpace(email));
    HistoryOrdered(run, n, p);
    hide FailuresOf, StateAt, ValidRun, WindowOpener;
    LastWindow(ts, |ts| - 5, |ts| - 1);
    assert LockedAt(ts, run[later].now);
    LockedParty(run, n, later, p);
  }

  // Such runs exist

  ghost predicate InOrder(run: seq<Login>) {
    && (forall i :: 0 <= i < |run| ==> run[i].now > 0)
    && (forall i, j :: 0 <= i <= j < |run| ==> run[i].now <= run[j].now)
  }

  function KeysSoFar(run: seq<Login>, n: nat): set<string>
    requires n <= |run|
  {
    if n == 0 then {} else KeysSoFar(run, n - 1) + KeySet(Keys(run[n - 1]))
  }

  lemma KeySetSize(e: Login)
    ensures |KeySet(Keys(e))| <= 2
  {
    var all := {KeyOf(Address(e.ip)), KeyOf(Account(NameOf(e.email)))};
    KeysFiled(e);
    hide Keys, KeyOf;
    SubsetSize(KeySet(Keys(e)), all);
  }

  lemma NextKeys(m: Attempts, e: Login)
    ensures Next(m, e).Keys <= m.Keys + KeySet(Keys(e))
  {
    FailureKeys(Pruned(m, e.now), Keys(e), e.now);
    KeysAreDistinct(e);
    PrunedOnce(m, e.now);
    NextKeysOf(Pruned(m, e.now), Keys(e), e.now);
  }

  lemma {:induction false} NextKeysOf(m: Attempts, keys: seq<string>, now: int)
    ensures WithFailures(m, keys, now).Keys <= m.Keys + KeySet(keys)
  {
    if keys != [] {
      NextKeysOf(m, keys[..|keys| - 1], now);
      assert keys == keys[..|keys| - 1] + [keys[|keys| - 1]];
    }
  }

  lemma {:induction false} FewKeys(run: seq<Login>, n: nat)
    requires n <= |run|
    ensures StateAt(run, n).Keys <= KeysSoFar(run, n) && |KeysSoFar(run, n)| <= 2 * n
  {
    hide *;
    if n == 0 {
      NoKeys(run);
      return;
    }
    FewKeys(run, n - 1);
    KeysStep(run, n - 1);
    NextKeys(StateAt(run, n - 1), run[n - 1]);
    KeySetSize(run[n - 1]);
    MoreKeys(StateAt(run, n - 1).Keys, KeysSoFar(run, n - 1), KeySet(Keys(run[n - 1])), StateAt(run, n).Keys, n - 1);
  }

  lemma MoreKeys(held: set<string>, seen: set<string>, keys: set<string>, next: set<string>, n: nat)
    requires held <= seen && |seen| <= 2 * n && |keys| <= 2 && next <= held + keys
    ensures next <= seen + keys && |seen + keys| <= 2 * (n + 1)
  {
    UnionSize(seen, keys);
  }

  lemma NoKeys(run: seq<Login>)
    ensures StateAt(run, 0) == map[] && KeysSoFar(run, 0) == {}
  {}

  lemma KeysStep(run: seq<Login>, n: nat)
    requires n < |run|
    ensures StateAt(run, n + 1) == Next(StateAt(run, n), run[n])
    ensures KeysSoFar(run, n + 1) == KeysSoFar(run, n) + KeySet(Keys(run[n]))
  {}

  lemma UnionSize<T>(a: set<T>, b: set<T>)
    ensures |a + b| <= |a| + |b|
  {
    assert a + b == a + (b - a) && |a + (b - a)| == |a| + |b - a|;
    SubsetSize(b - a, b);
  }

  /** A run of at most five thousand logins stays under the cap. */
  lemma ShortRunsAreValid(run: seq<Login>)
    requires InOrder(run) && |run| <= 5000
    ensures ValidRun(run)
  {
    hide Keys, StateAt;
    forall i | 0 <= i < |run| ensures FitsAt(run, i) {
      FewKeys(run, i);
      KeySetSize(run[i]);
      SubsetSize(Pruned(StateAt(run, i), run[i].now).Keys + KeySet(Keys(run[i])), KeysSoFar(run, i) + KeySet(Keys(run[i])));
    }
  }

  lemma {:induction false} FailuresFew(run: seq<Login>, n: nat, p: Party)
    requires n <= |run|
    ensures |FailuresOf(run, n, p)| <= n
  {
    hide *;
    if n == 0 {
      NoFailures(run, p);
      return;
    }
    FailuresFew(run, n - 1, p);
    FailuresOfNext(run, n - 1, p);
  }

  /** A run of wrong passwords for one account. */
  ghost predicate Guessed(run: seq<Login>, name: string) {
    InOrder(run) && forall i :: 0 <= i < |run| ==> run[i].credentials.Rejected? && NameOf(run[i].email) == name
  }

  lemma FewDoNotLock(ts: seq<int>, now: int)
    requires |ts| < 5
    ensures !LockedAt(ts, now)
  {}

  lemma NotYet(run: seq<Login>, n: nat, name: string)
    requires n < 5 && n < |run| <= 5000 && Guessed(run, name) && name != ""
    ensures !Refused(run, n)
    ensures FailuresOf(run, n + 1, Account(name)) == FailuresOf(run, n, Account(name)) + [run[n].now]
  {
    ShortRunsAreValid(run);
    var e := run[n];
    assert Concerns(Account(name), e) && e.credentials.Rejected? && NameOf(e.email) == name;
    hide *;
    FailuresFew(run, n, Address(e.ip));
    FailuresFew(run, n, Account(name));
    FewDoNotLock(FailuresOf(run, n, Address(e.ip)), e.now);
    FewDoNotLock(FailuresOf(run, n, Account(name)), e.now);
    RefusedIff(run, n);
    FailuresOfNext(run, n, Account(name));
  }

  function Moments(run: seq<Login>, n: nat): seq<int>
    requires n <= |run|
  {
    seq(n, i requires 0 <= i < n => run[i].now)
  }

  lemma {:induction false} FirstFive(run: seq<Login>, n: nat, name: string)
    requires n <= 5 && n <= |run| <= 5000 && Guessed(run, name) && name != ""
    ensures forall i :: 0 <= i < n ==> !Refused(run, i)
    ensures FailuresOf(run, n, Account(name)) == Moments(run, n)
  {
    hide Refused, Guessed, FailuresOf;
    if n == 0 {
      NoFailures(run, Account(name));
      return;
    }
    FirstFive(run, n - 1, name);
    NotYet(run, n - 1, name);
  }

  lemma ClockStep(run: seq<Login>, n: nat, ts: seq<int>)
    requires n < |run| && InOrder(run)
    ensures run[n].now <= Clock(run, n + 1)
    ensures (forall t :: t in ts ==> t <= Clock(run, n)) ==> (forall t :: t in ts ==> t <= Clock(run, n + 1))
  {}

  lemma {:induction false} FailuresPast(run: seq<Login>, n: nat, p: Party)
    requires n <= |run| && InOrder(run)
    ensures forall t :: t in FailuresOf(run, n, p) ==> t <= Clock(run, n)
  {
    hide *;
    if n == 0 {
      NoFailures(run, p);
      return;
    }
    FailuresPast(run, n - 1, p);
    FailuresOfNext(run, n - 1, p);
    ClockStep(run, n - 1, FailuresOf(run, n - 1, p));
  }

  lemma OldDoNotLock(ts: seq<int>, clock: int, now: int)
    requires (forall t :: t in ts ==> t <= clock) && now >= clock + 900_000_000_000
    ensures !LockedAt(ts, now)
  {
    if ts != [] { assert ts[|ts| - 1] in ts; }
  }

  /** Five wrong passwords for an account within ten minutes are each let through, from whatever
      addresses; the sixth login is refused, from any address, exactly if it comes less than
      fifteen minutes after the fifth. */
  lemma SixthRefusedIff(run: seq<Login>, email: string)
    requires |run| == 6 && Guessed(run, NameOf(email)) && TrimSpace(email) != ""
    requires run[4].now - run[0].now <= 600_000_000_000
    ensures ValidRun(run)
    ensures !Refused(run, 0) && !Refused(run, 1) && !Refused(run, 2) && !Refused(run, 3) && !Refused(run, 4)
    ensures Refused(run, 5) <==> run[5].now < run[4].now + 900_000_000_000
  {
    var p, q := Account(NameOf(email)), Address(run[5].ip);
    FoldKeepsLength(TrimSpace(email));
    ShortRunsAreValid(run);
    FailuresPast(run, 5, p);
    FailuresPast(run, 5, q);
    hide StateAt, Admits, FailuresOf, Refused, LockedAt;
    FirstFive(run, 5, NameOf(email));
    if run[5].now < run[4].now + 900_000_000_000 {
      FiveFailuresLock(run, 5, 5, email);
    } else {
      OldDoNotLock(FailuresOf(run, 5, p), run[4].now, run[5].now);
      OldDoNotLock(FailuresOf(run, 5, q), run[4].now, run[5].now);
      RefusedIff(run, 5);
    }
  }
}
