/** One-shot Studio session codes (internal/api/auth_handlers.go). The random code of
    Create is an input. */
module StudioSessions {
  import opened Text

  datatype TokenClaims = TokenClaims(subject: string, email: string, role: string)
  datatype Session = Session(claims: TokenClaims, projectRef: string, expiresAt: int)
  type Codes = map<string, Session>

  datatype Failure = CodeRequired | CodeInvalid | CodeExpired | WrongProject
  datatype Outcome = Granted(claims: TokenClaims) | Refused(failure: Failure)

  function Unexpired(codes: Codes, now: int): Codes {
    map c | c in codes && now < codes[c].expiresAt :: codes[c]
  }

  class StudioSessionStore {
    var codes: Codes

    constructor ()
      ensures codes == map[]
    {
      codes := map[];
    }

    /** `issuedAt` and `now` are the two clock readings that Create takes. */
    method Create(code: string, claims: TokenClaims, projectRef: string, ttl: int, issuedAt: int, now: int) returns (expiresAt: int)
      modifies this
      ensures expiresAt == issuedAt + ttl
      ensures codes == Unexpired(old(codes), now)[code := Session(claims, TrimSpace(projectRef), expiresAt)]
    {
      expiresAt := issuedAt + ttl;
      CleanupLocked(now);
      codes := codes[code := Session(claims, TrimSpace(projectRef), expiresAt)];
    }

    method Consume(code: string, projectRef: string, now: int) returns (outcome: Outcome)
      modifies this
      ensures codes == AfterConsume(old(codes), code, now)
      ensures outcome == Verdict(old(codes), code, projectRef, now)
    {
      var trimmed := TrimSpace(code);
      if trimmed == "" { return Refused(CodeRequired); }
      CleanupLocked(now);
      if trimmed !in codes { return Refused(CodeInvalid); }
      var session := codes[trimmed];
      codes := codes - {trimmed};
      if !(now < session.expiresAt) { return Refused(CodeExpired); }
      if !EqualFold(TrimSpace(session.projectRef), TrimSpace(projectRef)) { return Refused(WrongProject); }
      return Granted(session.claims);
    }

    method CleanupLocked(now: int)
      modifies this
      ensures codes == Unexpired(old(codes), now)
    {
      var rest := codes.Keys;
      while rest != {}
        invariant rest <= codes.Keys <= old(codes).Keys
        invariant forall c :: c in codes ==> codes[c] == old(codes)[c]
        invariant forall c :: c in old(codes) && c !in rest ==> (c in codes <==> now < old(codes)[c].expiresAt)
        decreases rest
      {
        var code :| code in rest;
        rest := rest - {code};
        if !(now < codes[code].expiresAt) { codes := codes - {code}; }
      }
    }
  }

  function AfterConsume(codes: Codes, code: string, now: int): Codes {
    if TrimSpace(code) == "" then codes else Unexpired(codes, now) - {TrimSpace(code)}
  }

  function Verdict(codes: Codes, code: string, projectRef: string, now: int): Outcome {
    var trimmed, live := TrimSpace(code), Unexpired(codes, now);
    if trimmed == "" then Refused(CodeRequired)
    else if trimmed !in live then Refused(CodeInvalid)
    else if EqualFold(TrimSpace(live[trimmed].projectRef), TrimSpace(projectRef)) then Granted(live[trimmed].claims)
    else Refused(WrongProject)
  }

  // Runs

  datatype Call =
    | Create(code: string, claims: TokenClaims, projectRef: string, ttl: int, issuedAt: int, now: int)
    | Consume(code: string, projectRef: string, now: int)

  function Next(codes: Codes, c: Call): Codes {
    match c
    case Create(code, claims, projectRef, ttl, issuedAt, now) =>
      Unexpired(codes, now)[code := Session(claims, TrimSpace(projectRef), issuedAt + ttl)]
    case Consume(code, _, now) => AfterConsume(codes, code, now)
  }

  function StateAt(run: seq<Call>, n: nat): Codes
    requires n <= |run|
  {
    if n == 0 then map[] else Next(StateAt(run, n - 1), run[n - 1])
  }

  datatype Pending = Nothing | Issued(at: nat)

  /** The last Create of a code that no Consume of the code, successful or not, has followed. */
  function LastIssued(run: seq<Call>, n: nat, code: string): (p: Pending)
    requires n <= |run|
    ensures p.Issued? ==> p.at < n && run[p.at].Create? && run[p.at].code == code
    ensures p.Issued? ==> forall i :: p.at < i < n && run[i].Consume? ==> TrimSpace(run[i].code) != code
  {
    if n == 0 then Nothing
    else match run[n - 1]
      case Create(c, _, _, _, _, _) => if c == code then Issued(n - 1) else LastIssued(run, n - 1, code)
      case Consume(c, _, _) => if TrimSpace(c) == code then Nothing else LastIssued(run, n - 1, code)
  }

  function SessionOf(c: Call): Session
    requires c.Create?
  {
    Session(c.claims, TrimSpace(c.projectRef), c.issuedAt + c.ttl)
  }

  /** The calls that remove expired sessions. */
  predicate CleansUp(c: Call) { c.Create? || TrimSpace(c.code) != "" }

  /** No call between the two has cleaned up with a clock reading at or after the instant. The
      clock is read before the lock is taken, so the readings need not be in order. */
  ghost predicate NoCleanupFrom(run: seq<Call>, from: nat, to: nat, instant: int) {
    forall i :: from <= i < to && i < |run| && CleansUp(run[i]) ==> run[i].now < instant
  }

  /** The store holds a code exactly while its last issue is pending and no cleanup since has
      read the clock at or after its expiry, and then with what that issue was given. */
  lemma {:induction false} StoreMatchesHistory(run: seq<Call>, n: nat, code: string)
    requires n <= |run| && code != ""
    ensures var codes, p := StateAt(run, n), LastIssued(run, n, code);
            && (code in codes <==> p.Issued? && NoCleanupFrom(run, p.at + 1, n, SessionOf(run[p.at]).expiresAt))
            && (code in codes ==> codes[code] == SessionOf(run[p.at]))
  {
    hide *;
    Start(run, code);
    if n == 0 { return; }
    var c := run[n - 1];
    StoreMatchesHistory(run, n - 1, code);
    Step(run, n - 1, code);
    CodeKept(StateAt(run, n - 1), c, code);
    var p := LastIssued(run, n - 1, code);
    if p.Issued? { OneMoreCleanup(run, p.at + 1, n - 1, SessionOf(run[p.at]).expiresAt); }
    if c.Create? { NoneYet(run, n, SessionOf(c).expiresAt); }
  }

  predicate Takes(c: Call, code: string) { c.Consume? && TrimSpace(c.code) == code }

  lemma Start(run: seq<Call>, code: string)
    ensures StateAt(run, 0) == map[] && LastIssued(run, 0, code) == Nothing
  {}

  lemma Step(run: seq<Call>, n: nat, code: string)
    requires n < |run|
    ensures StateAt(run, n + 1) == Next(StateAt(run, n), run[n])
    ensures LastIssued(run, n + 1, code)
            == if run[n].Create? && run[n].code == code then Issued(n)
               else if Takes(run[n], code) then Nothing
               else LastIssued(run, n, code)
  {}

  /** What one call does to a code's entry. */
  lemma CodeKept(codes: Codes, c: Call, code: string)
    requires code != ""
    ensures var next := Next(codes, c);
            if c.Create? && c.code == code then code in next && next[code] == SessionOf(c)
            else
              && (code in next <==> code in codes && !Takes(c, code) && (CleansUp(c) ==> c.now < codes[code].expiresAt))
              && (code in next ==> next[code] == codes[code])
  {}

  lemma NoneYet(run: seq<Call>, n: nat, instant: int)
    ensures NoCleanupFrom(run, n, n, instant)
  {}

  /** A Consume succeeds exactly when the code's last Create is still pending, has not expired by
      its own clock reading or that of any cleanup since, and was for this project; the claims
      are those given to that Create. */
  lemma ConsumeExactly(run: seq<Call>, n: nat)
    requires n < |run| && run[n].Consume?
    ensures var code, now := TrimSpace(run[n].code), run[n].now;
            var p := LastIssued(run, n, code);
            var outcome := Verdict(StateAt(run, n), run[n].code, run[n].projectRef, now);
            && (outcome.Granted? <==>
                  && code != "" && p.Issued?
                  && NoCleanupFrom(run, p.at + 1, n + 1, run[p.at].issuedAt + run[p.at].ttl)
                  && EqualFold(TrimSpace(TrimSpace(run[p.at].projectRef)), TrimSpace(run[n].projectRef)))
            && (outcome.Granted? ==> now < run[p.at].issuedAt + run[p.at].ttl && outcome.claims == run[p.at].claims)
  {
    hide StateAt, NoCleanupFrom, TrimSpace, EqualFold;
    var code := TrimSpace(run[n].code);
    var p := LastIssued(run, n, code);
    if code != "" {
      StoreMatchesHistory(run, n, code);
      if p.Issued? { OneMoreCleanup(run, p.at + 1, n, run[p.at].issuedAt + run[p.at].ttl); }
    }
  }

  /** What a Consume should be told: that a code is required, that it is not there (never issued,
      taken, or cleaned up), that it is for another project, or the claims; never of an expiry. */
  ghost function Answer(run: seq<Call>, n: nat): Outcome
    requires n < |run| && run[n].Consume?
  {
    var code := TrimSpace(run[n].code);
    var p := LastIssued(run, n, code);
    if code == "" then Refused(CodeRequired)
    else if p.Nothing? || !NoCleanupFrom(run, p.at + 1, n + 1, run[p.at].issuedAt + run[p.at].ttl) then Refused(CodeInvalid)
    else if EqualFold(TrimSpace(TrimSpace(run[p.at].projectRef)), TrimSpace(run[n].projectRef)) then Granted(run[p.at].claims)
    else Refused(WrongProject)
  }

  lemma VerdictFrom(codes: Codes, code: string, projectRef: string, now: int)
    ensures var key := TrimSpace(code);
            Verdict(codes, code, projectRef, now)
            == if key == "" then Refused(CodeRequired)
               else if key !in codes || now >= codes[key].expiresAt then Refused(CodeInvalid)
               else if EqualFold(TrimSpace(codes[key].projectRef), TrimSpace(projectRef)) then Granted(codes[key].claims)
               else Refused(WrongProject)
  {
    hide TrimSpace, EqualFold;
  }

  /** And it is. */
  lemma ConsumeAnswer(run: seq<Call>, n: nat)
    requires n < |run| && run[n].Consume?
    ensures Verdict(StateAt(run, n), run[n].code, run[n].projectRef, run[n].now) == Answer(run, n)
  {
    var code := TrimSpace(run[n].code);
    var p := LastIssued(run, n, code);
    VerdictFrom(StateAt(run, n), run[n].code, run[n].projectRef, run[n].now);
    hide StateAt, NoCleanupFrom, TrimSpace, EqualFold, Verdict, LastIssued;
    if code != "" {
      StoreMatchesHistory(run, n, code);
      if p.Issued? { OneMoreCleanup(run, p.at + 1, n, run[p.at].issuedAt + run[p.at].ttl); }
    }
  }

  lemma OneMoreCleanup(run: seq<Call>, from: nat, to: nat, instant: int)
    requires from <= to < |run|
    ensures NoCleanupFrom(run, from, to + 1, instant)
            <==> NoCleanupFrom(run, from, to, instant) && (CleansUp(run[to]) ==> run[to].now < instant)
  {}

  /** Two Consumes of one code, the second of them successful, have a Create of it between them. */
  lemma ConsumedOncePerCreate(run: seq<Call>, i: nat, j: nat)
    requires i < j < |run|
    requires run[i].Consume? && run[j].Consume? && TrimSpace(run[i].code) == TrimSpace(run[j].code)
    requires Verdict(StateAt(run, j), run[j].code, run[j].projectRef, run[j].now).Granted?
    ensures exists k :: i < k < j && run[k].Create? && run[k].code == TrimSpace(run[j].code)
  {
    ConsumeExactly(run, j);
    var p := LastIssued(run, j, TrimSpace(run[j].code));
    assert i < p.at < j;
  }
}
