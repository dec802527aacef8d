/** Upgrade requests of one project that overlap (internal/api/project_lifecycle_handlers.go): the
    handler takes no lock. A request reads the stored version and validates, calls the provisioner,
    and then writes the store or calls the provisioner once more to roll back. Each of these is a
    step of its own, and the steps of different requests interleave freely. */
module UpgradeOverlaps {
  import opened StackVersions
  import opened Text
  import opened UpgradeSaga
  import opened Wrappers

  datatype Phase = Ready | Installed | Broken | Done

  /** A successful write of the store. */
  datatype Written = Written(writer: nat, version: string)

  /** A request that got past its checks. `previous` is the version that it read, `since` the last
      successful write since then. */
  datatype Job = Job(previous: string, target: string, phase: Phase, since: Option<Written>)

  /** A call of the provisioner: the version it left running, and what its request has read and
      what was written since. */
  datatype Call = Call(caller: nat, left: string, previous: string, since: Option<Written>)

  datatype Race = Race(stored: string, runtime: string, jobs: map<nat, Job>, last: Option<Call>)

  datatype Step =
    | Start(id: nat, request: Request, world: World)
    | Inject(id: nat)                                       // the injected failure
    | Install(id: nat, ok: bool, otherwise: string)         // a failed call leaves any version
    | RollBack(id: nat, ok: bool, otherwise: string)
    | Write(id: nat, ok: bool)

  predicate In(s: Race, id: nat, phase: Phase) { id in s.jobs && s.jobs[id].phase == phase }

  predicate Enabled(s: Race, step: Step) {
    match step
    case Start(id, r, w) => id !in s.jobs && Proceeds(s.stored, r, w)
    case Inject(id) => In(s, id, Ready)
    case Install(id, _, _) => In(s, id, Ready)
    case RollBack(id, _, _) => In(s, id, Broken)
    case Write(id, _) => In(s, id, Installed)
  }

  function Called(s: Race, id: nat, left: string, phase: Phase): Race
    requires id in s.jobs
  {
    var job := s.jobs[id];
    s.(runtime := left, jobs := s.jobs[id := job.(phase := phase)], last := Some(Call(id, left, job.previous, job.since)))
  }

  function Stored(s: Race, w: Written): Race {
    Race(w.version, s.runtime, map id | id in s.jobs :: s.jobs[id].(since := Some(w)),
         if s.last.Some? then Some(s.last.value.(since := Some(w))) else None)
  }

  /** A step that is not enabled does nothing. */
  function Next(s: Race, step: Step): Race {
    if !Enabled(s, step) then s
    else match step
      case Start(id, r, _) => s.(jobs := s.jobs[id := Job(s.stored, TrimSpace(r.version), Ready, None)])
      case Inject(id) => s.(jobs := s.jobs[id := s.jobs[id].(phase := Broken)])
      case Install(id, ok, otherwise) =>
        if ok then Called(s, id, s.jobs[id].target, Installed) else Called(s, id, otherwise, Broken)
      case RollBack(id, ok, otherwise) => Called(s, id, if ok then s.jobs[id].previous else otherwise, Done)
      case Write(id, ok) =>
        var done := s.(jobs := s.jobs[id := s.jobs[id].(phase := Done)]);
        if ok then Stored(done, Written(id, s.jobs[id].target)) else done
  }

  function Begin(stored: string, runtime: string): Race { Race(stored, runtime, map[], None) }

  function Raced(stored: string, runtime: string, steps: seq<Step>): Race {
    if steps == [] then Begin(stored, runtime) else Next(Raced(stored, runtime, steps[..|steps| - 1]), steps[|steps| - 1])
  }

  lemma RacedStep(stored: string, runtime: string, steps: seq<Step>, step: Step)
    ensures Raced(stored, runtime, steps + [step]) == Next(Raced(stored, runtime, steps), step)
  {
    assert (steps + [step])[..|steps|] == steps;
  }

  // What store and runtime hold

  /** What a request would find in the store now. */
  function Found(previous: string, since: Option<Written>): string {
    if since.Some? then since.value.version else previous
  }

  ghost predicate JobFits(s: Race, id: nat)
    requires id in s.jobs
  {
    var job := s.jobs[id];
    && s.stored == Found(job.previous, job.since) && Compare(job.target, job.previous) > 0
    && (job.since.Some? && job.since.value.writer == id ==> job.phase.Done?)
  }

  ghost predicate CallFits(s: Race, call: Call) {
    && s.runtime == call.left && call.caller in s.jobs
    && var job := s.jobs[call.caller];
    && call.previous == job.previous && call.since == job.since
    && (job.phase.Installed? || (job.since.Some? && job.since.value.writer == call.caller) ==> call.left == job.target)
    && (job.since.Some? && job.since.value.writer == call.caller ==> job.since.value.version == job.target)
  }

  ghost predicate Fits(s: Race, stored: string, runtime: string) {
    && (forall id :: id in s.jobs ==> JobFits(s, id))
    && (if s.last.Some? then CallFits(s, s.last.value)
        else s.stored == stored && s.runtime == runtime && forall id :: id in s.jobs ==> !s.jobs[id].phase.Installed? && !s.jobs[id].phase.Done?)
  }

  lemma StartFits(s: Race, step: Step, stored: string, runtime: string)
    requires Fits(s, stored, runtime) && step.Start? && Enabled(s, step)
    ensures Fits(Next(s, step), stored, runtime)
  {
    hide Compare, TrimSpace, PreUpgradeBackup, Durable;
  }

  lemma CallFitsNext(s: Race, step: Step, stored: string, runtime: string)
    requires Fits(s, stored, runtime) && (step.Inject? || step.Install? || step.RollBack?)
    ensures Fits(Next(s, step), stored, runtime)
  {
    hide Compare;
  }

  lemma WriteFits(s: Race, step: Step, stored: string, runtime: string)
    requires Fits(s, stored, runtime) && step.Write?
    ensures Fits(Next(s, step), stored, runtime)
  {
    hide Compare;
  }

  lemma {:induction false} AlwaysFits(stored: string, runtime: string, steps: seq<Step>)
    ensures Fits(Raced(stored, runtime, steps), stored, runtime)
  {
    if steps == [] { return; }
    hide Fits, Next, Enabled;
    var s, step := Raced(stored, runtime, steps[..|steps| - 1]), steps[|steps| - 1];
    AlwaysFits(stored, runtime, steps[..|steps| - 1]);
    if !Enabled(s, step) { Disabled(s, step); }
    else if step.Start? { StartFits(s, step, stored, runtime); }
    else if step.Write? { WriteFits(s, step, stored, runtime); }
    else { CallFitsNext(s, step, stored, runtime); }
  }

  lemma Disabled(s: Race, step: Step)
    requires !Enabled(s, step)
    ensures Next(s, step) == s
  {}

  // Agreement

  /** At any moment of any run, store and runtime agree exactly if the last call of the provisioner
      left what its request would find in the store now: the version written last since the
      request read it or, if there is none, the one it read. */
  lemma RaceAgreesIff(stored: string, runtime: string, steps: seq<Step>)
    ensures var s := Raced(stored, runtime, steps);
            s.stored == s.runtime
            <==> if s.last.Some? then s.last.value.left == Found(s.last.value.previous, s.last.value.since) else stored == runtime
  {
    AlwaysFits(stored, runtime, steps);
    hide Compare, Raced;
  }

  /** No other request has written since the last one to call the provisioner read the store. */
  predicate Undisturbed(s: Race) {
    s.last.Some? ==> s.last.value.since.None? || s.last.value.since.value.writer == s.last.value.caller
  }

  /** If no other request has come between, the last caller decides as if it had been alone: they
      agree exactly if its write has succeeded, or its last call brought back what it had read. */
  lemma UndisturbedAgreesIff(stored: string, runtime: string, steps: seq<Step>)
    requires Undisturbed(Raced(stored, runtime, steps))
    ensures var s := Raced(stored, runtime, steps);
            s.stored == s.runtime
            <==> if s.last.Some? then s.last.value.since.Some? || s.last.value.left == s.last.value.previous else stored == runtime
  {
    AlwaysFits(stored, runtime, steps);
    RaceAgreesIff(stored, runtime, steps);
    hide Compare, Raced;
  }

  /** If another one has, they agree exactly if that one wrote what the last call left. */
  lemma DisturbedAgreesIff(stored: string, runtime: string, steps: seq<Step>)
    requires !Undisturbed(Raced(stored, runtime, steps))
    ensures var s := Raced(stored, runtime, steps);
            s.stored == s.runtime <==> s.last.value.since.value.version == s.last.value.left
  {
    RaceAgreesIff(stored, runtime, steps);
    hide Raced;
  }

  // Order

  /** A write raises the stored version exactly if no other write has come since its request read
      it, or the last that has was of a lower version. */
  lemma WriteRaisesIff(stored: string, runtime: string, steps: seq<Step>, id: nat)
    requires In(Raced(stored, runtime, steps), id, Installed)
    ensures var s := Raced(stored, runtime, steps);
            var job := s.jobs[id];
            && Next(s, Write(id, true)).stored == job.target
            && (Compare(job.target, s.stored) > 0 <==> job.since.None? || Compare(job.target, job.since.value.version) > 0)
  {
    AlwaysFits(stored, runtime, steps);
    hide Compare, Raced;
  }

  predicate StoresAt(stored: string, runtime: string, steps: seq<Step>, n: nat)
    requires n < |steps|
  {
    steps[n].Write? && steps[n].ok && Enabled(Raced(stored, runtime, steps[..n]), steps[n])
  }

  /** A write that comes after another request's write of a higher version. */
  predicate OvertakenAt(stored: string, runtime: string, steps: seq<Step>, n: nat)
    requires n < |steps|
  {
    && StoresAt(stored, runtime, steps, n)
    && var job := Raced(stored, runtime, steps[..n]).jobs[steps[n].id];
       job.since.Some? && Compare(job.since.value.version, job.target) > 0
  }

  predicate LowersAt(stored: string, runtime: string, steps: seq<Step>, n: nat)
    requires n < |steps|
  {
    Compare(Raced(stored, runtime, steps[..n]).stored, Raced(stored, runtime, steps[..n + 1]).stored) > 0
  }

  /** The stored version goes down at a step exactly if the step is a write that has been overtaken. */
  lemma LowersIffOvertaken(stored: string, runtime: string, steps: seq<Step>, n: nat)
    requires n < |steps|
    ensures LowersAt(stored, runtime, steps, n) <==> OvertakenAt(stored, runtime, steps, n)
  {
    hide Compare, Raced, Next, Enabled, Fits;
    var s, step := Raced(stored, runtime, steps[..n]), steps[n];
    assert steps[..n + 1] == steps[..n] + [step];
    RacedStep(stored, runtime, steps[..n], step);
    AlwaysFits(stored, runtime, steps[..n]);
    CompareZero(s.stored, s.stored);
    if StoresAt(stored, runtime, steps, n) {
      StoredNext(s, step);
      FoundByJob(s, stored, runtime, step.id);
      var job := s.jobs[step.id];
      CompareAntisymmetric(job.target, job.previous);
    } else {
      NotStoredNext(s, step);
    }
  }

  lemma StoredNext(s: Race, step: Step)
    requires step.Write? && step.ok && Enabled(s, step)
    ensures step.id in s.jobs && Next(s, step).stored == s.jobs[step.id].target
  {}

  lemma NotStoredNext(s: Race, step: Step)
    requires !(step.Write? && step.ok && Enabled(s, step))
    ensures Next(s, step).stored == s.stored
  {
    hide Proceeds;
  }

  lemma FoundByJob(s: Race, stored: string, runtime: string, id: nat)
    requires Fits(s, stored, runtime) && id in s.jobs
    ensures var job := s.jobs[id];
            s.stored == (if job.since.Some? then job.since.value.version else job.previous) && Compare(job.target, job.previous) > 0
  {}

  /** So the stored version never goes down in a run exactly if no write of it is overtaken. */
  lemma NeverLowersIff(stored: string, runtime: string, steps: seq<Step>)
    ensures (forall n :: 0 <= n < |steps| ==> !LowersAt(stored, runtime, steps, n))
            <==> (forall n :: 0 <= n < |steps| ==> !OvertakenAt(stored, runtime, steps, n))
  {
    hide LowersAt, OvertakenAt;
    forall n | 0 <= n < |steps| ensures LowersAt(stored, runtime, steps, n) <==> OvertakenAt(stored, runtime, steps, n) {
      LowersIffOvertaken(stored, runtime, steps, n);
    }
  }

  // Requests that do not overlap

  /** All steps of a request, with what the world answers; those that its course leaves out are
      not enabled. */
  function Alone(id: nat, r: Request, w: World): seq<Step> {
    [Start(id, r, w), if w.injectedFailure then Inject(id) else Install(id, w.upgradeOk, w.afterFailedUpgrade),
     RollBack(id, w.rollbackOk, w.afterFailedRollback), Write(id, w.storeWriteOk)]
  }

  function AllNext(s: Race, steps: seq<Step>): Race
    decreases |steps|
  {
    if steps == [] then s else AllNext(Next(s, steps[0]), steps[1..])
  }

  lemma {:induction false} RacedConcat(stored: string, runtime: string, steps: seq<Step>, more: seq<Step>)
    ensures Raced(stored, runtime, steps + more) == AllNext(Raced(stored, runtime, steps), more)
    decreases |more|
  {
    hide Raced, Next;
    if more == [] {
      assert steps + more == steps;
    } else {
      RacedStep(stored, runtime, steps, more[0]);
      assert steps + more == steps + [more[0]] + more[1..];
      RacedConcat(stored, runtime, steps + [more[0]], more[1..]);
    }
  }

  lemma FourNext(s: Race, a: Step, b: Step, c: Step, d: Step)
    ensures AllNext(s, [a, b, c, d]) == Next(Next(Next(Next(s, a), b), c), d)
  {
    hide Next;
    assert [a, b, c, d][1..] == [b, c, d] && [b, c, d][1..] == [c, d] && [c, d][1..] == [d] && [d][1..] == [];
    assert AllNext(Next(Next(Next(s, a), b), c), [d]) == Next(Next(Next(Next(s, a), b), c), d);
    assert AllNext(Next(Next(s, a), b), [c, d]) == AllNext(Next(Next(Next(s, a), b), c), [d]);
  }

  lemma AloneNext(s: Race, id: nat, r: Request, w: World, trace: seq<Effect>)
    requires id !in s.jobs
    ensures var next, handled := AllNext(s, Alone(id, r, w)), Handle(State(s.stored, s.runtime, trace), r, w).0;
            next.stored == handled.stored && next.runtime == handled.runtime && next.jobs.Keys <= s.jobs.Keys + {id}
  {
    hide Effects, Validate, PreUpgradeBackup, Durable, Compare, TrimSpace, AllNext;
    FourNext(s, Start(id, r, w), if w.injectedFailure then Inject(id) else Install(id, w.upgradeOk, w.afterFailedUpgrade),
             RollBack(id, w.rollbackOk, w.afterFailedRollback), Write(id, w.storeWriteOk));
  }

  /** The steps of requests that run one after another. */
  function OneByOne(run: seq<(Request, World)>): seq<Step> {
    if run == [] then []
    else OneByOne(run[..|run| - 1]) + Alone(|run| - 1, run[|run| - 1].0, run[|run| - 1].1)
  }

  lemma OneByOneStep(s: State, run: seq<(Request, World)>)
    requires run != []
    ensures var init, r, w := run[..|run| - 1], run[|run| - 1].0, run[|run| - 1].1;
            && OneByOne(run) == OneByOne(init) + Alone(|run| - 1, r, w)
            && After(s, run) == Handle(After(s, init), r, w).0
  {
    hide Alone, Handle;
  }

  ghost predicate Numbered(jobs: map<nat, Job>, n: nat) { forall id :: id in jobs ==> id < n }

  lemma NumberedNext(jobs: map<nat, Job>, more: map<nat, Job>, n: nat)
    requires Numbered(jobs, n) && more.Keys <= jobs.Keys + {n}
    ensures Numbered(more, n + 1)
  {}

  lemma NoneStarted(s: State)
    ensures Raced(s.stored, s.runtime, OneByOne([])) == Begin(s.stored, s.runtime) && After(s, []) == s
    ensures Numbered(Begin(s.stored, s.runtime).jobs, 0)
    ensures Begin(s.stored, s.runtime).stored == s.stored && Begin(s.stored, s.runtime).runtime == s.runtime
  {}

  lemma NotYetUsed(jobs: map<nat, Job>, n: nat)
    requires Numbered(jobs, n)
    ensures n !in jobs
  {}

  /** Requests that do not overlap leave the versions that the runs of the upgrade protocol do. */
  lemma {:induction false} OneByOneIsAfter(s: State, run: seq<(Request, World)>)
    ensures var raced := Raced(s.stored, s.runtime, OneByOne(run));
            && raced.stored == After(s, run).stored && raced.runtime == After(s, run).runtime
            && Numbered(raced.jobs, |run|)
  {
    hide *;
    if run == [] {
      NoneStarted(s);
      return;
    }
    var n, init, r, w := |run| - 1, run[..|run| - 1], run[|run| - 1].0, run[|run| - 1].1;
    OneByOneIsAfter(s, init);
    OneByOneStep(s, run);
    RacedConcat(s.stored, s.runtime, OneByOne(init), Alone(n, r, w));
    var before := Raced(s.stored, s.runtime, OneByOne(init));
    NotYetUsed(before.jobs, n);
    AloneNext(before, n, r, w, After(s, init).trace);
    NumberedNext(before.jobs, AllNext(before, Alone(n, r, w)).jobs, n);
  }

  // Requests that do

  /** Two requests that read the same version. */
  function BothReady(current: string, mine: string, theirs: string): Race {
    Race(current, current, map[0 := Job(current, mine, Ready, None), 1 := Job(current, theirs, Ready, None)], None)
  }

  lemma BothStart(current: string, r: Request, w: World, other: Request, v: World)
    requires Proceeds(current, r, w) && Proceeds(current, other, v)
    ensures Next(Next(Begin(current, current), Start(0, r, w)), Start(1, other, v))
            == BothReady(current, TrimSpace(r.version), TrimSpace(other.version))
  {
    hide Proceeds, TrimSpace;
  }

  lemma SixNext(current: string, a: Step, b: Step, c: Step, d: Step, e: Step, f: Step)
    ensures var steps := [a, b, c, d, e, f];
            && Raced(current, current, steps[..5]) == Next(Next(Next(Next(Next(Begin(current, current), a), b), c), d), e)
            && Raced(current, current, steps[..6]) == Raced(current, current, steps)
               == Next(Raced(current, current, steps[..5]), f)
  {
    var steps := [a, b, c, d, e, f];
    assert Raced(current, current, []) == Begin(current, current);
    hide Raced, Next;
    assert steps[..1] == [] + [a] && steps[..2] == steps[..1] + [b] && steps[..3] == steps[..2] + [c];
    assert steps[..4] == steps[..3] + [d] && steps[..5] == steps[..4] + [e] && steps[..6] == steps[..5] + [f] == steps;
    RacedStep(current, current, [], a);
    RacedStep(current, current, steps[..1], b);
    RacedStep(current, current, steps[..2], c);
    RacedStep(current, current, steps[..3], d);
    RacedStep(current, current, steps[..4], e);
    RacedStep(current, current, steps[..5], f);
  }

  ghost predicate AllDone(s: Race) { forall id :: id in s.jobs ==> s.jobs[id].phase.Done? }

  /** No call and no write fails, but the higher version is installed last and the lower one
      stored last. */
  function Crossing(r: Request, w: World, higher: Request, v: World): seq<Step> {
    [Start(0, r, w), Start(1, higher, v), Install(0, true, ""), Install(1, true, ""), Write(1, true), Write(0, true)]
  }

  lemma CrossingNext(current: string, low: string, high: string)
    ensures var s := Next(Next(Next(BothReady(current, low, high), Install(0, true, "")), Install(1, true, "")), Write(1, true));
            var t := Next(s, Write(0, true));
            s.stored == high && t.stored == low && t.runtime == high && AllDone(t)
  {}

  /** Two requests for different versions can always cross: then the stored version has gone
      down, and the runtime is ahead of it. */
  lemma CrossingSplits(current: string, r: Request, w: World, higher: Request, v: World)
    requires Proceeds(current, r, w) && Proceeds(current, higher, v)
    requires Compare(TrimSpace(higher.version), TrimSpace(r.version)) > 0
    ensures var steps := Crossing(r, w, higher, v);
            var s := Raced(current, current, steps);
            && s.stored == TrimSpace(r.version) && s.runtime == TrimSpace(higher.version) && s.stored != s.runtime
            && LowersAt(current, current, steps, 5) && AllDone(s)
  {
    CompareZero(TrimSpace(r.version), TrimSpace(r.version));
    hide Compare, TrimSpace, Proceeds, Raced, Next, AllDone, Begin, BothReady;
    BothStart(current, r, w, higher, v);
    SixNext(current, Start(0, r, w), Start(1, higher, v), Install(0, true, ""), Install(1, true, ""), Write(1, true), Write(0, true));
    CrossingNext(current, TrimSpace(r.version), TrimSpace(higher.version));
  }

  /** A request fails and rolls back after another one has been installed and stored. */
  function Overwriting(r: Request, w: World, other: Request, v: World, broken: string): seq<Step> {
    [Start(0, r, w), Start(1, other, v), Install(1, true, ""), Write(1, true), Install(0, false, broken), RollBack(0, true, "")]
  }

  lemma OverwritingNext(current: string, mine: string, theirs: string, broken: string)
    ensures var s := Next(Next(Next(BothReady(current, mine, theirs), Install(1, true, "")), Write(1, true)), Install(0, false, broken));
            var t := Next(s, RollBack(0, true, ""));
            t.stored == theirs && t.runtime == current && AllDone(t)
  {}

  lemma ProceedsDiffers(current: string, r: Request, w: World)
    requires Proceeds(current, r, w)
    ensures TrimSpace(r.version) != current
  {
    CompareZero(TrimSpace(r.version), current);
    hide Compare, PreUpgradeBackup, Durable;
  }

  /** Its rollback takes the other's version off the runtime, while the store keeps it. */
  lemma OverwritingSplits(current: string, r: Request, w: World, other: Request, v: World, broken: string)
    requires Proceeds(current, r, w) && Proceeds(current, other, v)
    ensures var s := Raced(current, current, Overwriting(r, w, other, v, broken));
            s.stored == TrimSpace(other.version) && s.runtime == current && s.stored != s.runtime && AllDone(s)
  {
    hide Compare, TrimSpace, Proceeds, Raced, Next, AllDone, Begin, BothReady;
    ProceedsDiffers(current, other, v);
    BothStart(current, r, w, other, v);
    SixNext(current, Start(0, r, w), Start(1, other, v), Install(1, true, ""), Write(1, true), Install(0, false, broken),
            RollBack(0, true, ""));
    OverwritingNext(current, TrimSpace(r.version), TrimSpace(other.version), broken);
  }
}
