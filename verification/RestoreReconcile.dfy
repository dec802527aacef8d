/** Bringing the runtime in line after a platform restore
    (internal/api/platform_backup_handlers.go). The provisioner's answers are inputs. */
module RestoreReconcile {
  import opened Wrappers

  datatype Project = Project(ref: string, destroying: bool)

  datatype DestroyAnswer = Destroyed | DestroyFailed | CleanupFailed

  /** How the provisioner answers for each ref. */
  datatype Provisioner = Provisioner(createOk: string -> bool, destroy: string -> DestroyAnswer)

  /** What was called and what came of it; `running` is the provisioner's set of runtimes. */
  datatype Summary = Summary(reconciled: nat, destroyed: nat, errors: nat, created: seq<string>, stopped: set<string>, running: set<string>)

  function Refs(projects: seq<Project>): set<string> { set p | p in projects :: p.ref }

  /** The restored projects to create, in the order of the list. */
  function ToCreate(projects: seq<Project>): seq<string> {
    if projects == [] then []
    else ToCreate(projects[..|projects| - 1]) + if projects[|projects| - 1].destroying then [] else [projects[|projects| - 1].ref]
  }

  function Stale(before: seq<Project>, after: seq<Project>): set<string> { Refs(before) - Refs(after) }

  function Good(refs: seq<string>, ok: string -> bool): seq<string> {
    if refs == [] then []
    else Good(refs[..|refs| - 1], ok) + if ok(refs[|refs| - 1]) then [refs[|refs| - 1]] else []
  }

  function Bad(refs: seq<string>, ok: string -> bool): seq<string> {
    if refs == [] then []
    else Bad(refs[..|refs| - 1], ok) + if ok(refs[|refs| - 1]) then [] else [refs[|refs| - 1]]
  }

  function Elements(xs: seq<string>): set<string> { set x | x in xs }

  /** The refs that a destroy pass removes altogether, and those whose runtime it stops. */
  function Removed(p: Provisioner, refs: set<string>): set<string> { set r | r in refs && p.destroy(r).Destroyed? }

  function Stopped(p: Provisioner, refs: set<string>): set<string> { set r | r in refs && !p.destroy(r).DestroyFailed? }

  method ReconcilePlatformRestoreRuntime(provisioner: Option<Provisioner>, before: seq<Project>, listed: Option<seq<Project>>, running: set<string>)
      returns (s: Summary)
    ensures provisioner.None? ==> s == Summary(0, 0, 0, [], {}, running)
    ensures provisioner.Some? && listed.None? ==> s == Summary(0, 0, 1, [], {}, running)
    ensures provisioner.Some? && listed.Some? ==> Reconciled(provisioner.value, before, listed.value, running, s)
  {
    s := Summary(0, 0, 0, [], {}, running);
    if provisioner.None? { return; }
    if listed.None? { return s.(errors := 1); }
    var beforeRefs := CollectRefs(before);
    var afterRefs;
    s, afterRefs := CreateRestored(provisioner.value, listed.value, running);
    s := StopStale(provisioner.value, beforeRefs, afterRefs, s);
    GoodOrBad(s.created, provisioner.value.createOk);
    RemovedOrNot(provisioner.value, s.stopped);
  }

  method CreateRestored(p: Provisioner, after: seq<Project>, running: set<string>) returns (s: Summary, afterRefs: set<string>)
    ensures afterRefs == Refs(after)
    ensures s.created == ToCreate(after) && s.reconciled == |Good(s.created, p.createOk)| && s.reconciled + s.errors == |s.created|
    ensures s.running == running + Elements(Good(s.created, p.createOk)) && s.destroyed == 0 && s.stopped == {}
  {
    s, afterRefs := Summary(0, 0, 0, [], {}, running), {};
    NothingCreated(after, p);
    hide Refs, ToCreate, Good, Elements;
    for i := 0 to |after|
      invariant afterRefs == Refs(after[..i])
      invariant s.created == ToCreate(after[..i])
      invariant s.reconciled == |Good(s.created, p.createOk)| && s.reconciled + s.errors == |s.created|
      invariant s.running == running + Elements(Good(s.created, p.createOk)) && s.destroyed == 0 && s.stopped == {}
    {
      var project := after[i];
      CreateStep(after, i, p);
      afterRefs := afterRefs + {project.ref};
      if project.destroying { continue; }
      GoodStep(s.created, project.ref, p.createOk);
      if p.createOk(project.ref) {
        s := s.(created := s.created + [project.ref], reconciled := s.reconciled + 1, running := s.running + {project.ref});
      } else {
        s := s.(created := s.created + [project.ref], errors := s.errors + 1);
      }
    }
    assert after[..|after|] == after;
  }

  lemma NothingCreated(after: seq<Project>, p: Provisioner)
    ensures Refs(after[..0]) == {} && ToCreate(after[..0]) == [] && Good([], p.createOk) == [] && Elements([]) == {}
  {}

  lemma CreateStep(after: seq<Project>, i: nat, p: Provisioner)
    requires i < |after|
    ensures Refs(after[..i + 1]) == Refs(after[..i]) + {after[i].ref}
    ensures ToCreate(after[..i + 1]) == ToCreate(after[..i]) + if after[i].destroying then [] else [after[i].ref]
  {
    assert after[..i + 1] == after[..i] + [after[i]] && after[..i + 1][..i] == after[..i];
  }

  lemma GoodStep(refs: seq<string>, ref: string, ok: string -> bool)
    ensures Good(refs + [ref], ok) == Good(refs, ok) + if ok(ref) then [ref] else []
    ensures Elements(Good(refs + [ref], ok)) == Elements(Good(refs, ok)) + if ok(ref) then {ref} else {}
  {
    assert (refs + [ref])[..|refs|] == refs;
  }

  /** s is s0 after the refs in s.stopped have been stopped. */
  ghost predicate Stopping(p: Provisioner, s0: Summary, s: Summary) {
    && s.reconciled == s0.reconciled && s.created == s0.created
    && s.destroyed == |Removed(p, s.stopped)|
    && s.running == s0.running - Stopped(p, s.stopped)
    && s.destroyed + s.errors == s0.errors + |s.stopped|
  }

  function StopOne(p: Provisioner, s: Summary, ref: string): Summary {
    var t := s.(stopped := s.stopped + {ref});
    match p.destroy(ref)
    case Destroyed => t.(destroyed := t.destroyed + 1, running := t.running - {ref})
    case DestroyFailed => t.(errors := t.errors + 1)
    case CleanupFailed => t.(errors := t.errors + 1, running := t.running - {ref})
  }

  lemma StopStep(p: Provisioner, s0: Summary, s: Summary, ref: string)
    requires Stopping(p, s0, s) && ref !in s.stopped
    ensures Stopping(p, s0, StopOne(p, s, ref))
  {
    OneMore(p, s.stopped, ref);
    hide Removed, Stopped;
    GrowOne(s0.running, Stopped(p, s.stopped), s.stopped, ref);
  }

  lemma GrowOne(running: set<string>, gone: set<string>, seen: set<string>, ref: string)
    requires ref !in seen
    ensures running - (gone + {ref}) == (running - gone) - {ref} && gone + {} == gone
    ensures |seen + {ref}| == |seen| + 1
  {}

  lemma StopNothing(p: Provisioner, s: Summary)
    requires s.destroyed == 0 && s.stopped == {}
    ensures Stopping(p, s, s)
  {
    assert Removed(p, {}) == {} && Stopped(p, {}) == {};
  }

  method StopStale(p: Provisioner, beforeRefs: set<string>, afterRefs: set<string>, s0: Summary) returns (s: Summary)
    requires s0.destroyed == 0 && s0.stopped == {}
    ensures Stopping(p, s0, s) && s.stopped == beforeRefs - afterRefs
  {
    s := s0;
    var rest := beforeRefs;
    hide Stopping;
    StopNothing(p, s0);
    while rest != {}
      invariant rest <= beforeRefs && s.stopped == (beforeRefs - rest) - afterRefs
      invariant Stopping(p, s0, s)
      decreases rest
    {
      var ref :| ref in rest;
      rest := rest - {ref};
      if ref in afterRefs { continue; }
      StopStep(p, s0, s, ref);
      s := StopOne(p, s, ref);
    }
  }

  method CollectRefs(projects: seq<Project>) returns (refs: set<string>)
    ensures refs == Refs(projects)
  {
    refs := {};
    for i := 0 to |projects|
      invariant refs == Refs(projects[..i])
    {
      refs := refs + {projects[i].ref};
      assert projects[..i + 1] == projects[..i] + [projects[i]];
    }
    assert projects[..|projects|] == projects;
  }

  lemma OneMore(p: Provisioner, seen: set<string>, ref: string)
    requires ref !in seen
    ensures Removed(p, seen + {ref}) == Removed(p, seen) + if p.destroy(ref).Destroyed? then {ref} else {}
    ensures |Removed(p, seen + {ref})| == |Removed(p, seen)| + if p.destroy(ref).Destroyed? then 1 else 0
    ensures Stopped(p, seen + {ref}) == Stopped(p, seen) + if p.destroy(ref).DestroyFailed? then {} else {ref}
  {
    RemovedStep(p, seen, ref);
    StoppedStep(p, seen, ref);
    assert ref !in Removed(p, seen);
    hide *;
    if p.destroy(ref).Destroyed? { OneLarger(Removed(p, seen), ref); } else { NoLarger(Removed(p, seen)); }
  }

  lemma RemovedStep(p: Provisioner, seen: set<string>, ref: string)
    ensures Removed(p, seen + {ref}) == Removed(p, seen) + if p.destroy(ref).Destroyed? then {ref} else {}
  {}

  lemma StoppedStep(p: Provisioner, seen: set<string>, ref: string)
    ensures Stopped(p, seen + {ref}) == Stopped(p, seen) + if p.destroy(ref).DestroyFailed? then {} else {ref}
  {}

  lemma OneLarger(s: set<string>, x: string)
    requires x !in s
    ensures |s + {x}| == |s| + 1
  {}

  lemma NoLarger(s: set<string>)
    ensures s + {} == s
  {}

  /** What a reconciliation calls and reports. */
  ghost predicate Reconciled(p: Provisioner, before: seq<Project>, after: seq<Project>, running: set<string>, s: Summary) {
    var stale := Stale(before, after);
    && s.created == ToCreate(after)
    && s.stopped == stale
    && s.reconciled == |Good(s.created, p.createOk)|
    && s.destroyed == |Removed(p, stale)|
    && s.errors == |Bad(s.created, p.createOk)| + |stale - Removed(p, stale)|
    && s.running == running + Elements(Good(s.created, p.createOk)) - Stopped(p, stale)
  }

  lemma {:induction false} GoodOrBad(refs: seq<string>, ok: string -> bool)
    ensures |Good(refs, ok)| + |Bad(refs, ok)| == |refs|
  {
    if refs != [] { GoodOrBad(refs[..|refs| - 1], ok); }
  }

  lemma RemovedOrNot(p: Provisioner, refs: set<string>)
    ensures |Removed(p, refs)| + |refs - Removed(p, refs)| == |refs|
    ensures refs - Removed(p, refs) == {} <==> forall r :: r in refs ==> p.destroy(r).Destroyed?
  {
    assert Removed(p, refs) <= refs;
    Difference(refs, Removed(p, refs));
    if refs - Removed(p, refs) == {} {
      forall r | r in refs ensures p.destroy(r).Destroyed? { assert r in Removed(p, refs); }
    }
  }

  lemma Difference(a: set<string>, b: set<string>)
    requires b <= a
    ensures |b| + |a - b| == |a|
  {
    assert a == b + (a - b);
  }

  lemma {:induction false} GoodAll(refs: seq<string>, ok: string -> bool)
    ensures |Good(refs, ok)| <= |refs|
    ensures |Good(refs, ok)| == |refs| <==> forall r :: r in refs ==> ok(r)
    ensures (forall r :: r in refs ==> ok(r)) ==> Good(refs, ok) == refs
  {
    if refs == [] { return; }
    var init, last := refs[..|refs| - 1], refs[|refs| - 1];
    GoodAll(init, ok);
    assert refs == init + [last];
  }

  /** Every project that should run and every stale ref is accounted for once: as reconciled,
      as destroyed, or by an error. */
  lemma EverythingIsAccounted(p: Provisioner, before: seq<Project>, after: seq<Project>, running: set<string>, s: Summary)
    requires Reconciled(p, before, after, running, s)
    ensures s.reconciled + s.destroyed + s.errors == |ToCreate(after)| + |Refs(before) - Refs(after)|
    ensures s.errors == 0 <==> (forall r :: r in ToCreate(after) ==> p.createOk(r))
                               && (forall r :: r in Refs(before) - Refs(after) ==> p.destroy(r).Destroyed?)
  {
    var stale := Stale(before, after);
    GoodOrBad(s.created, p.createOk);
    GoodAll(s.created, p.createOk);
    RemovedOrNot(p, stale);
    hide Good, Bad, Removed, ToCreate, Refs;
    assert |stale - Removed(p, stale)| == 0 <==> stale - Removed(p, stale) == {};
  }

  lemma {:induction false} CreatedAreListed(after: seq<Project>)
    ensures Elements(ToCreate(after)) <= Refs(after)
    ensures forall q :: q in after && !q.destroying ==> q.ref in ToCreate(after)
  {
    if after == [] { return; }
    var init, last := after[..|after| - 1], after[|after| - 1];
    CreatedAreListed(init);
    assert after == init + [last] && Refs(after) == Refs(init) + {last.ref};
  }

  /** Without errors exactly the projects that should run were created and exactly the stale
      ones stopped, and no other runtime is touched. */
  lemma ConvergesWithoutErrors(p: Provisioner, before: seq<Project>, after: seq<Project>, running: set<string>, s: Summary)
    requires Reconciled(p, before, after, running, s) && s.errors == 0
    ensures s.running == running + Elements(ToCreate(after)) - Stale(before, after)
    ensures forall r :: r !in Refs(before) && r !in Refs(after) ==> (r in s.running <==> r in running)
    ensures running <= Refs(before) + Refs(after) ==> Elements(ToCreate(after)) <= s.running <= Refs(after)
  {
    EverythingIsAccounted(p, before, after, running, s);
    GoodAll(s.created, p.createOk);
    CreatedAreListed(after);
    var stale := Stale(before, after);
    assert Stopped(p, stale) == stale;
  }

  /** What a second pass, with whatever the provisioner then answers, makes of the first: it
      retries the creations, but no destruction. If it creates everything, exactly the runtimes
      that the first pass failed to stop are left over. */
  lemma SecondPass(
      p: Provisioner, q: Provisioner, before: seq<Project>, after: seq<Project>, running: set<string>, s: Summary, t: Summary)
    requires Reconciled(p, before, after, running, s) && Reconciled(q, after, after, s.running, t)
    ensures t.stopped == {} && t.destroyed == 0 && t.errors == |Bad(ToCreate(after), q.createOk)|
    ensures s.running <= t.running <= s.running + Elements(ToCreate(after))
    ensures t.errors == 0 && running <= Refs(before) + Refs(after) ==>
              && Elements(ToCreate(after)) <= t.running
              && t.running - Refs(after) == running - Refs(after) - Stopped(p, Stale(before, after))
  {
    assert Stale(after, after) == {} && Removed(q, {}) == {} && Stopped(q, {}) == {};
    assert {} - Removed(q, {}) == {};
    var refs, stale := ToCreate(after), Stale(before, after);
    GoodOrBad(refs, q.createOk);
    GoodAll(refs, q.createOk);
    GoodAmong(refs, q.createOk);
    GoodAmong(refs, p.createOk);
    CreatedAreListed(after);
    hide Good, Bad, ToCreate, Refs, Stopped, Removed;
    assert t.running == s.running + Elements(Good(refs, q.createOk)) - {};
    LeftOver(running, Elements(Good(refs, p.createOk)), Stopped(p, stale), Elements(Good(refs, q.createOk)), Refs(after));
  }

  lemma LeftOver(running: set<string>, first: set<string>, stopped: set<string>, second: set<string>, listed: set<string>)
    requires first <= listed && second <= listed
    ensures running + first - stopped + second - {} - listed == running - listed - stopped
    ensures running + first - stopped <= running + first - stopped + second - {}
  {}

  lemma {:induction false} GoodAmong(refs: seq<string>, ok: string -> bool)
    ensures Elements(Good(refs, ok)) <= Elements(refs)
  {
    if refs == [] { return; }
    var init, last := refs[..|refs| - 1], refs[|refs| - 1];
    GoodAmong(init, ok);
    assert refs == init + [last] && Elements(refs) == Elements(init) + {last};
    GoodStep(init, last, ok);
  }

  // Runtime by runtime

  /** The list has a project of the ref that should run. */
  ghost predicate Wanted(projects: seq<Project>, ref: string) {
    exists i :: 0 <= i < |projects| && projects[i].ref == ref && !projects[i].destroying
  }

  ghost predicate Mentioned(projects: seq<Project>, ref: string) {
    exists i :: 0 <= i < |projects| && projects[i].ref == ref
  }

  lemma WantedStep(projects: seq<Project>, last: Project, ref: string)
    ensures Wanted(projects + [last], ref) <==> Wanted(projects, ref) || (last.ref == ref && !last.destroying)
  {
    var all := projects + [last];
    assert all[|projects|] == last && forall i :: 0 <= i < |projects| ==> all[i] == projects[i];
  }

  lemma {:induction false} ToCreateIff(projects: seq<Project>, ref: string)
    ensures ref in ToCreate(projects) <==> Wanted(projects, ref)
  {
    if projects == [] { return; }
    var init, last := projects[..|projects| - 1], projects[|projects| - 1];
    assert projects == init + [last];
    hide Wanted;
    ToCreateIff(init, ref);
    WantedStep(init, last, ref);
  }

  lemma {:induction false} GoodIff(refs: seq<string>, ok: string -> bool, ref: string)
    ensures ref in Good(refs, ok) <==> ref in refs && ok(ref)
  {
    if refs == [] { return; }
    var init, last := refs[..|refs| - 1], refs[|refs| - 1];
    assert refs == init + [last];
    GoodIff(init, ok, ref);
  }

  lemma MentionedIff(projects: seq<Project>, ref: string)
    ensures ref in Refs(projects) <==> Mentioned(projects, ref)
  {
    if ref in Refs(projects) {
      var p :| p in projects && p.ref == ref;
      var i :| 0 <= i < |projects| && projects[i] == p;
    }
    if Mentioned(projects, ref) {
      var i :| 0 <= i < |projects| && projects[i].ref == ref;
      assert projects[i] in projects;
    }
  }

  /** Which runtimes a pass leaves, and which it calls: one runs afterwards exactly if it ran before
      or was wanted and could be created, unless its project is gone from the list and its runtime
      could be stopped, be it that only the cleanup after that failed. */
  lemma RunningIff(p: Provisioner, before: seq<Project>, after: seq<Project>, running: set<string>, s: Summary, ref: string)
    requires Reconciled(p, before, after, running, s)
    ensures ref in s.created <==> Wanted(after, ref)
    ensures ref in s.stopped <==> Mentioned(before, ref) && !Mentioned(after, ref)
    ensures ref in s.running <==>
              && (ref in running || (Wanted(after, ref) && p.createOk(ref)))
              && !(Mentioned(before, ref) && !Mentioned(after, ref) && !p.destroy(ref).DestroyFailed?)
  {
    ToCreateIff(after, ref);
    GoodIff(ToCreate(after), p.createOk, ref);
    MentionedIff(before, ref);
    MentionedIff(after, ref);
    hide ToCreate, Good, Refs, Wanted, Mentioned;
  }

  lemma ToCreateStep(projects: seq<Project>, last: Project)
    ensures ToCreate(projects + [last]) == ToCreate(projects) + if last.destroying then [] else [last.ref]
    ensures ToCreate([]) == []
  {
    assert (projects + [last])[..|projects|] == projects;
  }

  /** Creations are called in the order of the list, once for each project that is not being destroyed. */
  lemma {:induction false} InListOrder(first: seq<Project>, later: seq<Project>)
    ensures ToCreate(first + later) == ToCreate(first) + ToCreate(later)
    ensures |later| == 1 ==> ToCreate(later) == if later[0].destroying then [] else [later[0].ref]
  {
    hide *;
    ToCreateStep([], Project("", false));
    if later == [] {
      assert first + later == first;
      return;
    }
    var init, last := later[..|later| - 1], later[|later| - 1];
    assert first + later == (first + init) + [last] && later == init + [last];
    InListOrder(first, init);
    ToCreateStep(first + init, last);
    ToCreateStep(init, last);
  }
}
