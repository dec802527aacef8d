/** The stack upgrade protocol (internal/api/project_lifecycle_handlers.go): a verified
    backup first, then the upgrade, a rollback if it fails, and the store write last. The
    store's, the backup service's and the provisioner's answers are inputs. Requests run
    one after another (UpgradeOverlaps drops that). */
module UpgradeSaga {
  import opened StackVersions
  import opened Text
  import opened Wrappers

  datatype Backup = Backup(id: string, status: string, kind: string, verified: bool, remoteLocation: string, storageTargetID: string)

  datatype StorageTarget = StorageTarget(id: string, recoveryReady: bool, durableOffHost: bool)

  datatype Request = Request(version: string, backupID: string)

  /** What the world answers during one request. A failed provisioner call leaves the runtime
      at an arbitrary version. */
  datatype World = World(
    supported: seq<string>,
    stored: Option<Backup>, artifactOk: bool,           // GetBackup, EnsureLogicalBackupArtifact
    triggered: Option<Backup>,                          // TriggerLogicalBackup
    durableRequired: bool, targets: Option<seq<StorageTarget>>,
    injectedFailure: bool,
    upgradeOk: bool, afterFailedUpgrade: string,
    rollbackOk: bool, afterFailedRollback: string,
    autoRestore: bool, restoreState: Option<string>,
    storeWriteOk: bool)

  datatype Effect =
    | RequestStarted
    | BackupReady(backup: Backup, supplied: bool, artifactOk: bool)
    | UpgradeCalled(version: string)
    | RestoreCalled(backupID: string)
    | StackVersionWritten(version: string)

  datatype Response =
    | Invalid(v: Validation)
    | BackupFailed
    | NotDurable
    | UpgradeFailed(rollbackFailed: bool, restoreAttempted: bool, restoreFailed: bool)
    | StoreFailed
    | Upgraded

  /** A backup that the caller names must be a completed, verified logical one whose artifact
      is there; otherwise a new logical backup is taken. */
  function PreUpgradeBackup(r: Request, w: World): Option<Backup> {
    if TrimSpace(r.backupID) != "" then
      if w.stored.Some? && w.stored.value.status == "completed" && w.stored.value.kind == "logical"
         && w.stored.value.verified && w.artifactOk
      then w.stored else None
    else w.triggered
  }

  function FirstTarget(targets: seq<StorageTarget>, id: string): Option<StorageTarget> {
    if targets == [] then None
    else if targets[0].id == id then Some(targets[0])
    else FirstTarget(targets[1..], id)
  }

  /** Off the host, on a target that is ready. */
  predicate Durable(b: Backup, targets: Option<seq<StorageTarget>>) {
    && TrimSpace(b.remoteLocation) != "" && TrimSpace(b.storageTargetID) != ""
    && targets.Some?
    && var t := FirstTarget(targets.value, b.storageTargetID);
       t.Some? && t.value.recoveryReady && t.value.durableOffHost
  }

  class ProjectStack {
    var storedVersion: string     // what the store says is installed
    var runtimeVersion: string    // what the provisioner has installed
    var trace: seq<Effect>

    constructor (version: string)
      ensures storedVersion == version && runtimeVersion == version && trace == []
    {
      storedVersion, runtimeVersion, trace := version, version, [];
    }

    method ProvisionerUpgrade(version: string, ok: bool, otherwise: string)
      modifies this
      ensures storedVersion == old(storedVersion)
      ensures runtimeVersion == (if ok then version else otherwise) && trace == old(trace) + [UpgradeCalled(version)]
    {
      trace := trace + [UpgradeCalled(version)];
      runtimeVersion := if ok then version else otherwise;
    }

    method Upgrade(r: Request, w: World) returns (response: Response)
      modifies this
      ensures (State(storedVersion, runtimeVersion, trace), response)
              == Handle(old(State(storedVersion, runtimeVersion, trace)), r, w)
    {
      hide PreUpgradeBackup, Durable, RunEffects, Run;
      trace := trace + [RequestStarted];
      assert trace + [] == trace;
      var targetVersion := TrimSpace(r.version);
      var v := ValidateUpgradeTarget(storedVersion, targetVersion, w.supported);
      if !v.Accepted? { return Invalid(Validate(storedVersion, targetVersion, w.supported)); }
      var backup := PreUpgradeBackup(r, w);
      if backup.None? { return BackupFailed; }
      ghost var ready := BackupReady(backup.value, TrimSpace(r.backupID) != "", w.artifactOk);
      trace := trace + [BackupReady(backup.value, TrimSpace(r.backupID) != "", w.artifactOk)];
      assert trace == old(trace) + [RequestStarted] + ([ready] + []);
      if w.durableRequired && !Durable(backup.value, w.targets) { return NotDurable; }
      assert trace + RunEffects(storedVersion, targetVersion, backup.value.id, w)
          == old(trace) + [RequestStarted] + ([ready] + RunEffects(storedVersion, targetVersion, backup.value.id, w));
      response := RunUpgrade(targetVersion, backup.value.id, w);
    }

    method RunUpgrade(targetVersion: string, backupID: string, w: World) returns (response: Response)
      modifies this
      ensures (storedVersion, runtimeVersion, response) == Run(old(storedVersion), targetVersion, w)
      ensures trace == old(trace) + RunEffects(old(storedVersion), targetVersion, backupID, w)
    {
      var previous := storedVersion;
      assert trace + [] == trace;
      var failed := w.injectedFailure;
      if !failed {
        ProvisionerUpgrade(targetVersion, w.upgradeOk, w.afterFailedUpgrade);
        failed := !w.upgradeOk;
      }
      if failed {
        ProvisionerUpgrade(previous, w.rollbackOk, w.afterFailedRollback);
        if !w.rollbackOk { return UpgradeFailed(true, false, false); }
        if !w.autoRestore { return UpgradeFailed(false, false, false); }
        trace := trace + [RestoreCalled(backupID)];
        return UpgradeFailed(false, true, w.restoreState != Some("completed"));
      }
      if !w.storeWriteOk { return StoreFailed; }
      trace := trace + [StackVersionWritten(targetVersion)];
      storedVersion := targetVersion;
      return Upgraded;
    }
  }

  datatype State = State(stored: string, runtime: string, trace: seq<Effect>)

  function Validate(current: string, target: string, supported: seq<string>): Validation {
    if target == "" then VersionRequired
    else if TrimSpace(current) == target then AlreadyInstalled
    else if target !in supported then Unsupported
    else if Compare(target, current) > 0 then Accepted
    else NotNewer
  }

  /** What happens once a backup is ready. */
  function RunEffects(stored: string, target: string, backupID: string, w: World): seq<Effect> {
    if w.injectedFailure || !w.upgradeOk then
      (if w.injectedFailure then [] else [UpgradeCalled(target)]) + [UpgradeCalled(stored)]
      + (if w.rollbackOk && w.autoRestore then [RestoreCalled(backupID)] else [])
    else [UpgradeCalled(target)] + (if w.storeWriteOk then [StackVersionWritten(target)] else [])
  }

  /** The stored version, the runtime version and the answer it leads to. */
  function Run(stored: string, target: string, w: World): (string, string, Response) {
    if w.injectedFailure || !w.upgradeOk then
      if !w.rollbackOk then (stored, w.afterFailedRollback, UpgradeFailed(true, false, false))
      else (stored, stored, UpgradeFailed(false, w.autoRestore, w.autoRestore && w.restoreState != Some("completed")))
    else if !w.storeWriteOk then (stored, target, StoreFailed)
    else (target, target, Upgraded)
  }

  /** What a request does to the world after it has started. */
  function Effects(stored: string, r: Request, w: World): seq<Effect> {
    var backup := PreUpgradeBackup(r, w);
    if !Validate(stored, TrimSpace(r.version), w.supported).Accepted? || backup.None? then []
    else
      [BackupReady(backup.value, TrimSpace(r.backupID) != "", w.artifactOk)]
      + if w.durableRequired && !Durable(backup.value, w.targets) then []
        else RunEffects(stored, TrimSpace(r.version), backup.value.id, w)
  }

  function Handle(s: State, r: Request, w: World): (State, Response) {
    var v := Validate(s.stored, TrimSpace(r.version), w.supported);
    var backup := PreUpgradeBackup(r, w);
    var trace := s.trace + [RequestStarted] + Effects(s.stored, r, w);
    if !v.Accepted? then (s.(trace := trace), Invalid(v))
    else if backup.None? then (s.(trace := trace), BackupFailed)
    else if w.durableRequired && !Durable(backup.value, w.targets) then (s.(trace := trace), NotDurable)
    else var (stored, runtime, response) := Run(s.stored, TrimSpace(r.version), w); (State(stored, runtime, trace), response)
  }

  // Agreement of store and runtime

  /** The request gets as far as the provisioner. */
  predicate Proceeds(stored: string, r: Request, w: World) {
    var backup := PreUpgradeBackup(r, w);
    && Validate(stored, TrimSpace(r.version), w.supported).Accepted?
    && backup.Some? && (w.durableRequired ==> Durable(backup.value, w.targets))
  }

  /** What the request then meets drives store and runtime apart: a rollback that fails and
      leaves another version, or a final write that fails. */
  predicate Splits(stored: string, w: World) {
    if w.injectedFailure || !w.upgradeOk then !w.rollbackOk && w.afterFailedRollback != stored
    else !w.storeWriteOk
  }

  /** Store and runtime agree after a request exactly if it got to the provisioner and met nothing
      that drives them apart, or did not get there and they agreed before. */
  lemma AgreementIff(s: State, r: Request, w: World)
    ensures var next := Handle(s, r, w).0;
            next.stored == next.runtime
            <==> if Proceeds(s.stored, r, w) then !Splits(s.stored, w) else s.stored == s.runtime
  {
    CompareZero(TrimSpace(r.version), s.stored);
  }

  /** What each answer means for the installed version. */
  lemma AnswersTellTheVersion(s: State, r: Request, w: World)
    requires s.stored == s.runtime
    ensures var (next, response) := Handle(s, r, w);
            && (response.Upgraded? ==> next.stored == next.runtime == TrimSpace(r.version) && Compare(next.stored, s.stored) > 0)
            && (!response.Upgraded? ==> next.stored == s.stored)
            && (response.Invalid? || response.BackupFailed? || response.NotDurable? ==> next.runtime == s.runtime)
            && (response.UpgradeFailed? && !response.rollbackFailed ==> next.runtime == s.runtime)
            && (response.StoreFailed? ==> next.runtime == TrimSpace(r.version))
  {}

  /** A run: each request with what the world answered. */
  function After(s: State, run: seq<(Request, World)>): State {
    if run == [] then s
    else Handle(After(s, run[..|run| - 1]), run[|run| - 1].0, run[|run| - 1].1).0
  }

  predicate ProceedsAt(s: State, run: seq<(Request, World)>, i: nat)
    requires i < |run|
  {
    Proceeds(After(s, run[..i]).stored, run[i].0, run[i].1)
  }

  /** The last request of a run that gets to the provisioner. */
  function LastProceeding(s: State, run: seq<(Request, World)>): (last: Option<nat>)
    ensures last.Some? ==> last.value < |run|
  {
    if run == [] then None
    else
      var before := run[..|run| - 1];
      if Proceeds(After(s, before).stored, run[|run| - 1].0, run[|run| - 1].1) then Some(|run| - 1) else LastProceeding(s, before)
  }

  lemma LastStep(s: State, run: seq<(Request, World)>)
    requires run != []
    ensures LastProceeding(s, run)
            == if ProceedsAt(s, run, |run| - 1) then Some(|run| - 1) else LastProceeding(s, run[..|run| - 1])
  {}

  lemma ProceedsPrefix(s: State, run: seq<(Request, World)>, n: nat, i: nat)
    requires i < n <= |run|
    ensures ProceedsAt(s, run[..n], i) == ProceedsAt(s, run, i)
  {
    assert run[..n][..i] == run[..i];
  }

  /** The last one does get there, and no later one does. */
  lemma {:induction false} LastProceedingIsLast(s: State, run: seq<(Request, World)>, i: nat)
    requires i < |run|
    ensures var last := LastProceeding(s, run);
            && (last == Some(i) ==> ProceedsAt(s, run, i))
            && ((last.Some? ==> last.value < i) ==> !ProceedsAt(s, run, i))
  {
    hide *;
    var n := |run| - 1;
    LastStep(s, run);
    if i < n {
      LastProceedingIsLast(s, run[..n], i);
      ProceedsPrefix(s, run, n, i);
    }
  }

  /** After any run, from any start, store and runtime agree exactly if the last request that got
      to the provisioner met nothing that drives them apart; if none did, exactly if they agreed
      at the start. So one good upgrade or rollback heals an earlier split. */
  lemma {:induction false} RunAgreesIff(s: State, run: seq<(Request, World)>)
    ensures var last := LastProceeding(s, run);
            After(s, run).stored == After(s, run).runtime
            <==> if last.Some? then !Splits(After(s, run[..last.value]).stored, run[last.value].1) else s.stored == s.runtime
  {
    if run == [] { return; }
    var before := run[..|run| - 1];
    hide Handle, Proceeds, Splits;
    RunAgreesIff(s, before);
    AgreementIff(After(s, before), run[|run| - 1].0, run[|run| - 1].1);
    var last := LastProceeding(s, before);
    if last.Some? { assert before[..last.value] == run[..last.value]; }
  }

  /** In particular, a run that starts in agreement and never meets a failed rollback or a
      failed final write ends in agreement. */
  lemma AgreementAlways(s: State, run: seq<(Request, World)>)
    requires s.stored == s.runtime
    requires forall step :: step in run ==> step.1.rollbackOk && step.1.storeWriteOk
    ensures After(s, run).stored == After(s, run).runtime
  {
    RunAgreesIff(s, run);
    var last := LastProceeding(s, run);
    if last.Some? { assert run[last.value] in run; }
  }

  // The backup comes first

  /** A backup that the handler may rely on. */
  predicate Sound(e: Effect) {
    e.BackupReady? && (e.supplied ==> e.backup.status == "completed" && e.backup.kind == "logical" && e.backup.verified && e.artifactOk)
  }

  /** Every provisioner upgrade follows a sound backup made or checked by the same request. */
  ghost predicate BackedUp(trace: seq<Effect>) {
    forall i :: 0 <= i < |trace| && trace[i].UpgradeCalled? ==>
      exists j :: 0 <= j < i && Sound(trace[j]) && forall k :: j < k < i ==> !trace[k].RequestStarted?
  }

  lemma ReadyIsSound(r: Request, w: World)
    requires PreUpgradeBackup(r, w).Some?
    ensures Sound(BackupReady(PreUpgradeBackup(r, w).value, TrimSpace(r.backupID) != "", w.artifactOk))
  {}

  /** Every request that touches the world first has a sound backup. */
  lemma EffectsStartSound(stored: string, r: Request, w: World)
    ensures var effects := Effects(stored, r, w);
            && (forall e :: e in effects ==> !e.RequestStarted?)
            && (effects != [] ==> Sound(effects[0]))
  {
    if PreUpgradeBackup(r, w).Some? { ReadyIsSound(r, w); }
    hide PreUpgradeBackup, Durable, Validate, Sound;
  }

  lemma RequestBacksUp(s: State, r: Request, w: World)
    requires BackedUp(s.trace)
    ensures BackedUp(Handle(s, r, w).0.trace)
  {
    var more := Effects(s.stored, r, w);
    EffectsStartSound(s.stored, r, w);
    var n := |s.trace|;
    var next := s.trace + [RequestStarted] + more;
    assert Handle(s, r, w).0.trace == next;
    hide Handle, Sound, Effects;
    forall i | 0 <= i < |next| && next[i].UpgradeCalled?
      ensures exists j :: 0 <= j < i && Sound(next[j]) && forall k :: j < k < i ==> !next[k].RequestStarted?
    {
      if i < n {
        var j :| 0 <= j < i && Sound(s.trace[j]) && forall k :: j < k < i ==> !s.trace[k].RequestStarted?;
        assert Sound(next[j]) && forall k :: j < k < i ==> next[k] == s.trace[k];
      } else {
        assert next[n + 1] == more[0] && forall k :: n + 1 < k < i ==> next[k] == more[k - n - 1];
        NotSound(next[i]);
      }
    }
  }

  lemma NotSound(e: Effect)
    requires e.UpgradeCalled?
    ensures !Sound(e)
  {}

  lemma {:induction false} AlwaysBackedUp(s: State, run: seq<(Request, World)>)
    requires s.trace == []
    ensures BackedUp(After(s, run).trace)
  {
    if run != [] {
      AlwaysBackedUp(s, run[..|run| - 1]);
      RequestBacksUp(After(s, run[..|run| - 1]), run[|run| - 1].0, run[|run| - 1].1);
    }
  }

  // Versions only go up

  /** The stored versions of a run, the first one included. */
  function StoredVersions(s: State, run: seq<(Request, World)>): (chain: seq<string>)
    ensures chain != [] && chain[|chain| - 1] == After(s, run).stored
  {
    if run == [] then [s.stored]
    else
      var before := run[..|run| - 1];
      var chain := StoredVersions(s, before);
      var (next, response) := Handle(After(s, before), run[|run| - 1].0, run[|run| - 1].1);
      if response.Upgraded? then chain + [next.stored] else chain
  }

  /** Successful upgrades form a strictly increasing chain, so a run holds at most as many of
      them as there are supported versions. */
  lemma {:induction false} UpgradesFormChain(s: State, run: seq<(Request, World)>, supported: seq<string>)
    requires forall step :: step in run ==> step.1.supported == supported
    ensures UpgradeChain(StoredVersions(s, run), supported)
  {
    if run == [] { return; }
    var before := run[..|run| - 1];
    assert run[|run| - 1] in run && forall step :: step in before ==> step in run;
    UpgradesFormChain(s, before, supported);
    var chain, longer := StoredVersions(s, before), StoredVersions(s, run);
    forall i | 0 <= i < |longer| - 1 ensures Upgradable(longer[i], longer[i + 1], supported) {
      if i < |chain| - 1 { assert Upgradable(chain[i], chain[i + 1], supported); }
    }
  }

  lemma UpgradesBounded(s: State, run: seq<(Request, World)>, supported: seq<string>)
    requires forall step :: step in run ==> step.1.supported == supported
    ensures |StoredVersions(s, run)| - 1 <= |set v | v in supported|
  {
    UpgradesFormChain(s, run, supported);
    ChainBounded(StoredVersions(s, run), supported);
  }
}
