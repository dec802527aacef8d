/** When an upgrade goes ahead, what it touches in which order, and what it answers
    (internal/api/project_lifecycle_handlers.go), in terms of the request and of what the world
    answers. */
module UpgradeMeaning {
  import opened StackVersions
  import opened Text
  import opened UpgradeSaga
  import opened Wrappers

  /** A backup that a caller may name. */
  predicate Usable(b: Backup, artifactOk: bool) {
    b.status == "completed" && b.kind == "logical" && b.verified && artifactOk
  }

  predicate BackupAtHand(r: Request, w: World) {
    if TrimSpace(r.backupID) == "" then w.triggered.Some? else w.stored.Some? && Usable(w.stored.value, w.artifactOk)
  }

  function BackupOf(r: Request, w: World): Backup
    requires BackupAtHand(r, w)
  {
    if TrimSpace(r.backupID) == "" then w.triggered.value else w.stored.value
  }

  predicate FirstOf(targets: seq<StorageTarget>, id: string, i: int) {
    0 <= i < |targets| && targets[i].id == id && forall k :: 0 <= k < i ==> targets[k].id != id
  }

  /** The backup has a copy on a storage target that is off the host and ready for recovery. */
  ghost predicate OffHost(b: Backup, targets: Option<seq<StorageTarget>>) {
    && TrimSpace(b.remoteLocation) != "" && TrimSpace(b.storageTargetID) != "" && targets.Some?
    && exists i :: FirstOf(targets.value, b.storageTargetID, i) && targets.value[i].recoveryReady && targets.value[i].durableOffHost
  }

  predicate Newer(stored: string, r: Request, w: World) {
    var target := TrimSpace(r.version);
    target != "" && target != TrimSpace(stored) && target in w.supported && Compare(target, stored) > 0
  }

  lemma {:induction false} FirstTargetIs(targets: seq<StorageTarget>, id: string)
    ensures FirstTarget(targets, id).None? ==> forall i :: !FirstOf(targets, id, i)
    ensures FirstTarget(targets, id).Some? ==> exists i :: FirstOf(targets, id, i) && targets[i] == FirstTarget(targets, id).value
    ensures forall i, j :: FirstOf(targets, id, i) && FirstOf(targets, id, j) ==> i == j
  {
    if targets == [] { return; }
    FirstTargetIs(targets[1..], id);
    if targets[0].id == id {
      assert FirstOf(targets, id, 0);
    } else {
      forall i | FirstOf(targets, id, i) ensures FirstOf(targets[1..], id, i - 1) {
        assert forall k :: 0 <= k < i - 1 ==> targets[1..][k] == targets[k + 1];
      }
      if FirstTarget(targets[1..], id).Some? {
        var i :| FirstOf(targets[1..], id, i) && targets[1..][i] == FirstTarget(targets[1..], id).value;
        assert forall k :: 0 < k <= i ==> targets[k] == targets[1..][k - 1];
        assert FirstOf(targets, id, i + 1);
      }
    }
  }

  lemma DurableIff(b: Backup, targets: Option<seq<StorageTarget>>)
    ensures Durable(b, targets) <==> OffHost(b, targets)
  {
    if targets.Some? { FirstTargetIs(targets.value, b.storageTargetID); }
    hide FirstOf, FirstTarget, TrimSpace;
  }

  /** A request gets to the provisioner exactly if it asks for a supported, newer version other than
      the installed one, has a backup it may rely on, and, where that is required, one off the host. */
  lemma ProceedsIff(stored: string, r: Request, w: World)
    ensures Proceeds(stored, r, w) <==>
              Newer(stored, r, w) && BackupAtHand(r, w) && (w.durableRequired ==> OffHost(BackupOf(r, w), w.targets))
  {
    if BackupAtHand(r, w) { DurableIff(BackupOf(r, w), w.targets); }
    hide Compare, Durable, OffHost, TrimSpace;
  }

  predicate Fails(w: World) { w.injectedFailure || !w.upgradeOk }

  /** What the request does, in order: the backup; then the one call for the new version, unless a
      failure is injected; then either the store write, which comes last and only after that call
      succeeded, or a call for the version it found, and last, if that succeeds, a restore of this
      request's own backup. */
  lemma EffectsInOrder(stored: string, r: Request, w: World)
    ensures var effects, target, goes := Effects(stored, r, w), TrimSpace(r.version), Proceeds(stored, r, w);
            && (forall i :: 0 <= i < |effects| ==> (effects[i].BackupReady? <==> i == 0))
            && (!goes ==> |effects| <= 1)
            && (goes ==> BackupAtHand(r, w) && |effects| >= 2 && effects[0].BackupReady? && effects[0].backup == BackupOf(r, w))
            && (goes && !w.injectedFailure ==> effects[1] == UpgradeCalled(target))
            && (goes && Fails(w) ==> UpgradeCalled(stored) in effects[1..])
            && (goes && !Fails(w) && w.storeWriteOk ==> effects[2..] == [StackVersionWritten(target)])
            && (forall i :: 0 <= i < |effects| && effects[i].UpgradeCalled? ==>
                  || (i == 1 && effects[i].version == target && !w.injectedFailure)
                  || (effects[i].version == stored && Fails(w) && i == if w.injectedFailure then 1 else 2))
            && (forall i :: 0 <= i < |effects| && effects[i].StackVersionWritten? ==>
                  i == 2 == |effects| - 1 && effects[1] == UpgradeCalled(effects[i].version) && effects[i].version == target
                  && !Fails(w) && w.storeWriteOk)
            && (forall i :: 0 <= i < |effects| && effects[i].RestoreCalled? ==>
                  1 < i == |effects| - 1 && effects[i - 1] == UpgradeCalled(stored) && Fails(w) && w.rollbackOk && w.autoRestore
                  && effects[0].BackupReady? && effects[i].backupID == effects[0].backup.id)
            && (goes && Fails(w) && w.rollbackOk && w.autoRestore ==> effects[|effects| - 1].RestoreCalled?)
  {
    hide Validate, Durable, TrimSpace;
  }

  /** The answer, by the first thing that went wrong. */
  lemma AnswerIff(s: State, r: Request, w: World)
    ensures var response, goes, target := Handle(s, r, w).1, Proceeds(s.stored, r, w), TrimSpace(r.version);
            && (response.Upgraded? <==> goes && !Fails(w) && w.storeWriteOk)
            && (response.StoreFailed? <==> goes && !Fails(w) && !w.storeWriteOk)
            && (response.UpgradeFailed? <==> goes && Fails(w))
            && (response.UpgradeFailed? ==>
                  && (response.rollbackFailed <==> !w.rollbackOk)
                  && (response.restoreAttempted <==> w.rollbackOk && w.autoRestore)
                  && (response.restoreFailed <==> w.rollbackOk && w.autoRestore && w.restoreState != Some("completed")))
            && (response.Invalid? <==> !Newer(s.stored, r, w))
            && (response.BackupFailed? <==> Newer(s.stored, r, w) && !BackupAtHand(r, w))
            && (response.NotDurable? <==> Newer(s.stored, r, w) && BackupAtHand(r, w) && !goes)
            && (response == Invalid(VersionRequired) <==> target == "")
            && (response == Invalid(AlreadyInstalled) <==> target != "" && target == TrimSpace(s.stored))
            && (response == Invalid(Unsupported) <==> target != "" && target != TrimSpace(s.stored) && target !in w.supported)
  {
    ProceedsIff(s.stored, r, w);
    hide Compare, Durable, OffHost, TrimSpace;
  }
}
