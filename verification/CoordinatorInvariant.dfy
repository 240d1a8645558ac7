/** How the record on disk and the history of its profile agree, and which steps keep it so. */
module CoordinatorInvariant {
  import opened Outcomes
  import opened RecoveryState
  import opened LifecycleEvents
  import opened LifecycleLog

  /** The archive artifact of the record is the one that was created, with nothing running. */
  ghost predicate ArchiveFits(r: Record, v: View) {
    && r.archive.Some? && v.archived == Some(r.archive.value.digest)
    && v.stopReturned && !v.licensed && !r.licenseAcquired
  }

  ghost predicate PendingFits(r: Record, v: View) {
    && r.stopPayload.Some? && r.stopPayload.value.ArchivePayload?
    && var p := r.stopPayload.value.archive;
    && r.stopKey == Some(StopKey(r.runId, p))
    && r.archive.Some? && p.digest == r.archive.value.digest
    && (v.uploaded || v.resolved == Some(p.storageId))
    && (v.commit.Some? ==> v.commit.value == (p, StopKey(r.runId, p)))
  }

  ghost predicate NoStopYet(r: Record, v: View) {
    r.stopKey.None? && r.stopPayload.None? && v.commit.None?
  }

  /** What the session came with is on record until the run's own archive takes its place. */
  ghost predicate BaseFits(r: Record, v: View) {
    && (r.archive == v.base.came
        || (r.archiveArtifact.Some? && r.archive.Some? && v.archived == Some(r.archive.value.digest)))
    && v.base.laid == r.archiveMaterialized && (r.archiveMaterialized ==> r.remoteSession.Some?)
    && (r.status.Running? || r.status.SpawnIntent? ==> r.archiveMaterialized)
    && (r.remoteSession.None? ==> v.base.came.None?)
  }

  ghost predicate StatusFits(cfg: Config, r: Record, v: View) {
    match r.status
    case StartIntent | License | RemoteActive | ArchiveMaterialized | SpawnIntent | Running =>
      NoStopYet(r, v) && !v.uploaded && v.archived.None? && r.archiveArtifact.None?
    case ArchiveReady => NoStopYet(r, v) && !v.uploaded
    case UploadAmbiguous => NoStopYet(r, v)
    case UploadPending => PendingFits(r, v)
    case Done =>
      && r.archiveArtifact.Some? && PendingFits(r, v) && v.committed.Some? && v.stopped
      && (cfg.archiveCache ==> v.published)
    case ForceStop => r.stopKey == Some(ForceKey(r.runId))
  }

  ghost predicate Fits(cfg: Config, r: Record, m: Monitor) {
    && ValidRecord(r) && m.run.Some?
    && var v := m.run.value;
    && v.id == r.runId && v.id in m.used && r.startKey == StartKey(r.runId)
    && v.session == r.remoteSession && (v.session.Some? ==> v.asked) && BaseFits(r, v)
    && v.recorded == r.licenseAcquired && (v.licensed ==> v.recorded)
    && v.forced == r.status.ForceStop?
    && (r.archiveArtifact.Some? && !v.forced ==> ArchiveFits(r, v))
    && StatusFits(cfg, r, v)
  }

  ghost predicate Linked(cfg: Config, disk: Option<Record>, m: Monitor) {
    if disk.Some? then Fits(cfg, disk.value, m) else m.run.None?
  }

  /** Saving r is a step the history accepts, and r fits afterwards. */
  ghost predicate CanSave(cfg: Config, m: Monitor, r: Record) {
    && AfterSave(cfg, m, r).Some?
    && Fits(cfg, r, AfterSave(cfg, m, r).value)
  }

  /** ... as a further record of the current run. */
  ghost predicate Continues(cfg: Config, m: Monitor, r: Record) {
    m.run.Some? && m.run.value.id == r.runId && ValidRecord(r) && CanSave(cfg, m, r)
  }

  /** Events of a run after which a record that fitted still fits. */
  ghost predicate Steady(r: Record, e: Event) {
    match e
    case Saved(_) => false
    case Removed(_) => false
    case ArchiveCreated(_, _) => r.archiveArtifact.None? && r.status.ArchiveReady?
    case CommitCall(_, _, p, key) =>
      r.status.UploadPending? && r.stopPayload == Some(ArchivePayload(p)) && r.stopKey == Some(key)
    case UploadCall(_, _) => r.status.UploadAmbiguous?
    case RunnerSpawned(_, _) => r.archiveArtifact.None?
    case Resolved(_, _) => r.status.UploadAmbiguous?
    case LicenseAcquired(_) => r.archiveArtifact.None?
    case _ => true
  }

  lemma SteadyFits(cfg: Config, m: Monitor, r: Record, e: Event)
    requires Fits(cfg, r, m) && !Ambient(e) && RunOf(e) == r.runId && Steady(r, e) && Allowed(cfg, m.run.value, e)
    ensures Next(cfg, m, e) == Some(m.(run := Some(After(cfg, m.run.value, e))))
    ensures Fits(cfg, r, Next(cfg, m, e).value)
  {
    hide ValidRecord, TellsStopped;
  }

  lemma StartIsAllowed(cfg: Config, m: Monitor, r: Record)
    requires Fits(cfg, r, m) && Startable(r.status)
    ensures Allowed(cfg, m.run.value, StartCall(r.runId, r.startKey))
  {
  }

  lemma AnswerIsAllowed(cfg: Config, v: View, run: RunId, session: SessionId, archive: Option<ArchiveIdentity>)
    requires v.asked
    ensures Allowed(cfg, v, StartAnswered(run, session, archive))
  {
  }

  lemma SpawnAllowed(cfg: Config, m: Monitor, r: Record, p: Identity)
    requires Fits(cfg, r, m) && r.status.SpawnIntent? && r.remoteSession.Some?
    ensures var m' := m.(run := Some(m.run.value.(stopReturned := false)));
            Next(cfg, m, RunnerSpawned(r.runId, p)) == Some(m') && Fits(cfg, r, m')
  {
  }

  lemma StopAllowed(cfg: Config, m: Monitor, r: Record)
    requires Fits(cfg, r, m)
    ensures var m' := m.(run := Some(m.run.value.(stopReturned := true)));
            Next(cfg, m, StopReturned(r.runId)) == Some(m') && Fits(cfg, r, m')
  {
  }

  /** What the monitor makes of a further save of the current run. */
  lemma SavedIs(cfg: Config, m: Monitor, r: Record)
    requires AfterSave(cfg, m, r).Some?
    ensures m.run.Some? && m.run.value.id == r.runId ==>
              AfterSave(cfg, m, r) == Some(m.(run := Some(SavedView(m.run.value, r))))
  {
    hide ValidRecord;
  }

  /** A record that can be saved still can be once it was. */
  lemma SavedFits(cfg: Config, m: Monitor, r: Record)
    requires CanSave(cfg, m, r)
    ensures var m' := AfterSave(cfg, m, r).value;
            CanSave(cfg, m', r)
  {
  }

  // ---------- Record by record: what each operation may write next ----------

  lemma StillContinues(cfg: Config, m: Monitor, r: Record)
    requires Fits(cfg, r, m)
    ensures Continues(cfg, m, r)
  {
  }

  lemma RetriedContinues(cfg: Config, m: Monitor, r: Record)
    requires Continues(cfg, m, r)
    ensures Continues(cfg, m, Retried(r))
  {
  }

  lemma LicensedContinues(cfg: Config, m: Monitor, r: Record, licensed: bool)
    requires Fits(cfg, r, m) && Startable(r.status) && !r.licenseAcquired
    ensures Continues(cfg, m, r.(licenseAcquired := licensed, status := License))
  {
  }

  lemma SessionContinues(cfg: Config, m: Monitor, r: Record, session: SessionId, archive: Option<ArchiveIdentity>)
    requires Fits(cfg, r, m) && Startable(r.status) && r.remoteSession.None? && m.run.value.asked
    requires m.run.value.base.offered == Some((session, archive))
    ensures Continues(cfg, m, r.(remoteSession := Some(session), archive := archive, status := RemoteActive))
  {
  }

  /** Before and while a runner is up, a record may change its status and whatever describes
      the runner, as long as the runner's identity stays whole. */
  lemma LaunchContinues(cfg: Config, m: Monitor, r: Record, s: Record)
    requires Fits(cfg, r, m) && Startable(r.status) && r.remoteSession.Some?
    requires s == r.(archiveMaterialized := s.archiveMaterialized, launchFile := s.launchFile,
                     runnerPid := s.runnerPid, runnerStartTime := s.runnerStartTime,
                     runnerCmdlineHash := s.runnerCmdlineHash, browserLaunched := s.browserLaunched,
                     relayCdpUrl := s.relayCdpUrl, status := s.status)
    requires s.status.ArchiveMaterialized? || s.status.SpawnIntent? || (s.status.Running? && s.browserLaunched)
    requires s.archiveMaterialized
    requires r.archiveMaterialized || r.archive.None? || m.run.value.base.restored == r.archive
    requires s.runnerPid.Some? == s.runnerStartTime.Some? == s.runnerCmdlineHash.Some?
    ensures Continues(cfg, m, s)
  {
  }

  lemma ClosedContinues(cfg: Config, m: Monitor, r: Record)
    requires Fits(cfg, r, m) && r.status.Running?
    ensures Continues(cfg, m, WithoutRunner(r).(status := ArchiveMaterialized))
  {
  }

  lemma ReadyContinues(cfg: Config, m: Monitor, r: Record)
    requires Fits(cfg, r, m) && r.remoteSession.Some?
    requires Startable(r.status) || r.status.Running? || r.status.ArchiveReady?
    ensures Continues(cfg, m, r.(status := ArchiveReady))
  {
  }

  lemma TornDownContinues(cfg: Config, m: Monitor, r: Record, s: Status)
    requires Fits(cfg, r, m) && m.run.value.stopReturned && !m.run.value.licensed && r.remoteSession.Some?
    requires s == if r.status.Running? then ArchiveMaterialized else r.status
    ensures Continues(cfg, m, Cleared(r).(status := s))
  {
  }

  lemma ArchivedContinues(cfg: Config, m: Monitor, r: Record, d: Digest, g: nat)
    requires Fits(cfg, r, m) && r.status.ArchiveReady? && m.run.value.stopReturned && !m.run.value.licensed
    requires m.run.value.archived == Some(d) && !r.licenseAcquired
    ensures Continues(cfg, m, r.(archiveArtifact := Some(r.runId), archive := Some(ArchiveIdentity(g, d))))
  {
  }

  lemma AmbiguousContinues(cfg: Config, m: Monitor, r: Record)
    requires Fits(cfg, r, m) && r.archiveArtifact.Some?
    requires r.status.ArchiveReady? || r.status.UploadAmbiguous?
    ensures Continues(cfg, m, r.(status := UploadAmbiguous))
  {
  }

  /** An ambiguous record that was uploaded, or resolved by its user, turns pending. */
  lemma PendingContinues(cfg: Config, m: Monitor, r: Record, p: CommitPayload)
    requires Fits(cfg, r, m) && r.status.UploadAmbiguous? && p.digest == r.archive.value.digest
    requires m.run.value.uploaded || m.run.value.resolved == Some(p.storageId)
    ensures Continues(cfg, m, r.(stopKey := Some(StopKey(r.runId, p)), stopPayload := Some(ArchivePayload(p)),
                                 uploadedStorageId := Some(p.storageId), status := UploadPending))
  {
  }

  lemma DoneContinues(cfg: Config, m: Monitor, r: Record)
    requires Fits(cfg, r, m) && r.status.UploadPending?
    requires m.run.value.committed.Some? && m.run.value.stopped && (cfg.archiveCache ==> m.run.value.published)
    ensures Continues(cfg, m, r.(status := Done))
  {
  }

  lemma ForcedContinues(cfg: Config, m: Monitor, r: Record)
    requires Fits(cfg, r, m) && r.remoteSession.Some?
    ensures Continues(cfg, m, r.(stopKey := Some(ForceKey(r.runId)), stopPayload := Some(ForcePayload), status := ForceStop))
  {
  }

  lemma NewRunCanSave(cfg: Config, m: Monitor, run: RunId)
    requires run !in m.used && (m.run.Some? ==> m.run.value.id in m.used)
    ensures CanSave(cfg, m, NewRecord(run))
    ensures AfterSave(cfg, m, NewRecord(run)) == Some(Monitor(m.used + {run}, Some(NewView(run))))
  {
  }

  // ---------- What a fitting record allows ----------

  /** While a pending record is on disk everything but the commit is over. */
  lemma PendingAllows(cfg: Config, m: Monitor, r: Record)
    requires Fits(cfg, r, m) && r.status.UploadPending?
    ensures r.remoteSession.Some? && r.archive.Some? && r.archiveArtifact.Some?
    ensures r.stopPayload.Some? && r.stopPayload.value.ArchivePayload? && r.stopKey.Some?
    ensures var p := r.stopPayload.value.archive;
            Allowed(cfg, m.run.value, CommitCall(r.runId, r.remoteSession.value, p, r.stopKey.value))
            && m.run.value.archived == Some(p.digest) && m.run.value.stopReturned && !m.run.value.licensed
  {
  }

  lemma FitsView(cfg: Config, m: Monitor, r: Record)
    requires Fits(cfg, r, m)
    ensures ValidRecord(r) && m.run.Some? && m.run.value.id == r.runId && r.runId in m.used
    ensures m.run.value.session == r.remoteSession && m.run.value.forced == r.status.ForceStop?
    ensures m.run.value.licensed ==> r.licenseAcquired
    ensures r.status.ForceStop? ==> r.stopKey == Some(ForceKey(r.runId))
    ensures r.archiveArtifact.Some? && !r.status.ForceStop? ==> ArchiveFits(r, m.run.value)
    ensures Startable(r.status) || r.status.Running? ==> m.run.value.archived.None? && r.archiveArtifact.None?
                                                         && r.startKey == StartKey(r.runId)
    ensures r.status.ArchiveReady? || r.status.UploadAmbiguous? ==> m.run.value.commit.None? && r.stopKey.None?
    ensures r.status.ArchiveReady? ==> !m.run.value.uploaded
    ensures r.status.Done? ==> m.run.value.stopped && ArchiveFits(r, m.run.value)
    ensures r.archiveArtifact.None? ==> r.archive == m.run.value.base.came
    ensures r.status.Running? || r.status.SpawnIntent? ==> r.archiveMaterialized
  {
  }
}
