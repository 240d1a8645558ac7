/** What the history of one profile consists of: every record that reached the disk, every call
    that left the process, and what became of the runner processes. */
module LifecycleEvents {
  import opened Outcomes
  import opened RecoveryState

  type ProfileId = nat

  /** A session as the server reports it. */
  datatype Session = Session(
    id: SessionId, profile: ProfileId, stateStopped: bool, statusStopped: bool, generation: Option<nat>)

  /** What does not change during a history. */
  datatype Config = Config(
    profile: ProfileId, licenseKey: bool, sessionStatus: bool, sessionLaunchSpec: bool,
    archiveCache: bool, stopRunner: bool)

  /** Which runner stopping goes for: none, because a natural close was noted; the one at hand; or
      the one in the record. */
  datatype Way = ByClose | ByHandle(handle: Identity) | ByRecord(recorded: Option<Identity>)

  datatype Event =
    | Saved(record: Record)
    | Removed(run: RunId)
    | LicenseAcquired(run: RunId)
    | LicenseReleased(run: RunId)
    | StartCall(run: RunId, key: Key)
    | StartAnswered(run: RunId, session: SessionId, with: Option<ArchiveIdentity>)
    | Restored(run: RunId, identity: ArchiveIdentity)
    | RunnerSpawned(run: RunId, runner: Identity)
    | StopReturned(run: RunId)
    | ArchiveCreated(run: RunId, digest: Digest)
    | UploadCall(run: RunId, digest: Digest)
    | Resolved(run: RunId, storageId: StorageId)
    | CommitCall(run: RunId, session: SessionId, payload: CommitPayload, key: Key)
    | CommitAnswered(run: RunId, answer: Session)
    | StatusAnswered(run: RunId, answer: Session)
    | RollbackCall(run: RunId, session: SessionId, key: Key)
    | RollbackAnswered(run: RunId, answer: Session)
    | ForceCall(run: RunId, session: SessionId, key: Key)
    | ForceAnswered(run: RunId, answer: Session)
    | CachePublished(run: RunId, generation: nat, digest: Digest)
    // What happens to runner processes and to the memory of the coordinator's own process.
    | RunnerReady(runner: Identity)
    | RunnerEnded(runner: Identity, normal: bool)
    | CloseReported(runner: Identity)
    | StopAsked(way: Way)
    | Restarted

  /** An event that belongs to no run. */
  predicate Ambient(e: Event) {
    e.RunnerReady? || e.RunnerEnded? || e.CloseReported? || e.StopAsked? || e.Restarted?
  }

  function RunOf(e: Event): RunId
    requires !Ambient(e)
  {
    if e.Saved? then e.record.runId else e.run
  }
}
