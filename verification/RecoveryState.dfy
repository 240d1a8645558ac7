/** The persisted lifecycle record of one profile and the rules a stored record obeys. */
module RecoveryState {
  import opened Outcomes

  type RunId = nat
  type SessionId = nat
  type StorageId = nat

  datatype Status =
    | StartIntent
    | License
    | RemoteActive
    | ArchiveMaterialized
    | SpawnIntent
    | Running
    | ArchiveReady
    | UploadPending
    | Done
    | ForceStop
    | UploadAmbiguous

  /** Size and digest of a ZIP file. */
  datatype Digest = Digest(size: nat, sha256: nat)

  datatype ArchiveIdentity = ArchiveIdentity(generation: nat, digest: Digest)

  /** The archive-bearing part of a stop request. */
  datatype CommitPayload = CommitPayload(storageId: StorageId, digest: Digest)

  datatype StopPayload = ForcePayload | ArchivePayload(archive: CommitPayload)

  /** The hashed text of an idempotency key. SHA-256 is taken to be injective, so a key is
      the operation, the run and the payload it was computed from. */
  datatype Key =
    | StartKey(run: RunId)
    | StopKey(run: RunId, payload: CommitPayload)
    | RollbackKey(run: RunId)
    | ForceKey(run: RunId)

  datatype Record = Record(
    runId: RunId,
    startKey: Key,
    stopKey: Option<Key>,
    remoteSession: Option<SessionId>,
    archive: Option<ArchiveIdentity>,
    archiveArtifact: Option<RunId>,
    launchFile: Option<RunId>,
    runnerPid: Option<nat>,
    runnerStartTime: Option<nat>,
    runnerCmdlineHash: Option<nat>,
    licenseAcquired: bool,
    archiveMaterialized: bool,
    browserLaunched: bool,
    relayCdpUrl: Option<nat>,
    uploadedStorageId: Option<StorageId>,
    stopPayload: Option<StopPayload>,
    retryCount: nat,
    status: Status)

  /** What tells a runner process from all others, ever. */
  datatype Identity = Identity(pid: nat, startTime: nat, cmdlineHash: nat)

  /** The runner a record names, if it names one completely. */
  function IdentityOf(r: Record): Option<Identity> {
    if r.runnerPid.Some? && r.runnerStartTime.Some? && r.runnerCmdlineHash.Some?
    then Some(Identity(r.runnerPid.value, r.runnerStartTime.value, r.runnerCmdlineHash.value)) else None
  }

  /** The record with this runner. */
  function WithRunner(r: Record, p: Identity): (s: Record)
    ensures IdentityOf(s) == Some(p)
  {
    r.(runnerPid := Some(p.pid), runnerStartTime := Some(p.startTime), runnerCmdlineHash := Some(p.cmdlineHash))
  }

  /** The statuses a start may resume from. */
  predicate Startable(s: Status) {
    s.StartIntent? || s.License? || s.RemoteActive? || s.ArchiveMaterialized? || s.SpawnIntent?
  }

  /** What validation demands of a record before it is written and after it is read. */
  predicate ValidRecord(r: Record) {
    && !(r.licenseAcquired && r.status.StartIntent?)
    && (r.status.Running? ==> r.remoteSession.Some? && r.browserLaunched)
    && (r.status.UploadPending? || r.status.UploadAmbiguous? ==> r.archiveArtifact.Some?)
    && (r.status.Done? ==> r.stopKey.Some? && r.stopPayload.Some?)
    && (r.status.ForceStop? ==> r.stopPayload == Some(ForcePayload))
    && (!r.status.StartIntent? && !r.status.License? ==> r.remoteSession.Some?)
    && (r.runnerPid.None? ==> r.runnerStartTime.None? && r.runnerCmdlineHash.None?)
    && (r.runnerPid.Some? ==> r.runnerStartTime.Some? && r.runnerCmdlineHash.Some?)
  }

  /** The record a fresh run starts from. */
  function NewRecord(run: RunId): (r: Record)
    // Nothing has happened yet.
    ensures !r.licenseAcquired && !r.archiveMaterialized && !r.browserLaunched && IdentityOf(r).None?
  {
    Record(run, StartKey(run), None, None, None, None, None, None, None, None,
           false, false, false, None, None, None, 0, StartIntent)
  }

  /** The record with the runner's identity and everything tied to a live browser cleared. */
  function WithoutRunner(r: Record): (s: Record)
    ensures IdentityOf(s).None? && !s.browserLaunched && s.relayCdpUrl.None?
  {
    r.(runnerPid := None, runnerStartTime := None, runnerCmdlineHash := None,
       browserLaunched := false, relayCdpUrl := None)
  }

  /** The record once runner and license are gone. */
  function Cleared(r: Record): (s: Record)
    ensures s.runId == r.runId && s.status == r.status && s.remoteSession == r.remoteSession && !s.licenseAcquired
  {
    WithoutRunner(r).(licenseAcquired := false, launchFile := None)
  }

  /** The record after a failed attempt has been counted. */
  function Retried(r: Record): Record {
    r.(retryCount := r.retryCount + 1)
  }
}
