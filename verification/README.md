# Lifecycle, archive and stream model

A Dafny model of the crash-recovery and byte-stream code around one browser session, with
proofs. `dafny verify dfyconfig.toml` checks the whole project.

What is modelled, one group of files each:

* **The lifecycle coordinator** (`RecoveryState`, `LifecycleEvents`, `RunnerLog`, `LifecycleLog`,
  `RunnerHistories`, `CoordinatorInvariant`, `OperationLog`, `Coordinator`). One record per profile survives crashes. Every operation is a method of a class
  whose awaited calls may succeed, fail, or be the last thing the process does. Everything that
  leaves the process - saves, calls to the server, runner and license events - is appended to a
  history. A monitor (`LifecycleLog.Next`) accepts or refuses each event; the methods are proved
  to produce accepted histories only, under any interleaving of operations, failures, crashes and
  restarts, and the lemmas say what an accepted history looks like in terms of its positions alone.
  Runner processes are part of the model: `RunnerLog` follows which of them are alive and what the
  coordinator's process remembers of them, and the class keeps that equal to its own fields.
  `OperationLog` says of one operation what it adds to the history: which kinds of events, which
  answers, and whether a run begins or is removed.
* **The tar extractor** (`TarFormat`, `TarFields`, `TarExtract`, `TarSafety`, `TarRefinement`,
  `UstarRoundTrip`). The loop with its carry-over counters is proved equal to a function of the
  chunks, that function is compared with a reader of the whole archive, extraction is proved to
  undo a ustar writer, and nothing it makes is outside the destination, whatever the bytes.
* **The resumable download** (`Download`): part file, tag file, requests, retries, runs.
* **The profile archive cache and the restore** (`ProfileCache`, `RestoreArchive`).
* **The ZIP directory reader** (`ZipNames`, `ZipDirectory`, `ZipConflicts`, `ZipRoundTrip`,
  `ZipRules`).
* **The lock protocol** (`Locks`), as a state machine over the steps of tasks in many processes.
* **The CDP relay's client** (`Relay`), one method for each thing that can happen to it.
* **The humanised wheel** (`Wheel`), over real numbers.

`Bytes` and `Outcomes` hold what is shared: byte strings, options, results, and the ways in which
an awaited operation ends.

## Where the code does not do what one might expect

Each of these is stated as a theorem, with the exact condition where there is one.

* After an all-zero tar header only the rest of that chunk is skipped, so bytes behind the first
  zero header are read or not depending on the chunks: `ZeroHeaderSplits`. Chunks do not matter
  exactly if those bytes are inert: `ChunksDoNotMatterIff`. A negative size in a header makes the
  result depend on chunks, too: `NegativeSizeSplits`.
* An answer without an entity tag leaves an old tag file in place, and a later resume can splice
  two versions: `SpliceWithoutTag`. Such an answer, complete or cut short, is harmless for every
  server exactly if no entity tag is left over: `UntaggedIsSafeIff`.
* A start does not look after a record that is past running: with an archive made, an upload pending
  or a force-stop intent on disk, and a server that does not report the session stopped, it begins
  another run in its place, and the archive of the old run stays behind. `Start` says exactly when
  another run begins.
* A link in a tar archive may take the place of the destination itself: `LinkInPlace`. It lies
  strictly below the destination exactly if its name has a part that is no dot: `PlaceIsBelowIff`.
* A ZIP directory in which a directory entry comes before a file above it is accepted:
  `FileAfterDirectory`. `AdmittedIff` says exactly which lists are.
* An end-of-directory signature can straddle the end record and the comment, so a comment without
  a signature in it can still mislead the scan: `StraddlingSignature`, exact in `EndIsFoundIff`.
* A session that is attached to a second target, and one that was mapped to the target with the
  empty name, leave the relay's two maps disagreeing: both are exact in the contracts of
  `AddMapping` and `RemoveMapping`.
* Stopping a runner can return while the runner lives. A natural close that was reported but never
  used up - because the stop it led to failed before it came to the runner, or because the report
  arrived while the runner was being stopped anyway - makes the next stop of the profile return at
  once, whatever runner is up by then. A handle of another runner, or a record that does not name
  the runner after a crash, do the same. `StopSparesIff` gives the exact condition;
  `LiveRunnerIsArchived` is a whole history after which the profile of a live browser is archived.
  `CarefulStopEndsAll` says what keeps histories free of it, and that an ordinary run does is
  `OrdinaryRunIsCareful`.
* Comparing a stale lock file and deleting it are two system calls, so two tasks can both hold the
  lock: `TwoHoldTheLock` is a whole run. Holders keep the file, and mutual exclusion stands, exactly
  as long as no deletion takes a live holder's file: `HoldersKeepIff`, `ExclusiveIff`. It is enough
  that one task at a time is about to delete a stale file (`TurnsAreHarmless`), or that nothing
  comes between the two calls (`AtomicIsHarmless`).
* Two kinds of trouble make a restore with a cache fail that a plain download would complete: the
  cached archive does not unpack and cannot be dropped, or something else lies in the archive's
  place and the cache has not found it invalid. `CacheSpoilsIff` says that there are no others,
  short of faults that are worse than storage errors.
* The cap on the steps of a wheel can never be reached, because the cap on chunks is reached first:
  exact in `HumanizedWheel`.
* A user may resolve an ambiguous upload that never happened; `CommitOrder` therefore names the
  resolution as the alternative to an upload.

## Model

| member | source | states |
|---|---|---|
| LifecycleLog.UploadAtMostOnce | src/core/coordinator/coordinator.ts:820-849 | In every accepted history two direct uploads of one run are the same position: no archive of a run leaves twice, over all failures, crashes and restarts |
| LifecycleLog.CommitsAgree | src/core/coordinator/coordinator.ts:721-763 | Any two archive-bearing stop calls of a run carry the same session, payload and key |
| LifecycleLog.KeysAreImmutable | src/core/coordinator/state.ts:171-179 | Every session request carries the start key of its run, every stop call the key computed from the payload sent with it |
| LifecycleLog.ForceStopIsFinal | src/core/coordinator/coordinator.ts:263-287 | Once a force-stop intent was saved for a run, no upload, commit or cache publication of it follows and every later save keeps the intent |
| LifecycleLog.RemovalIsFinal | src/core/coordinator/coordinator.ts:1147-1191 | A removed run never appears in the history again |
| LifecycleLog.SavesAreValid | src/core/coordinator/state.ts:103-153 | Every saved record passes validation: what its status says is borne out by its session, browser, artifact, payload and runner |
| LifecycleLog.SessionsStay | src/core/coordinator/state.ts:103-153 | A run keeps its session once a record names it |
| LifecycleLog.StopOrder | src/core/coordinator/coordinator.ts:966-1005 | Whatever needs the runner out of the way - license release, archive, upload, rollback, forced stop, removal - follows a stop of the run that returned, with no spawn in between; in a careful history no runner is alive then |
| LifecycleLog.ReleaseOrder | src/core/coordinator/coordinator.ts:773-781 | A license is released only after stopping the runner returned, with no spawn in between |
| LifecycleLog.ArchiveOrder | src/core/coordinator/coordinator.ts:764-810 | Before an archive is created stopping the runner returned and each recorded license was released; no runner is ever spawned for the run after that; in a careful history no runner is alive when it is created |
| LifecycleLog.SessionOrder | src/core/coordinator/coordinator.ts:512-536 | A record names a session only after one was requested under the run's start key, and only one that the server answered with |
| LifecycleLog.SpawnOrder | src/core/coordinator/coordinator.ts:512-612 | A runner is spawned only for a session that the server gave the run, and only after the archive the session came with, if any, was restored into the work directory |
| LifecycleLog.UploadOrder | src/core/coordinator/coordinator.ts:811-838 | The uploaded bytes are the ones archived before |
| LifecycleLog.CommitOrder | src/core/coordinator/coordinator.ts:850-875 | A commit names archived bytes and follows their upload, or the user's resolution with this storage id |
| LifecycleLog.PublishOrder | src/core/coordinator/coordinator.ts:1071-1088 | The cache receives exactly the archived bytes, under a generation the server reported before for the stopped session, which is the one an earlier record of the run names |
| LifecycleLog.DoneOrder | src/core/coordinator/coordinator.ts:1089-1094 | A record is saved as done only after the commit was acknowledged or observed and the cache refreshed |
| LifecycleLog.RemovalOrder | src/core/coordinator/coordinator.ts:289-328 | On every removal path stopping the runner returned, each recorded license was released, and the server was seen to report stopped the session that an earlier record of the run names; in a careful history no runner is alive |
| LifecycleLog.StopHasReturned | src/core/coordinator/coordinator.ts:1097-1138 | When the monitor counts stopping as returned there is a returned stop of the run in the history with no spawn after it |
| LifecycleLog.HistoriesAreSafe | src/core/coordinator/coordinator.ts:168-1192 | Every history has at most one upload and one commit per run, no upload, commit or publication after a force-stop intent, only valid saves, and no live runner where one must be gone, as long as it is careful |
| RunnerLog.AliveIsSpawned | src/core/coordinator/coordinator.ts:636-661 | A runner counts as alive exactly if it was spawned and has not ended since |
| RunnerLog.StopSparesIff | src/core/coordinator/coordinator.ts:1097-1138 | A live runner can survive a stop that returns exactly if a natural close was reported, or another runner is at hand, or none is and the record does not name it |
| RunnerLog.CarefulStopEndsAll | src/core/coordinator/coordinator.ts:1097-1138 | If runners are spawned only when none is alive or at hand and no close is outstanding, and live runners are on record whenever it matters, then no runner is alive once stopping returned |
| RunnerHistories.LiveRunnerIsArchived | src/core/coordinator/coordinator.ts:1098-1101 | A concrete history - a natural close, a stop that fails, a new run, a stop - in which the archive is created while the runner lives |
| RunnerHistories.HistoryIsCareless | src/core/coordinator/coordinator.ts:644-647 | That history is not careful |
| RunnerHistories.OrdinaryRunIsCareful | src/core/coordinator/coordinator.ts:487-810 | Starting, stopping and archiving in the ordinary way is careful |
| LifecycleLog.LicenseIsReturned | src/core/coordinator/coordinator.ts:773-781 | When the monitor counts the license as returned, every save that claimed it has a release after it |
| LifecycleLog.EstablishedBefore | src/core/coordinator/coordinator.ts:710-888 | Whatever is known about the current run was established by an earlier event of that same run |
| LifecycleLog.PastIsRemembered | src/core/coordinator/coordinator.ts:710-888 | Nothing the history contains about uploads, commits, intents and sessions is ever forgotten by the monitor |
| LifecycleLog.EffectsAreUnique | src/core/coordinator/coordinator.ts:513-516 | With a server that carries out each key once, one session is opened and one archive committed for a run, however often the client repeats itself |
| LifecycleLog.EffectKeysDiffer | src/core/coordinator/state.ts:171-179 | The requests such a server carries out have pairwise different keys |
| OperationLog.GrowsIsOnly | src/core/coordinator/coordinator.ts:200-451 | What an operation did not count did not happen: the new part of the history has events of the kinds that its contract admits, and no others |
| OperationLog.StaysOrRemoved | src/core/coordinator/coordinator.ts:1147-1191 | While no run begins, the current run stays until its record is removed |
| CoordinatorInvariant.SteadyFits | src/core/coordinator/coordinator.ts:710-888 | Which events leave the record on disk in agreement with the history |
| CoordinatorInvariant.LicensedContinues | src/core/coordinator/coordinator.ts:502-510 | The license step, which also sets the status back, is a valid continuation of the run |
| CoordinatorInvariant.SessionContinues | src/core/coordinator/coordinator.ts:512-536 | So is recording the session that was asked for |
| CoordinatorInvariant.LaunchContinues | src/core/coordinator/coordinator.ts:583-698 | So is every save from materialising to running, as long as the runner's identity stays whole |
| CoordinatorInvariant.TornDownContinues | src/core/coordinator/coordinator.ts:1028-1042 | So is clearing runner and license once both are gone |
| CoordinatorInvariant.ArchivedContinues | src/core/coordinator/coordinator.ts:797-810 | So is recording the artifact that was created |
| CoordinatorInvariant.PendingContinues | src/core/coordinator/coordinator.ts:850-869 | So is turning an uploaded or resolved record pending with its payload and key |
| CoordinatorInvariant.DoneContinues | src/core/coordinator/coordinator.ts:1093-1094 | So is marking a committed and published record done |
| CoordinatorInvariant.ForcedContinues | src/core/coordinator/coordinator.ts:270-284 | So is a force-stop intent from any status that has a session |
| CoordinatorInvariant.PendingAllows | src/core/coordinator/coordinator.ts:721-750 | A pending record fixes the one commit that may be sent, with runner and license gone |
| Coordinator.LifecycleCoordinator.constructor | src/core/coordinator/coordinator.ts:178-198 | A new profile has an empty, accepted history |
| Coordinator.LifecycleCoordinator.Save | src/core/coordinator/state.ts:103-153 | A save is refused exactly if the record is invalid; otherwise it happens, or the disk is unchanged, and a failure leaves both open |
| Coordinator.LifecycleCoordinator.Proceed | src/core/coordinator/coordinator.ts:156-166 | A save that continues the run is never refused by validation |
| Coordinator.LifecycleCoordinator.EndRunner | src/core/coordinator/coordinator.ts:1097-1138 | What one stop does to the process table, exactly: the recorded runner is gone afterwards if and only if it was gone before, or no natural close was noted and no other runner was at hand; a process that merely has the runner's id is an error, not a runner |
| Coordinator.LifecycleCoordinator.EndIdentified | src/core/coordinator/coordinator.ts:1103-1137 | Ends one runner and no other process, after asking the process table where the source does |
| Coordinator.LifecycleCoordinator.StopRunner | src/core/coordinator/coordinator.ts:1097-1138 | The same with runners ending and closes reported around it: on success the recorded runner is gone if no close was noted or on its way before, no other runner was at hand and none was watched |
| Coordinator.LifecycleCoordinator.Kill | src/core/coordinator/coordinator.ts:1113-1136 | A kill that returns has ended its process and no other |
| Coordinator.LifecycleCoordinator.KillRecorded | src/core/coordinator/coordinator.ts:615-630 | When the runner of an earlier attempt may be forgotten, it is not alive; when not, it is, or another process has its id |
| Coordinator.LifecycleCoordinator.ForgetAndLaunch | src/core/coordinator/coordinator.ts:615-698 | On success the record and the handle name one runner, and the one of an earlier attempt is gone |
| Coordinator.LifecycleCoordinator.TearDown | src/core/coordinator/coordinator.ts:966-980 | On success stopping returned and a recorded license is released and forgotten by the process; the recorded runner is gone under the conditions of StopRunner |
| Coordinator.LifecycleCoordinator.CleanupLocked | src/core/coordinator/coordinator.ts:1147-1191 | The record disappears only with nothing running, no license held and the session stopped |
| Coordinator.LifecycleCoordinator.CommitSession | src/core/coordinator/coordinator.ts:746-760 | The commit is sent with the persisted payload and key; an acknowledgement gives the generation |
| Coordinator.LifecycleCoordinator.DirectUpload | src/core/coordinator/coordinator.ts:824-838 | An upload needs the ambiguous record on disk and no earlier upload of the run |
| Coordinator.LifecycleCoordinator.AdoptCommittedUploadLocked | src/core/coordinator/coordinator.ts:1047-1096 | A committed upload ends with the record gone; without a generation, or when the archive file is no longer what was uploaded, nothing is adopted |
| Coordinator.LifecycleCoordinator.CommitPendingLocked | src/core/coordinator/coordinator.ts:721-763 | A persisted upload is committed again and the record removed on an acknowledged commit, whose answer is handed on; nothing is sent when the archive file is no longer what was uploaded |
| Coordinator.LifecycleCoordinator.ArchiveLocked | src/core/coordinator/coordinator.ts:764-810 | On success an archive-ready record with its artifact is on disk, for the same run and session |
| Coordinator.LifecycleCoordinator.UploadLocked | src/core/coordinator/coordinator.ts:811-887 | On success the record is gone and the answer is an acknowledged commit of the session that was heard from the server in this operation |
| Coordinator.LifecycleCoordinator.StopLocked | src/core/coordinator/coordinator.ts:710-888 | A stop that returns has committed the archive, and its answer was heard; done and forced records are refused without a trace; no other kind of request is made |
| Coordinator.LifecycleCoordinator.StopClosed | src/core/coordinator/coordinator.ts:436-450 | The record of a browser found closed is stopped the same way |
| Coordinator.LifecycleCoordinator.CleanupRemoteStoppedLocked | src/core/coordinator/coordinator.ts:1007-1045 | A session the server stopped is adopted or cleaned up, after teardown; nothing is sent or carried unless an upload was pending |
| Coordinator.LifecycleCoordinator.RemoteStopped | src/core/coordinator/coordinator.ts:893-907 | Asks the server about the session whenever there is one to ask about, and reports it only if the server named it and one of the two fields says stopped |
| Coordinator.LifecycleCoordinator.ForceStopLocked | src/core/coordinator/coordinator.ts:950-1005 | On success the record is gone and the server reported the session stopped, in an answer to this operation, before or after it was told to; nothing is archived, uploaded or committed |
| Coordinator.LifecycleCoordinator.ReconcileLocked | src/core/coordinator/coordinator.ts:890-948 | A session in the result means the record is gone and the server's answer was heard; none means the server was asked and did not say stopped, nothing was done, and a running browser without a handle is alive |
| Coordinator.LifecycleCoordinator.StartSession | src/core/coordinator/coordinator.ts:512-546 | A session request and its answer, as recorded |
| Coordinator.LifecycleCoordinator.Restore | src/core/coordinator/coordinator.ts:552-577 | Lays the archive that the session came with into the work directory |
| Coordinator.LifecycleCoordinator.Materialize | src/core/coordinator/coordinator.ts:547-600 | On success a record on disk says that the work directory is ready; the archive was restored in this operation exactly if there is one and it was not before |
| Coordinator.LifecycleCoordinator.LaunchRunner | src/core/coordinator/coordinator.ts:636-698 | On success a running record is on disk that names the runner at hand; after a failure the record in hand can still be saved |
| Coordinator.LifecycleCoordinator.TakeLicense | src/core/coordinator/coordinator.ts:495-510 | On success a startable record of the same run is on disk which claims the license whenever there is a key; nothing is acquired when the process has it |
| Coordinator.LifecycleCoordinator.StartSteps | src/core/coordinator/coordinator.ts:511-699 | A start that returns leaves the same run running; a session that is asked for again is the recorded one |
| Coordinator.LifecycleCoordinator.StartLocked | src/core/coordinator/coordinator.ts:487-708 | A start that returns leaves the same run running; whatever happens, it only acquires, requests, restores, spawns and saves |
| Coordinator.LifecycleCoordinator.Resume | src/core/coordinator/coordinator.ts:205-225 | What a start finds: a running record, untouched if it was running, or that of an interrupted start; or nothing to go on with |
| Coordinator.LifecycleCoordinator.Start | src/core/coordinator/coordinator.ts:200-239 | A start that returns leaves a running record. Another run begins exactly if there was none, the record on disk was removed, or it is done, past running or forced; a done record is removed first; a running record is returned as it is, with nothing saved, requested or spawned; the server was asked first |
| Coordinator.LifecycleCoordinator.Stop | src/core/coordinator/coordinator.ts:241-261 | A stop that returns leaves no record, and its answer is the server's report or its acknowledgement of the commit, heard in this operation. Whatever happens, it never force-stops or rolls back a run that was not forced, and starts nothing |
| Coordinator.LifecycleCoordinator.ForceStopProfile | src/core/coordinator/coordinator.ts:263-287 | A forced stop that returns leaves no record and hands on a heard answer that the session stopped; whatever happens, nothing is archived, uploaded, committed or started |
| Coordinator.LifecycleCoordinator.RollbackStart | src/core/coordinator/coordinator.ts:289-328 | A rollback works only before readiness and ends with the session stopped, as heard, and the record gone; whatever happens, nothing is saved, archived, uploaded, committed, forced or started |
| Coordinator.LifecycleCoordinator.Recover | src/core/coordinator/coordinator.ts:330-376 | A recovery in time brings a startable record to running under its own run, unless the server's word settles it; a running, done or ambiguous record comes back as it was; what is past running or forced is settled and removed; a late one only counts the attempt. No record is started that was past starting, none carried that was not |
| Coordinator.LifecycleCoordinator.ResolveUploadAmbiguous | src/core/coordinator/coordinator.ts:378-420 | Only an ambiguous record can be resolved; it turns pending with the payload and key of the given object, and nothing else happens |
| Coordinator.LifecycleCoordinator.BrowserProcessClosed | src/core/coordinator/coordinator.ts:422-451 | Acts exactly if the record is running under this run and process, and leaves everything alone otherwise; it archives and commits like a stop, and hands on the heard acknowledgement |
| Coordinator.LifecycleCoordinator.CountFailedClose | src/core/coordinator/coordinator.ts:668-683 | Counts the attempt on whatever record there is |
| Coordinator.LifecycleCoordinator.Restart | src/core/coordinator/coordinator.ts:168-198 | A new process remembers no handle, no natural close and no license; the record and the history stay |
| Coordinator.LifecycleCoordinator.Run | src/core/coordinator/coordinator.ts:168-1192 | Any number of operations, each ending in any way, with restarts after crashes, yields an accepted history that only grows: one upload and one commit per run, force-stop intents kept, valid saves, no live runner where one must be gone as long as the history is careful |
| TarExtract.EnterHeader | src/core/binary/install.ts:139-196 | A header is refused with the right error, noted as a link, made as a folder, skipped, or opened as a file, without mixing the counters |
| TarExtract.ExtractTarGz | src/core/binary/install.ts:101-230 | The loops give what the function of the chunks gives |
| TarFields.CutNulIff | src/core/binary/install.ts:79-90 | A text field is cut at the first NUL with only one line behind it, or not at all |
| TarFields.NumberIs | src/core/binary/install.ts:92-99 | Blanks, a sign, octal digits and then anything else read as that number, for any bytes |
| TarFields.NoNumber | src/core/binary/install.ts:92-99 | An empty field is zero, and any other text is no number |
| TarSafety.ExtractionStaysInside | src/core/binary/install.ts:101-230 | Whatever the bytes and the chunks: every file and folder that is made is where its path leads from the destination, every link is below the destination or in its place, and no link points outside |
| TarSafety.PlaceIsBelowIff | src/core/binary/install.ts:160-165 | A name leads strictly below the destination exactly if it has a part that is neither empty nor a dot |
| TarSafety.WalkIsPlainIff | src/core/binary/install.ts:160-169 | Walking a name leads to its plain parts below the base exactly if no part leads up |
| TarSafety.RefusedIff | src/core/binary/install.ts:143-196 | Each of the four refusals of a header, exactly when it is due |
| TarRefinement.TurnIsUnit | src/core/binary/install.ts:118-215 | One turn of the inner loop is one unit of the whole archive, or leaves a unit that ends alike |
| TarRefinement.FeedLeads | src/core/binary/install.ts:116-216 | With an inert tail, feeding the remaining chunks from any state ends in the verdict of the reader that goes on past zero headers |
| TarRefinement.ChunksDoNotMatter | src/core/binary/install.ts:105-230 | With an inert tail every chunking gives the files, folders, links and verdict of a one-pass reader |
| TarRefinement.ZeroTailIsInert | src/core/binary/install.ts:142 | Only zeros behind the first zero header are an inert tail |
| TarRefinement.ChunksDoNotMatterIff | src/core/binary/install.ts:142 | Without negative sizes, every chunking agrees with the one-pass reader if and only if the tail is inert |
| UstarRoundTrip.NumberReadsBack | src/core/binary/install.ts:92-99 | An octal field with a NUL or blank at its end gives back its number |
| UstarRoundTrip.NameReadsBack | src/core/binary/install.ts:79-86 | Prefix and name fields give back the full name |
| UstarRoundTrip.LinkReadsBack | src/core/binary/install.ts:88-90 | The link field gives back the target |
| UstarRoundTrip.HeaderReadsBack | src/core/binary/install.ts:143-196 | A written header is understood as the item it was written for |
| UstarRoundTrip.ExtractionUndoesWriting | src/core/binary/install.ts:101-230 | Writing any legal items and extracting the bytes under any chunking is building the items, conflicts included |
| UstarRoundTrip.EverythingComesBack | src/core/binary/install.ts:191-229 | A conflict-free archive gives back every name, byte, nonzero mode and link target |
| UstarRoundTrip.RefusalEnds | src/core/binary/install.ts:143-196 | After any legal items, the first header that is refused ends the extraction with its error, whatever follows and under any chunking |
| UstarRoundTrip.BadHeaderEnds | src/core/binary/install.ts:145-165 | So an entry of another kind is a special entry, and a name with a part that leads up an unsafe path |
| UstarRoundTrip.LinkInPlace | src/core/binary/install.ts:168-186 | A link named by a dot takes the destination's own place |
| UstarRoundTrip.ZeroHeaderSplits | src/core/binary/install.ts:142 | Two ways of cutting one archive after a zero header, with different verdicts |
| UstarRoundTrip.NegativeReadsBack | src/core/binary/install.ts:92-99 | A minus sign in an octal field gives a negative number |
| UstarRoundTrip.NegativeSizeSplits | src/core/binary/install.ts:119-130 | Two ways of cutting one archive with a negative size, with different verdicts |
| Download.Downloader.DownloadAttempt | src/core/binary/download.ts:49-128 | One attempt does what the specification function does for every behaviour of server and disk |
| Download.Downloader.Receive | src/core/binary/download.ts:129-181 | The body is stored behind the part or from scratch, tag first, with the truncation check |
| Download.Downloader.DownloadVerifiedSource | src/core/binary/download.ts:183-226 | The retry loop does what its specification does |
| Download.PrefixIsNoTag | src/core/binary/download.ts:148 | A tag file cut short never holds an entity tag |
| Download.RefusedPartIsGone | src/core/binary/download.ts:101-121 | A part the server refuses to continue is not tried again |
| Download.StoreKeeps | src/core/binary/download.ts:129-181 | Storing an honest answer keeps the part a prefix of the version its tag names; what arrives is one version, whole if its length was stated |
| Download.AttemptKeeps | src/core/binary/download.ts:49-181 | The same for an attempt with any number of restarts |
| Download.NeverSpliced | src/core/binary/download.ts:183-226 | The same over any history of runs, failures, crashes and version changes: a download is never spliced |
| Download.ArrivesWhole | src/core/binary/download.ts:175-181 | After any history, a run that arrives with stated lengths has exactly one whole version |
| Download.KnownSizeIsKept | src/core/binary/download.ts:140-214 | Without stated lengths a run arrives only with as many bytes as the caller expected or a HEAD request promised, whatever the disk and the server |
| Download.KnownSizeArrivesWhole | src/core/binary/download.ts:140-214 | ... so with an honest server and a size that no version exceeds it has one whole version |
| Download.UntaggedIsSafeIff | src/core/binary/download.ts:148 | An untagged answer, however its stream ends, keeps that invariant for all servers exactly if no entity tag is left over |
| Download.SpliceWithoutTag | src/core/binary/download.ts:95-104 | A concrete history with an untagged answer that ends in a spliced file |
| ProfileCache.LastCommitHolds | src/core/archive/profile-cache.ts:105-196 | The slot of a profile holds a reference exactly if its commit is the last request that settled the slot |
| ProfileCache.Cache.PublishArchive | src/core/archive/profile-cache-files.ts:135-179 | Only a verified copy appears under its content name, nothing else changes, and it works exactly if the place is free or already right; a missing source is no storage error |
| ProfileCache.Cache.Cleanup | src/core/archive/profile-cache-files.ts:186-192 | On success only the pointer and its archive are left; other profiles are untouched |
| ProfileCache.Cache.Publish | src/core/archive/profile-cache.ts:105-139 | Wherever it stops, every pointer names an archive with its size and digest; the slot changes exactly if the pointer was written; the kind of answer is exact |
| ProfileCache.Cache.Resolve | src/core/archive/profile-cache.ts:141-186 | Hits exactly for the reference in the slot, in every state of the directory, and keeps the slot |
| ProfileCache.Cache.Remove | src/core/archive/profile-cache-files.ts:194-203 | Empties the slot; when it stops early the slot is empty or as before |
| ProfileCache.Cache.Serve | src/core/archive/profile-cache.ts:90-197 | Every sequence of publish, resolve and remove with faults is answered as by a map with one slot a profile |
| RestoreArchive.CacheSpoilsIff | src/core/coordinator/archive-cache.ts:56-107 | Without faults worse than storage errors, a cache spoils a restore that a plain download would complete in exactly two cases |
| RestoreArchive.UndroppableArchiveSpoils | src/core/coordinator/archive-cache.ts:66-77 | The first: the cached archive does not unpack and cannot be dropped |
| RestoreArchive.ForeignFileSpoils | src/core/coordinator/archive-cache.ts:100-106 | The second: another content lies under the archive's name, and no pointer |
| RestoreArchive.Restorer.TryCache | src/core/coordinator/archive-cache.ts:63-87 | What the cache contributes, exactly and for all faults: a complete restore, a failure, or the need to download; an archive that does not unpack is out of its slot before the download |
| RestoreArchive.Restorer.Refill | src/core/coordinator/archive-cache.ts:100-106 | Ends well exactly if nothing fails but the storage of the cache, and dies exactly on the end of the process; without trouble the archive is in its slot afterwards |
| RestoreArchive.Restorer.RestoreProfileArchive | src/core/coordinator/archive-cache.ts:56-107 | A success is the unpacked form of the only data with the requested identity, whatever the cache did; and for all combinations of faults, dropping, replacing and publishing included, exactly how a restore ends |
| ZipNames.CheckParts | src/core/archive/archive.ts:176-194 | The first part that is not allowed decides the error |
| ZipNames.NormalIsSafe | src/core/archive/archive.ts:158-197 | Every accepted name is a join of parts that are neither empty nor dots, end in neither dot nor blank, name no device, and have no separator, control or forbidden character |
| ZipNames.RefusedNameBreaksRule | src/core/archive/archive.ts:158-197 | A name is refused exactly if it breaks a rule, and with the error of a rule it breaks |
| ZipNames.PartErrorIs | src/core/archive/archive.ts:176-194 | What is wrong with one part: its text before a device's name |
| ZipNames.SafeIsNormal | src/core/archive/archive.ts:158-197 | Every join of safe parts is accepted unchanged |
| ZipNames.NormalIsFixed | src/core/archive/archive.ts:195-196 | Normal names are fixed points |
| ZipNames.StaysBelow | src/core/archive/archive.ts:172-175 | An accepted name leads strictly below the directory it is unpacked in |
| ZipDirectory.FindEnd | src/core/archive/archive.ts:267-274 | The scan finds the last end record, or there is none |
| ZipDirectory.HasFileParent | src/core/archive/archive.ts:353-360 | The loop over the parents finds one that is a file |
| ZipDirectory.WalkCentral | src/core/archive/archive.ts:296-385 | The walk over the headers does what its specification does |
| ZipDirectory.ReadCentralDirectory | src/core/archive/archive.ts:260-394 | Reading a directory, with all errors and limits, is its specification |
| ZipConflicts.EntriesAreWellNamed | src/core/archive/archive.ts:327-346 | Every entry that is read has a normal name and its key |
| ZipConflicts.FileParentIsAbove | src/core/archive/archive.ts:353-360 | The parent lookup finds exactly the files whose keys are above |
| ZipConflicts.AdmitIffFits | src/core/archive/archive.ts:347-369 | One more entry is admitted exactly if its key is new and it neither lies below a file nor, as a file, above one |
| ZipConflicts.AdmittedIff | src/core/archive/archive.ts:347-369 | Exactly the lists with distinct keys and no noticed clash are admitted |
| ZipConflicts.AdmittedIsSafe | src/core/archive/archive.ts:347-369 | In an admitted list keys are distinct and no file is above another file |
| ZipConflicts.FileAfterDirectory | src/core/archive/archive.ts:361-369 | A directory followed by a file above it is admitted; the other order is refused |
| ZipConflicts.SameInAnyOrder | src/core/archive/archive.ts:370-374 | Totals and distinctness do not depend on the order |
| ZipConflicts.FilesInAnyOrder | src/core/archive/archive.ts:347-392 | For files alone, admission and every limit verdict are the same in every order |
| ZipConflicts.ReadIsSafe | src/core/archive/archive.ts:260-394 | Every directory that is read has safe names, distinct keys, no noticed clash, and is within the limits |
| ZipRules.ReadIff | src/core/archive/archive.ts:260-394 | A directory is read as a list of entries if and only if the archive holds it: the last end record frames headers that follow each other to the end, whole, unencrypted, of no links, stored or deflated, with proper names, inside the archive, in no conflict and within the limits |
| ZipRules.EntryIff | src/core/archive/archive.ts:304-346 | One header is taken as an entry if and only if it describes it |
| ZipRules.EntriesAreUnpackable | src/core/archive/archive.ts:320-345 | No entry that is read is a link or otherwise compressed, and each comes from an unencrypted header whose data is in the archive |
| ZipRules.HeaderRefused | src/core/archive/archive.ts:304-346 | A header is refused exactly if it breaks a rule, and with the error of a rule it breaks |
| ZipRules.BadEntryIsRefused | src/core/archive/archive.ts:304-346 | A written directory whose first improper entry breaks a rule is refused with that error |
| ZipRules.ConflictErrors | src/core/archive/archive.ts:347-369 | A taken key is a collision, any other clash a conflict |
| ZipRules.LimitErrors | src/core/archive/archive.ts:124-156 | A list is refused for its size with the error of a limit it breaks |
| ZipRules.DisposableIff | src/core/archive/archive.ts:199-211 | What does not count is a runtime file by its very name, and the cache directories and all below them in any case |
| ZipRoundTrip.HeaderReads | src/core/archive/archive.ts:304-346 | A written header is read as its entry |
| ZipRoundTrip.WalkReads | src/core/archive/archive.ts:303-385 | Walking over written headers admits exactly their entries |
| ZipRoundTrip.EndIsFoundIff | src/core/archive/archive.ts:265-274 | The written end record is found exactly if nothing behind it looks like one |
| ZipRoundTrip.StraddlingSignature | src/core/archive/archive.ts:268-273 | A comment without a signature in it that misleads the scan |
| ZipRoundTrip.ReadingUndoesWriting | src/core/archive/archive.ts:260-394 | A written directory is read as exactly the entries written, or refused for the conflict or limit they break |
| Locks.HoldersKeepIff | src/core/locks/locks.ts:44-108 | Over all runs, in which tasks compare and delete in two steps: live holders keep their file at every moment if and only if no deletion meant for a stale file takes the file of a live holder |
| Locks.ExclusiveIff | src/core/locks/locks.ts:44-108 | Mutual exclusion is never one creation of the file away from failing, under exactly the same condition |
| Locks.MutualExclusion | src/core/locks/locks.ts:77-139 | As long as that condition holds, over all interleavings with deaths, stale reclaims and releases, at most one live task holds the lock |
| Locks.AtomicIsHarmless | src/core/locks/locks.ts:44-56 | The condition holds if nothing comes between a comparison and its deletion |
| Locks.TurnsAreHarmless | src/core/locks/locks.ts:58-75 | The condition holds if at no time two live tasks are about to delete a file they found stale |
| Locks.TakingAdmitsTwo | src/core/locks/locks.ts:88-99 | A task that took a live holder's file can hold the lock next to that holder at once |
| Locks.ReleaseTakesOwn | src/core/locks/locks.ts:97-99 | A release deletes the holder's own file and never another's |
| Locks.FirstComeFirstServed | src/core/locks/locks.ts:110-125 | In every run, a task comes to the file only after every earlier task of its process is done |
| Locks.QueueMoves | src/core/locks/locks.ts:110-125 | In every run, the first task of a process that is not done never waits for anyone |
| Locks.EndedGivesWay | src/core/locks/locks.ts:118-124 | Whoever gives up or is through lets the next task of its process go on; the last one leaves no entry behind |
| Locks.StaleLockIsReclaimed | src/core/locks/locks.ts:58-108 | A dead process's file keeps nobody out: six steps lead to the lock and to a file of one's own |
| Locks.FailureTriesAgain | src/core/locks/locks.ts:25-75 | An error on the way to a deletion leaves the file alone, and the task tries again |
| Locks.SplitUnlinkAdmitsTwo | src/core/locks/locks.ts:44-56 | From any world with a stale file and two tasks that want the lock, twelve steps lead to two holders |
| Locks.TwoHoldTheLock | src/core/locks/locks.ts:44-56 | A whole run, from no process and no file, that ends with two live holders |
| Relay.Client.AddMapping | src/core/cdp/relay.ts:191-200 | The maps stay inverse exactly if the session is not moved to a second target |
| Relay.Client.RemoveMapping | src/core/cdp/relay.ts:202-209 | The session is unmapped, no set gets empty, and the maps stay inverse exactly if its target had a name |
| Relay.Client.CancelTarget | src/core/cdp/relay.ts:228-233 | No session maps to the target any more; an input on it counts as done |
| Relay.Client.UpdateMappings | src/core/cdp/relay.ts:235-274 | Which sessions are mapped afterwards, exactly; exactly the concerned input is cancelled, which counts as success; the maps stay exact if no session is attached to a second target |
| Relay.Client.AddTombstone | src/core/cdp/relay.ts:296-312 | At most 64 tombstones are kept; the oldest is forgotten together with its id |
| Relay.Client.InternalId | src/core/cdp/relay.ts:576-582 | A new internal id is in no use |
| Relay.Client.Close | src/core/cdp/relay.ts:276-294 | Closing clears every index, cancels what the worker has and fails what waits for a reply; closing again does nothing |
| Relay.Client.HandleClientMessage | src/core/cdp/relay.ts:480-521 | An intercepted input is queued in order of arrival; a request to attach is noted; an invalid frame closes the client |
| Relay.Client.HandleUpstreamMessage | src/core/cdp/relay.ts:523-553 | Replies to internal ids are never passed on and everything else is, unchanged; the fallback's reply decides its input, well or badly; an invalid frame closes the client |
| Relay.Client.StartInput | src/core/cdp/relay.ts:389-405 | The oldest waiting input is started on the target of its session, none on a closed client |
| Relay.Client.WorkerEnds | src/core/cdp/relay.ts:408-462 | Success comes out well, failure falls back if allowed and possible, else comes out badly |
| Relay.Client.FallbackTimesOut | src/core/cdp/relay.ts:348-371 | The id is remembered as a tombstone and the input fails |
| Relay.Client.TombstoneExpires | src/core/cdp/relay.ts:299-302 | An expired tombstone and its id disappear, nothing else |
| Relay.Client.AnswerInput | src/core/cdp/relay.ts:440-478 | The operation ends with its one answer, which carries its id and session and is an error exactly if it came out badly |
| Relay.Client.Live | src/core/cdp/relay.ts:383-553 | Any sequence of frames, worker ends, timers, closings and disconnects keeps the order of answers, the agreement of every answer with how its input came out, the rules on ids and tombstones, and the session indexes; the two maps stay exactly inverse as long as no frame attaches a session to a second target |
| Relay.Client.RunTimers | src/core/cdp/relay.ts:383-478 | With timers alone every input gets exactly one answer, in order of arrival; what was decided before keeps its outcome and the rest is answered as failed |
| Wheel.Smooth | src/core/bumblebee/worker.ts:272-288 | A step's chunks add up to what is used up of it, go the right way by at most 40 pixels each, and stay within bounds on count and time, with a pause of 8 to 20 milliseconds between any two; a cap is reported exactly when it is reached, an abort as soon as it is looked for |
| Wheel.StepIsLong | src/core/bumblebee/worker.ts:291-298 | How long uncut steps are in each of the three phases, 48 pixels at least |
| Wheel.Advance | src/core/bumblebee/worker.ts:290-300 | One step of a scroll keeps its accounts, or gives up with what is left |
| Wheel.Pause | src/core/bumblebee/worker.ts:301-310 | The pause after a step, of 30 to 200 milliseconds |
| Wheel.Scroll | src/core/bumblebee/worker.ts:289-312 | The steps and pauses of a whole scroll: what is left when it ends, which cap was used up, and how many chunks, pauses, random numbers and looks for an abort it took |
| Wheel.WholeDistance | src/core/bumblebee/worker.ts:244-247 | The distance along the larger axis is the requested vector |
| Wheel.HumanizedWheel | src/core/bumblebee/worker.ts:229-314 | Unless aborted, a wheel finishes exactly if it has moved by the requested deltas; one of at most 1750 pixels finishes, one of more than 10240 does not; it gives up exactly on more than five seconds of pauses or on 256 chunks, never on steps; it goes on exactly as long as no look for an abort, one before and after each event and each pause, finds one |

## Left out

* User interface, RPC schemas, command line, updater, guides, REST and MCP clients, keychains,
  process tables and sockets: foreign calls of the modelled code are steps that may succeed, fail
  or be the last of the process.
* Migration of legacy records, the scan for secrets and the formats of strings in records.
* Time: wall-clock values appear only as "late or not" and as timers that may fire at any moment.
* SHA-256 is injective; gzip, deflate and the unpacking of verified bytes are abstract.
* RuntimePool, policies, mouse paths, and rounding of floating-point numbers.
* LifecycleLog.LicenseIsReturned: speaks of licenses that a saved record claims. A license acquired just before a crash is not in any record, and the code does not know of it afterwards.
* LifecycleLog.EffectsAreUnique: the server is assumed to carry out a key at most once; that is not code of this repository.
* Coordinator.LifecycleCoordinator.Start: one profile; run identifiers are fresh numbers instead of random ones; the options of the coordinator do not change during a history, and a license service is present whenever a record claims a license.
* Coordinator.LifecycleCoordinator.Run: operations run one at a time, as under the profile lock.
* Coordinator.LifecycleCoordinator.StartLocked: that a failed start counts its attempt is in the method, but a save that fails leaves no trace, so the contract does not tell a count that failed from none.
* Coordinator.LifecycleCoordinator.EndRunner: the process table is accurate and an identity is never given twice; a kill, a stop through a handle or the configured stop option that returns has ended its process. Only the runner process is followed, not the browser below it.
* RunnerLog.CarefulStopEndsAll: the condition on a whole history is sufficient, not necessary; for a single stop StopSparesIff is exact.
* TarRefinement.ChunksDoNotMatterIff: headers with negative sizes are outside; for them NegativeSizeSplits shows that chunks can matter.
* TarExtract.ExtractTarGz: names are byte strings; replacement of invalid UTF-8 is not modelled. Links are returned in order and not created in the file system; a write to a file succeeds.
* UstarRoundTrip.EverythingComesBack: the conflicts excluded are files on the way to other items; sparse files and extended names do not exist in this format.
* Download.NeverSpliced: one process uses the part file; a write is complete or fails; a tag file that could not be written completely holds a prefix of the tag; an answer to a range runs to the end of the version.
* Download.Downloader.DownloadAttempt: an attempt sees a finite list of answers, so the unbounded repetition on unasked partial answers is cut off where the list ends.
* Download.Downloader.DownloadVerifiedSource: the check for disk space is an input; progress reports are left out.
* ProfileCache.Cache.Serve: removals in a sequence are complete. One that stops midway can leave a pointer without its archive, which a later publication of the same reference that also stops midway brings back; a map with one slot a profile does not say that. Remove itself is proved for removals that stop midway.
* ProfileCache.Cache.Resolve: permissions and reparse points are among the errors that may occur, not modelled on their own.
* RestoreArchive.Restorer.RestoreProfileArchive: the cache is the one of this repository, in any state and with any faults, not an arbitrary object with the same interface.
* ZipNames.NormalIsFixed: case is changed character by character; lower case keeps slashes and makes no new ones.
* ZipDirectory.ReadCentralDirectory: strict UTF-8 decoding is a parameter; the compression ratio is compared exactly. As in the code, the declared entry count is not compared with the number of entries.
* ZipConflicts.FilesInAnyOrder: stated for lists of files; with directories the order matters, as FileAfterDirectory shows.
* Reading and writing of ZIP file contents, and the atomic extraction beyond replacing the work directory as a whole.
* Locks.HoldersKeepIff: one lock path; the file is created with its content in one step, so unreadable lock files and their grace period do not occur; the process probe is accurate.
* Relay.Client.HandleClientMessage: a frame is valid or not; parsing, size limits, the connection set-up, timeout parsing and the messages sent on to the browser are left out.
* Relay.Client.InternalId: internal ids are any negative numbers, not thirty random bits.
* Relay.Client.RunTimers: that a worker's late end after its timeout has no effect is built into the steps, which start from the operation under way.
* Wheel.HumanizedWheel: real numbers; the final pause and the positions of events are left out.
