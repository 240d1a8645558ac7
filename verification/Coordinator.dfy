/** The lifecycle coordinator of one profile. Its operations run one at a time under the
    profile lock; inside an operation every awaited call may succeed, fail or be the last thing
    the process does. What the outside world answers is left open. */
module Coordinator {
  import opened Outcomes
  import opened RecoveryState
  import opened LifecycleEvents
  import opened LifecycleLog
  import opened RunnerLog
  import opened OperationLog
  import opened CoordinatorInvariant

  /** The answer to a session request. */
  datatype Started = Started(session: SessionId, archive: Option<ArchiveIdentity>)

  /** What a look at the process table says about a recorded identity. */
  datatype Probe = Absent | Match | Mismatch

  class LifecycleCoordinator {
    const cfg: Config
    var disk: Option<Record>
    var log: seq<Event>
    // The memory of the process.
    var runnerHandle: Option<Identity>
    var naturallyClosed: bool
    var watched: set<Identity>
    var licenseUrl: bool
    // The world: runner processes, closes on their way to being reported, the archive file, time,
    // random numbers.
    var live: set<Identity>
    var closing: set<Identity>
    var artifact: Digest
    var reused: set<nat>  // process ids that other processes have
    var clock: nat
    var nextRun: RunId
    // What the history says.
    ghost var mon: Monitor
    ghost var track: Track

    ghost predicate Valid()
      reads this
    {
      Scan(cfg, log) == Some(mon) && Linked(cfg, disk, mon) && Trace(log) == Some(track) && Mirrored()
    }

    /** What the history says about runners is so, in the process table and in memory. */
    ghost predicate Mirrored()
      reads `live, `closing, `watched, `runnerHandle, `naturallyClosed, `clock, `disk, `track
    {
      && live == track.alive && closing == track.closing && watched == track.watched
      && runnerHandle == track.handle && naturallyClosed == track.flag
      && track.recorded == (if disk.Some? then IdentityOf(disk.value) else None)
      && forall p :: p in track.seen ==> p.startTime < clock
    }

    /** A random run identifier never repeats. */
    ghost predicate FreshRuns()
      reads this
    {
      forall r :: r in mon.used ==> r < nextRun
    }

    constructor (cfg: Config)
      ensures Valid() && FreshRuns() && this.cfg == cfg && disk == None && log == []
    {
      this.cfg := cfg;
      disk, log, mon, track, nextRun := None, [], FirstMonitor, NoRunners, 0;
      runnerHandle, naturallyClosed, watched, licenseUrl := None, false, {}, false;
      live, closing, artifact, reused, clock := {}, {}, Digest(0, 0), {}, 0;
    }

    /** The history gets one more event, which the monitor accepts. */
    twostate predicate Logged(e: Event)
      reads this
    {
      log == old(log) + [e] && Next(cfg, old(mon), e) == Some(mon)
    }

    /** An operation on the current run: the history grows, and no new run begins. */
    twostate predicate SameRuns()
      reads this
    {
      Valid() && old(log) <= log && mon.used == old(mon.used) && nextRun == old(nextRun)
    }

    /** The operation added events of these kinds only, apart from telling. */
    twostate predicate Adds(kinds: set<Kind>)
      reads this
    {
      Grows(Sum(old(log)), Sum(log), kinds)
    }

    method Emit(e: Event)
      requires Scan(cfg, log) == Some(mon) && Next(cfg, mon, e).Some?
      requires Trace(log) == Some(track) && Move(track, e).Some?
      modifies this`log, this`mon, this`track
      ensures Scan(cfg, log) == Some(mon) && Logged(e)
      ensures Trace(log) == Some(track) && track == Move(old(track), e).value
      ensures Sum(log) == Counted(Sum(old(log)), KindOf(e))
    {
      hide Next, Move, Sum;
      ScanAppend(cfg, log, e);
      TraceAppend(log, e);
      SumAppend(log, e);
      log, mon, track := log + [e], Next(cfg, mon, e).value, Move(track, e).value;
    }

    /** An event that leaves the record on disk fitting and says nothing about runners. */
    method Tell(e: Event)
      requires Valid() && disk.Some? && Plain(e) && RunOf(e) == disk.value.runId
      requires Steady(disk.value, e) && Allowed(cfg, mon.run.value, e)
      modifies this`log, this`mon, this`track
      ensures SameRuns() && Logged(e)
      ensures mon == old(mon).(run := Some(After(cfg, old(mon).run.value, e)))
      ensures Adds({KindOf(e)})
    {
      hide Fits, Allowed, After, Move, Sum;
      SteadyFits(cfg, mon, disk.value, e);
      PlainMoves(track, e);
      Emit(e);
    }

    /** An event that belongs to no run. */
    method Note(e: Event)
      requires Valid() && Ambient(e) && Move(track, e).Some?
      modifies this`log, this`mon, this`track
      ensures Scan(cfg, log) == Some(mon) && mon == old(mon) && log == old(log) + [e]
      ensures Trace(log) == Some(track) && track == Move(old(track), e).value
      ensures Adds({})
    {
      hide Fits, Next, Move, Mirrored, Sum;
      NextAmbient(cfg, mon, e);
      Emit(e);
    }

    // ---------- Runner processes ----------

    /** A live runner ends, by itself or not; only a watched one that closed normally will be
        reported. */
    method End(p: Identity, normal: bool)
      requires Valid() && p in live
      modifies this`log, this`mon, this`track, this`live, this`watched, this`closing
      ensures SameRuns() && mon == old(mon) && live == old(live) - {p} && track.asked == old(track).asked
      ensures watched <= old(watched) && closing <= old(closing) + old(watched) * {p}
      ensures Adds({})
    {
      hide Fits, Next, Scan, Trace, Sum;
      Note(RunnerEnded(p, normal));
      closing := if normal && p in watched then closing + {p} else closing;
      live, watched := live - {p}, watched - {p};
    }

    /** Runners end by themselves, and closes get reported, at any moment. */
    method Meanwhile()
      requires Valid()
      modifies this`log, this`mon, this`track, this`live, this`watched, this`closing, this`naturallyClosed
      ensures SameRuns() && mon == old(mon) && live <= old(live)
      ensures naturallyClosed ==> old(naturallyClosed) || old(closing) + (old(watched) - live) != {}
      ensures Adds({})
    {
      hide Fits, Scan, Next, Trace, Move, Mirrored, Sum;
      var rest := live;
      while rest != {}
        invariant SameRuns() && mon == old(mon) && rest <= live <= old(live)
        invariant watched <= old(watched) && closing <= old(closing) + (old(watched) - live)
        invariant naturallyClosed == old(naturallyClosed) && Adds({})
        decreases |rest|
      {
        var p :| p in rest;
        rest := rest - {p};
        if * {
          var normal: bool := *;
          End(p, normal);
        }
      }
      rest := closing;
      while rest != {}
        invariant SameRuns() && mon == old(mon) && live <= old(live) && rest <= closing && Adds({})
        invariant closing <= old(closing) + (old(watched) - live)
        invariant naturallyClosed ==> old(naturallyClosed) || old(closing) + (old(watched) - live) != {}
        decreases |rest|
      {
        var p :| p in rest;
        rest := rest - {p};
        if * { Report(p); }
      }
    }

    /** The natural close of a runner is noted. */
    method Report(p: Identity)
      requires Valid() && p in closing
      modifies this`log, this`mon, this`track, this`closing, this`naturallyClosed
      ensures SameRuns() && mon == old(mon) && naturallyClosed && closing == old(closing) - {p}
      ensures Adds({})
    {
      hide Fits, Next, Scan, Trace, Sum;
      Note(CloseReported(p));
      closing, naturallyClosed := closing - {p}, true;
    }

    /** The process table does not confuse runners, nor a runner with another process. */
    method Ask(p: Identity) returns (actual: Probe)
      ensures actual == if p in live then Match else if p.pid in reused then Mismatch else Absent
    {
      actual := if p in live then Match else if p.pid in reused then Mismatch else Absent;
    }

    /** A runner is told to stop, or killed; it may also end by itself just then. */
    method Kill(p: Identity) returns (o: Outcome<()>)
      requires Valid()
      modifies this`log, this`mon, this`track, this`live, this`watched, this`closing
      ensures SameRuns() && mon == old(mon) && !o.Rejected? && track.asked == old(track).asked
      ensures if o.Ok? then live == old(live) - {p} else old(live) - {p} <= live <= old(live)
      ensures Adds({})
    {
      hide Fits, Scan, Next, Trace, Move, Sum;
      if * { return Failed; }
      if * { return Crashed; }
      if p in live {
        var normal: bool := *;
        End(p, normal);
      }
      if * { return Failed; }
      if * { return Crashed; }
      return Ok(());
    }

    /** A new process, which has never been there before. */
    method Spawn(state: Record) returns (p: Identity)
      requires Valid() && disk == Some(state) && state.archiveArtifact.None? && state.status.SpawnIntent?
      requires state.remoteSession.Some?
      modifies this`log, this`mon, this`track, this`live, this`clock
      ensures SameRuns() && live == old(live) + {p} && Logged(RunnerSpawned(state.runId, p))
      ensures mon == old(mon).(run := Some(old(mon).run.value.(stopReturned := false)))
      ensures Adds({Starting})
    {
      hide Fits, ValidRecord, Next, Scan, Trace, Move, Sum;
      FitsView(cfg, mon, state);
      var pid: nat, hash: nat := *, *;
      p := Identity(pid, clock, hash);
      assert p !in track.seen;
      SpawnAllowed(cfg, mon, state, p);
      SpawnMoves(track, state.runId, p);
      Emit(RunnerSpawned(state.runId, p));
      live, clock := live + {p}, clock + 1;
    }

    // ---------- The recovery store ----------

    method Load() returns (o: Outcome<Option<Record>>)
      ensures !o.Rejected? && (o.Ok? ==> o.value == disk)
    {
      if * { return Failed; }
      if * { return Crashed; }
      return Ok(disk);
    }

    /** A save that does not return normally may or may not have replaced the record. */
    method Save(r: Record) returns (o: Outcome<()>)
      requires Valid() && (ValidRecord(r) ==> CanSave(cfg, mon, r))
      modifies this`disk, this`log, this`mon, this`track
      ensures Valid() && (o.Rejected? <==> !ValidRecord(r))
      ensures || (Logged(Saved(r)) && disk == Some(r))
              || (!o.Ok? && log == old(log) && mon == old(mon) && disk == old(disk))
      ensures ValidRecord(r) ==> CanSave(cfg, mon, r)
      ensures old(log) <= log
      ensures old(mon).run.Some? && old(mon).run.value.id == r.runId
              ==> (mon == old(mon) && !o.Ok?) || mon == old(mon).(run := Some(SavedView(old(mon).run.value, r)))
      ensures Adds({KindOf(Saved(r))})
    {
      hide Fits, ValidRecord, Next, Scan, Trace, Move, AfterSave, Sum;
      if !ValidRecord(r) { return Rejected; }
      if * { return Failed; }
      if * { return Crashed; }
      SavedFits(cfg, mon, r);
      NextSaved(cfg, mon, r);
      SaveMoves(track, Saved(r));
      SavedIs(cfg, mon, r);
      Emit(Saved(r));
      disk := Some(r);
      if * { return Failed; }
      if * { return Crashed; }
      return Ok(());
    }

    /** A save that continues the current run. */
    method Proceed(r: Record) returns (o: Outcome<()>)
      requires Valid() && Continues(cfg, mon, r)
      modifies this`disk, this`log, this`mon, this`track
      ensures SameRuns() && !o.Rejected? && Continues(cfg, mon, r)
      ensures disk == Some(r) || (disk == old(disk) && !o.Ok?)
      ensures o.Ok? ==> mon == old(mon).(run := Some(SavedView(old(mon).run.value, r)))
      ensures Adds({KindOf(Saved(r))})
    {
      hide Fits, AfterSave, Scan, Next, Trace, Move, Mirrored, Sum;
      o := Save(r);
    }

    // ---------- Calls into the outside world ----------

    /** Any awaited call that leaves no trace in the history: directories, file removal, the
        profile lookup, the binary, the archive restore, the upload grant, the runtime stop. */
    method Await() returns (o: Outcome<()>)
      ensures !o.Rejected?
    {
      if * { return Failed; }
      if * { return Crashed; }
      return Ok(());
    }

    method DigestFile() returns (o: Outcome<Digest>)
      ensures !o.Rejected? && (o.Ok? ==> o.value == artifact)
    {
      if * { return Failed; }
      if * { return Crashed; }
      return Ok(artifact);
    }

    method StartSession(state: Record) returns (o: Outcome<Started>)
      requires Valid() && disk == Some(state) && Startable(state.status)
      modifies this`log, this`mon, this`track
      ensures SameRuns() && !o.Rejected? && Valid() && mon.run.Some? && mon.run.value.asked
      ensures o.Ok? ==> mon.run.value.base.offered == Some((o.value.session, o.value.archive))
                        && Heard(old(log), log, StartAnswered(state.runId, o.value.session, o.value.archive))
      ensures Adds({Starting})
    {
      hide Fits, Scan, Next, Trace, Move, Mirrored, Sum, ValidRecord, Allowed;
      FitsView(cfg, mon, state);
      assert Allowed(cfg, mon.run.value, StartCall(state.runId, state.startKey)) by { StartIsAllowed(cfg, mon, state); }
      Tell(StartCall(state.runId, state.startKey));
      if * { return Failed; }
      if * { return Crashed; }
      var started: Started := *;
      assert Allowed(cfg, mon.run.value, StartAnswered(state.runId, started.session, started.archive)) by {
        AnswerIsAllowed(cfg, mon.run.value, state.runId, started.session, started.archive);
      }
      Tell(StartAnswered(state.runId, started.session, started.archive));
      assert log[|log| - 1] == StartAnswered(state.runId, started.session, started.archive);
      return Ok(started);
    }

    /** The archive that the session came with is laid into the work directory. */
    method Restore(state: Record) returns (o: Outcome<()>)
      requires Valid() && disk == Some(state) && Startable(state.status) && state.archive.Some?
      modifies this`log, this`mon, this`track
      ensures SameRuns() && !o.Rejected?
      ensures o.Ok? ==> mon == old(mon).(run := Some(old(mon).run.value.(
                                 base := old(mon).run.value.base.(restored := state.archive))))
      ensures Adds({Starting})
      ensures o.Ok? ==> Heard(old(log), log, Restored(state.runId, state.archive.value))
    {
      hide Fits, Scan, Next, Trace, Move, Mirrored, Sum;
      FitsView(cfg, mon, state);
      if * { return Failed; }
      if * { return Crashed; }
      Tell(Restored(state.runId, state.archive.value));
      assert log[|log| - 1] == Restored(state.runId, state.archive.value);
      return Ok(());
    }

    method SessionStatus(state: Record, session: SessionId) returns (o: Outcome<Session>)
      requires Valid() && disk == Some(state) && state.remoteSession == Some(session)
      modifies this`log, this`mon, this`track
      ensures SameRuns() && !o.Rejected?
      ensures o.Ok? ==> Logged(StatusAnswered(state.runId, o.value))
      ensures o.Ok? && StoppedReport(cfg, session, o.value) ==>
                && mon.run.Some? && mon.run.value.stopped
                && (o.value.generation.Some? ==> mon.run.value.committed == o.value.generation)
      ensures Adds({})
    {
      hide Fits, Scan, Next, Trace, Move, Mirrored, Sum;
      FitsView(cfg, mon, state);
      if * { return Failed; }
      if * { return Crashed; }
      var answer: Session := *;
      Tell(StatusAnswered(state.runId, answer));
      return Ok(answer);
    }

    /** A stop request that carries an archive. */
    method CommitSession(state: Record, session: SessionId, p: CommitPayload, key: Key) returns (o: Outcome<Session>)
      requires Valid() && disk == Some(state) && state.status.UploadPending? && state.remoteSession == Some(session)
      requires state.stopPayload == Some(ArchivePayload(p)) && state.stopKey == Some(key)
      modifies this`log, this`mon, this`track
      ensures SameRuns() && !o.Rejected?
      ensures o.Ok? && CommittedAnswer(cfg, session, o.value)
              ==> mon.run.Some? && mon.run.value.stopped && mon.run.value.committed == o.value.generation
      ensures Adds({Carrying})
      ensures o.Ok? ==> Heard(old(log), log, CommitAnswered(state.runId, o.value))
    {
      hide Fits, Scan, Next, Trace, Move, Mirrored, Sum;
      PendingAllows(cfg, mon, state);
      FitsView(cfg, mon, state);
      Tell(CommitCall(state.runId, session, p, key));
      if * { return Failed; }
      if * { return Crashed; }
      var answer: Session := *;
      Tell(CommitAnswered(state.runId, answer));
      assert log[|log| - 1] == CommitAnswered(state.runId, answer);
      return Ok(answer);
    }

    /** A stop request without an archive. */
    method RollbackSession(state: Record, session: SessionId) returns (o: Outcome<Session>)
      requires Valid() && disk == Some(state) && Startable(state.status) && state.remoteSession == Some(session)
      requires mon.run.Some? && mon.run.value.stopReturned && !mon.run.value.licensed
      modifies this`log, this`mon, this`track
      ensures SameRuns() && !o.Rejected?
      ensures o.Ok? && StoppedAnswer(cfg, session, o.value)
              ==> mon == old(mon).(run := Some(old(mon).run.value.(stopped := true)))
      ensures Adds({Rolling})
      ensures o.Ok? ==> Heard(old(log), log, RollbackAnswered(state.runId, o.value))
      ensures o.Ok? ==> Heard(old(log), log, RollbackCall(state.runId, session, RollbackKey(state.runId)))
    {
      hide Fits, Scan, Next, Trace, Move, Mirrored, Sum;
      FitsView(cfg, mon, state);
      Tell(RollbackCall(state.runId, session, RollbackKey(state.runId)));
      assert log[|log| - 1] == RollbackCall(state.runId, session, RollbackKey(state.runId));
      if * { return Failed; }
      if * { return Crashed; }
      var answer: Session := *;
      Tell(RollbackAnswered(state.runId, answer));
      assert log[|log| - 1] == RollbackAnswered(state.runId, answer);
      return Ok(answer);
    }

    method ForceStopSession(state: Record, session: SessionId, key: Key) returns (o: Outcome<Session>)
      requires Valid() && disk == Some(state) && state.status.ForceStop? && state.remoteSession == Some(session)
      requires state.stopKey == Some(key)
      requires mon.run.Some? && mon.run.value.stopReturned && !mon.run.value.licensed
      modifies this`log, this`mon, this`track
      ensures SameRuns() && !o.Rejected?
      ensures o.Ok? && StoppedAnswer(cfg, session, o.value)
              ==> mon == old(mon).(run := Some(old(mon).run.value.(stopped := true)))
      ensures Adds({Forcing})
      ensures o.Ok? ==> Heard(old(log), log, ForceAnswered(state.runId, o.value))
      ensures o.Ok? ==> Heard(old(log), log, ForceCall(state.runId, session, key))
    {
      hide Fits, Scan, Next, Trace, Move, Mirrored, Sum;
      FitsView(cfg, mon, state);
      Tell(ForceCall(state.runId, session, key));
      assert log[|log| - 1] == ForceCall(state.runId, session, key);
      if * { return Failed; }
      if * { return Crashed; }
      var answer: Session := *;
      Tell(ForceAnswered(state.runId, answer));
      assert log[|log| - 1] == ForceAnswered(state.runId, answer);
      return Ok(answer);
    }

    /** The archive file may exist even when its creation is reported as failed. */
    method CreateArchive(state: Record) returns (o: Outcome<Digest>)
      requires Valid() && disk == Some(state) && state.status.ArchiveReady? && state.archiveArtifact.None?
      requires mon.run.Some? && mon.run.value.stopReturned && !mon.run.value.licensed
      modifies this`log, this`mon, this`track, this`artifact
      ensures SameRuns() && !o.Rejected?
      ensures o.Ok? ==> mon == old(mon).(run := Some(old(mon).run.value.(archived := Some(o.value))))
      ensures Adds({Carrying})
      ensures o.Ok? ==> artifact == o.value
    {
      hide Fits, Scan, Next, Trace, Move, Mirrored, Sum;
      FitsView(cfg, mon, state);
      if * { return Failed; }
      if * { return Crashed; }
      var digest: Digest := *;
      Tell(ArchiveCreated(state.runId, digest));
      artifact := digest;
      if * { return Failed; }
      if * { return Crashed; }
      return Ok(digest);
    }

    method DirectUpload(state: Record, digest: Digest) returns (o: Outcome<StorageId>)
      requires Valid() && disk == Some(state) && state.status.UploadAmbiguous?
      requires mon.run.Some? && mon.run.value.archived == Some(digest) && !mon.run.value.uploaded
      requires mon.run.value.stopReturned && !mon.run.value.licensed
      modifies this`log, this`mon, this`track
      ensures SameRuns() && !o.Rejected? && Logged(UploadCall(state.runId, digest))
      ensures mon == old(mon).(run := Some(old(mon).run.value.(uploaded := true)))
      ensures Adds({Carrying})
    {
      hide Fits, Scan, Next, Trace, Move, Mirrored, Sum;
      FitsView(cfg, mon, state);
      Tell(UploadCall(state.runId, digest));
      var storageId: StorageId := *;
      if * { return Failed; }
      if * { return Crashed; }
      return Ok(storageId);
    }

    // ---------- Teardown ----------

    /** Stopping goes one way: it takes back a reported close, or it ends the runner at hand, or
        the one in the record, unless another process has its id. The recorded runner is gone afterwards exactly if it was gone
        before, or no close was reported and no other runner is at hand. */
    method EndRunner(state: Record) returns (o: Outcome<Way>)
      requires Valid() && disk == Some(state)
      modifies this`log, this`mon, this`track
      modifies this`live, this`watched, this`closing, this`naturallyClosed, this`runnerHandle
      ensures SameRuns() && mon == old(mon) && !o.Rejected?
      ensures o.Ok? ==> live == old(live) - Goal(o.value) && track.asked == Some(o.value)
                        && o.value == WayOf(old(track))
      ensures live <= old(live)
      ensures old(naturallyClosed) ==> o.Ok? && live == old(live) && !naturallyClosed && runnerHandle.None?
      ensures o.Ok? && IdentityOf(state).Some? ==>
                var p := IdentityOf(state).value;
                p !in live <==> p !in old(live)
                                || (!old(naturallyClosed) && (old(runnerHandle).None? || old(runnerHandle) == Some(p)))
      ensures Adds({})
      ensures o.Ok? && Target(o.value).Some? && (o.value.ByHandle? || !cfg.stopRunner) ==>
                Target(o.value).value in old(live) || Target(o.value).value.pid !in reused
    {
      hide Fits, Next, Scan, Trace, Sum, ValidRecord;
      var way := if naturallyClosed then ByClose
                 else if runnerHandle.Some? then ByHandle(runnerHandle.value) else ByRecord(IdentityOf(state));
      Note(StopAsked(way));
      match way {
        case ByClose =>
          naturallyClosed, runnerHandle := false, None;
        case ByHandle(p) =>
          var _ :- EndIdentified(p, true);
        case ByRecord(Some(p)) =>
          var _ :- EndIdentified(p, !cfg.stopRunner);
        case ByRecord(None) =>
          if cfg.stopRunner { var _ :- Await(); }
      }
      return Ok(way);
    }

    /** One runner is ended. Where the process table is asked first, another process that has its
        id is an error. */
    method EndIdentified(p: Identity, asks: bool) returns (o: Outcome<()>)
      requires Valid()
      modifies this`log, this`mon, this`track, this`live, this`watched, this`closing
      ensures SameRuns() && mon == old(mon) && !o.Rejected? && live <= old(live) && track.asked == old(track).asked
      ensures o.Ok? ==> live == old(live) - {p} && (asks ==> p in old(live) || p.pid !in reused)
      ensures Adds({})
    {
      hide Fits, Next, Scan, Trace, Move, Mirrored, Sum;
      if asks {
        var actual := Ask(p);
        if actual.Mismatch? { return Failed; }
        if actual.Absent? { return Ok(()); }
      }
      o := Kill(p);
    }

    /** The runners that a way of stopping ends. */
    function Goal(way: Way): set<Identity> {
      if Target(way).Some? then {Target(way).value} else {}
    }

    /** Stopping returns. Runners may end, and closes be reported, before and after. The recorded
        runner is gone if no close was reported or on its way before, no other runner was at
        hand, and nobody else's close could be reported. */
    method StopRunner(state: Record) returns (o: Outcome<()>)
      requires Valid() && disk == Some(state)
      modifies this`log, this`mon, this`track
      modifies this`live, this`watched, this`closing, this`naturallyClosed, this`runnerHandle
      ensures SameRuns() && !o.Rejected? && live <= old(live)
      ensures o.Ok? ==> mon == old(mon).(run := Some(old(mon).run.value.(stopReturned := true)))
      ensures o.Ok? && IdentityOf(state).Some? && !old(naturallyClosed) && old(closing) == {} ==>
                var p := IdentityOf(state).value;
                old(watched) <= {p} && (old(runnerHandle).None? || old(runnerHandle) == Some(p)) ==> p !in live
      ensures Adds({})
    {
      hide Fits, Mirrored, Scan, Trace, Next, Move, Sum;
      Meanwhile();
      var way :- EndRunner(state);
      Return(state, way);
      Meanwhile();
      return Ok(());
    }

    method Return(state: Record, way: Way)
      requires Valid() && disk == Some(state) && track.asked == Some(way) && live !! Goal(way)
      modifies this`log, this`mon, this`track, this`runnerHandle
      ensures SameRuns() && mon == old(mon).(run := Some(old(mon).run.value.(stopReturned := true)))
      ensures Adds({})
    {
      hide Fits, Next, Scan, Trace, Allowed, After, Sum;
      StopAllowed(cfg, mon, state);
      Emit(StopReturned(state.runId));
      if way.ByHandle? { runnerHandle := None; }
    }

    /** Runtime, runner and license, in this order. */
    method TearDown(state: Record) returns (o: Outcome<()>)
      requires Valid() && disk == Some(state)
      modifies this`log, this`mon, this`track, this`licenseUrl
      modifies this`live, this`watched, this`closing, this`naturallyClosed, this`runnerHandle
      ensures SameRuns() && !o.Rejected?
      ensures o.Ok? ==> mon == old(mon).(run := Some(old(mon).run.value.(stopReturned := true, licensed := false)))
      ensures o.Ok? && IdentityOf(state).Some? && !old(naturallyClosed) && old(closing) == {} ==>
                var p := IdentityOf(state).value;
                old(watched) <= {p} && (old(runnerHandle).None? || old(runnerHandle) == Some(p)) ==> p !in live
      ensures Adds({})
      ensures o.Ok? && state.licenseAcquired ==> !licenseUrl
      ensures live <= old(live)
    {
      hide Fits, Scan, Next, Trace, Move, Mirrored, Sum;
      FitsView(cfg, mon, state);
      var _ :- Await();
      var _ :- StopRunner(state);
      if * { return Crashed; }
      if state.licenseAcquired {
        var _ :- Await();
        Tell(LicenseReleased(state.runId));
        licenseUrl := false;
        if * { return Crashed; }
      }
      return Ok(());
    }

    /** The files of the run and then its record disappear. */
    method CleanupLocked(state: Record) returns (o: Outcome<()>)
      requires Valid() && disk == Some(state) && mon.run.Some?
      requires mon.run.value.stopReturned && !mon.run.value.licensed && mon.run.value.stopped
      modifies this`disk, this`log, this`mon, this`track
      ensures SameRuns() && !o.Rejected?
      ensures o.Ok? ==> disk == None && Logged(Removed(state.runId))
      ensures disk == Some(state) || disk == None
      ensures Adds({})
    {
      hide Fits, Sum;
      FitsView(cfg, mon, state);
      var _ :- Await();
      if * { return Failed; }
      if * { return Crashed; }
      RemoveRecord(state);
      if * { return Crashed; }
      return Ok(());
    }

    method RemoveRecord(state: Record)
      requires Valid() && disk == Some(state) && mon.run.Some?
      requires mon.run.value.stopReturned && !mon.run.value.licensed && mon.run.value.stopped
      modifies this`disk, this`log, this`mon, this`track
      ensures SameRuns() && disk == None && Logged(Removed(state.runId))
      ensures Adds({})
    {
      hide Fits, Scan, Trace, Move, Sum;
      FitsView(cfg, mon, state);
      SaveMoves(track, Removed(state.runId));
      Emit(Removed(state.runId));
      disk := None;
    }

    // ---------- Stop ----------

    method PublishArchive(state: Record, generation: nat, digest: Digest) returns (o: Outcome<()>)
      requires Valid() && disk == Some(state) && state.status.UploadPending? && mon.run.Some? && cfg.archiveCache
      requires mon.run.value.committed == Some(generation) && mon.run.value.archived == Some(digest)
      modifies this`log, this`mon, this`track
      ensures SameRuns() && !o.Rejected?
      ensures o.Ok? ==> mon == old(mon).(run := Some(old(mon).run.value.(published := true)))
      ensures Adds({Carrying})
    {
      hide Fits, Scan, Next, Trace, Move, Mirrored, Sum;
      FitsView(cfg, mon, state);
      if * { return Failed; }
      if * { return Crashed; }
      Tell(CachePublished(state.runId, generation, digest));
      if * { return Failed; }
      return Ok(());
    }

    /** The digest the record was uploaded with. */
    ghost function PersistedDigest(state: Record): Digest {
      if state.stopPayload.Some? && state.stopPayload.value.ArchivePayload? then state.stopPayload.value.archive.digest
      else Digest(0, 0)
    }

    /** The committed upload becomes the local truth: cache first, then the record is done. */
    method AdoptCommittedUploadLocked(state: Record, remote: Session) returns (o: Outcome<Session>)
      requires Valid() && disk == Some(state) && state.status.UploadPending? && mon.run.Some?
      requires mon.run.value.stopped && (remote.generation.Some? ==> mon.run.value.committed == remote.generation)
      modifies this`disk, this`log, this`mon, this`track
      ensures SameRuns() && !o.Rejected?
      ensures o.Ok? ==> disk == None && o.value == remote && remote.generation.Some?
      ensures Adds({Carrying, Saving})
      ensures artifact != PersistedDigest(state) ==> log == old(log) && !o.Ok?
    {
      hide Fits, Continues, Scan, Next, AfterSave, CanSave, ValidRecord, Trace, Move, Mirrored, Sum;
      PendingAllows(cfg, mon, state);
      FitsView(cfg, mon, state);
      if remote.generation.None? { return Failed; }
      var digest :- DigestFile();
      if digest != state.stopPayload.value.archive.digest { return Failed; }
      if cfg.archiveCache {
        var _ :- PublishArchive(state, remote.generation.value, digest);
      }
      if * { return Crashed; }
      var _ :- FinishLocked(state);
      return Ok(remote);
    }

    method FinishLocked(state: Record) returns (o: Outcome<()>)
      requires Valid() && disk == Some(state) && state.status.UploadPending? && mon.run.Some?
      requires mon.run.value.committed.Some? && mon.run.value.stopped && (cfg.archiveCache ==> mon.run.value.published)
      modifies this`disk, this`log, this`mon, this`track
      ensures SameRuns() && !o.Rejected?
      ensures o.Ok? ==> disk == None
      ensures Adds({Saving})
    {
      hide Fits, Continues, Scan, Next, AfterSave, CanSave, ValidRecord, Trace, Move, Mirrored, Sum;
      PendingAllows(cfg, mon, state);
      DoneContinues(cfg, mon, state);
      var done := state.(status := Done);
      var _ :- Proceed(done);
      FitsView(cfg, mon, done);
      o := CleanupLocked(done);
    }

    /** A persisted upload is committed again under its persisted key. */
    method CommitPendingLocked(state: Record) returns (o: Outcome<Session>)
      requires Valid() && disk == Some(state) && state.status.UploadPending?
      modifies this`disk, this`log, this`mon, this`track
      ensures SameRuns() && !o.Rejected?
      ensures o.Ok? ==> disk == None && CommittedAnswer(cfg, state.remoteSession.value, o.value)
      ensures Adds({Carrying, Saving})
      ensures o.Ok? ==> Heard(old(log), log, CommitAnswered(state.runId, o.value))
      ensures artifact != PersistedDigest(state) ==> log == old(log) && !o.Ok?
    {
      hide Fits, Scan, Next, Trace, Move, Mirrored, Sum;
      PendingAllows(cfg, mon, state);
      var p := state.stopPayload.value.archive;
      var digest :- DigestFile();
      if digest != p.digest { return Failed; }
      var result :- CommitSession(state, state.remoteSession.value, p, state.stopKey.value);
      if !CommittedAnswer(cfg, state.remoteSession.value, result) { return Failed; }
      if * { return Crashed; }
      o := AdoptCommittedUploadLocked(state, result);
    }

    /** Runner and license go, then the one archive of the run is created. */
    method ArchiveLocked(input: Record) returns (o: Outcome<Record>)
      requires Valid() && disk == Some(input) && input.remoteSession.Some?
      requires Startable(input.status) || input.status.Running? || input.status.ArchiveReady?
      modifies this
      ensures SameRuns() && !o.Rejected?
      ensures o.Ok? ==> disk == Some(o.value) && o.value.status.ArchiveReady? && o.value.archiveArtifact.Some?
                        && o.value.remoteSession == input.remoteSession && o.value.runId == input.runId
      ensures Adds({Carrying, Saving})
      ensures live <= old(live)
    {
      hide Fits, Continues, Scan, Next, Trace, Move, Mirrored, Sum;
      ReadyContinues(cfg, mon, input);
      FitsView(cfg, mon, input);
      var state := input.(status := ArchiveReady);
      var _ :- Proceed(state);
      if * { return Crashed; }
      var _ :- TearDown(state);
      TornDownContinues(cfg, mon, state, ArchiveReady);
      state := Cleared(state);
      var _ :- Proceed(state);
      var _ :- Await();
      if state.archiveArtifact.None? {
        o := CreateOnce(state);
      } else {
        o := Ok(state);
      }
    }

    method CreateOnce(input: Record) returns (o: Outcome<Record>)
      requires Valid() && disk == Some(input) && input.status.ArchiveReady? && input.archiveArtifact.None?
      requires mon.run.Some? && mon.run.value.stopReturned && !mon.run.value.licensed && !input.licenseAcquired
      modifies this`disk, this`log, this`mon, this`track, this`artifact
      ensures SameRuns() && !o.Rejected?
      ensures o.Ok? ==> disk == Some(o.value) && o.value.status.ArchiveReady? && o.value.archiveArtifact.Some?
                        && o.value.remoteSession == input.remoteSession && o.value.runId == input.runId
      ensures Adds({Carrying, Saving})
    {
      hide Fits, Continues, Scan, Next, Trace, Move, Mirrored, Sum;
      FitsView(cfg, mon, input);
      var digest :- CreateArchive(input);
      var generation := if input.archive.Some? then input.archive.value.generation else 0;
      ArchivedContinues(cfg, mon, input, digest, generation);
      var state := input.(archiveArtifact := Some(input.runId), archive := Some(ArchiveIdentity(generation, digest)));
      var _ :- Proceed(state);
      return Ok(state);
    }

    /** The archive leaves the machine once: the record turns ambiguous before the upload and
        pending, with the payload and its key, before the commit. */
    method UploadLocked(input: Record) returns (o: Outcome<Session>)
      requires Valid() && disk == Some(input) && input.status.ArchiveReady? && input.archiveArtifact.Some?
      modifies this`disk, this`log, this`mon, this`track
      ensures SameRuns() && !o.Rejected?
      ensures o.Ok? ==> disk == None && input.remoteSession.Some?
                        && CommittedAnswer(cfg, input.remoteSession.value, o.value)
      ensures Adds({Carrying, Saving})
      ensures o.Ok? ==> Heard(old(log), log, CommitAnswered(input.runId, o.value))
    {
      hide Fits, Continues, Scan, Next, Trace, Move, Mirrored, Sum;
      var state := input;
      FitsView(cfg, mon, state);
      var digest :- DigestFile();
      if state.archive.None? || digest != state.archive.value.digest { return Failed; }
      var _ :- Await();
      AmbiguousContinues(cfg, mon, state);
      state := state.(status := UploadAmbiguous);
      var _ :- Proceed(state);
      FitsView(cfg, mon, state);
      var uploaded := DirectUpload(state, digest);
      if uploaded.Failed? {
        AmbiguousContinues(cfg, mon, state);
        var _ :- Proceed(state);
        return Failed;
      }
      var storageId :- uploaded;
      o := CommitUploaded(state, CommitPayload(storageId, digest));
    }

    /** The uploaded archive is committed under a key that is on disk first. */
    method CommitUploaded(input: Record, p: CommitPayload) returns (o: Outcome<Session>)
      requires Valid() && disk == Some(input) && input.status.UploadAmbiguous? && input.archive.Some?
      requires p.digest == input.archive.value.digest && mon.run.Some? && mon.run.value.uploaded
      modifies this`disk, this`log, this`mon, this`track
      ensures SameRuns() && !o.Rejected?
      ensures o.Ok? ==> disk == None && input.remoteSession.Some?
                        && CommittedAnswer(cfg, input.remoteSession.value, o.value)
      ensures Adds({Carrying, Saving})
      ensures o.Ok? ==> Heard(old(log), log, CommitAnswered(input.runId, o.value))
    {
      hide Fits, Continues, Scan, Next, Trace, Move, Mirrored, Sum;
      var state := input;
      FitsView(cfg, mon, state);
      PendingContinues(cfg, mon, state, p);
      var stopKey := state.stopKey.GetOr(StopKey(state.runId, p));
      state := state.(stopKey := Some(stopKey), stopPayload := Some(ArchivePayload(p)),
                      uploadedStorageId := Some(p.storageId), status := UploadPending);
      var _ :- Proceed(state);
      if * { return Crashed; }
      var result :- CommitSession(state, state.remoteSession.value, p, stopKey);
      if !CommittedAnswer(cfg, state.remoteSession.value, result) { return Failed; }
      if * { return Crashed; }
      o := AdoptCommittedUploadLocked(state, result);
    }

    method StopLocked(input: Record) returns (o: Outcome<Session>)
      requires Valid() && disk == Some(input) && !input.status.UploadAmbiguous?
      modifies this
      ensures SameRuns() && !o.Rejected?
      ensures o.Ok? ==> disk == None && !input.status.Done? && !input.status.ForceStop?
                        && input.remoteSession.Some? && CommittedAnswer(cfg, input.remoteSession.value, o.value)
      ensures Adds(if input.status.ForceStop? || input.status.Done? then {} else {Carrying, Saving})
      ensures o.Ok? ==> Heard(old(log), log, CommitAnswered(input.runId, o.value))
      ensures live <= old(live)
    {
      hide Fits, Scan, Next, Trace, Move, Mirrored, Sum;
      FitsView(cfg, mon, input);
      if input.remoteSession.None? { return Failed; }
      if input.stopPayload == Some(ForcePayload) { return Failed; }
      if input.status.Done? { return Failed; }
      if input.status.UploadPending? {
        o := CommitPendingLocked(input);
      } else {
        var state :- ArchiveLocked(input);
        o := UploadLocked(state);
      }
    }

    // ---------- Reconciliation and force stop ----------

    /** What reconciling a record with the server and the process table may involve. */
    function Settling(status: Status): set<Kind> {
      match status
      case ForceStop => {Forcing}
      case Running | UploadPending => {Carrying, Saving}
      case _ => {Saving}
    }

    /** The server already reports the session as stopped; only local state is left. */
    method CleanupRemoteStoppedLocked(state: Record, remote: Session) returns (o: Outcome<Session>)
      requires Valid() && disk == Some(state) && state.remoteSession.Some? && mon.run.Some?
      requires mon.run.value.stopped && (remote.generation.Some? ==> mon.run.value.committed == remote.generation)
      modifies this
      ensures SameRuns() && !o.Rejected?
      ensures o.Ok? ==> disk == None && o.value == remote
      ensures Adds(Settling(state.status))
    {
      hide Fits, Continues, Scan, Next, Allowed, After, AfterSave, CanSave, Cleared, Trace, Move, Mirrored, Sum;
      if state.status.UploadPending? {
        o := AdoptCommittedUploadLocked(state, remote);
      } else {
        var _ :- CleanupTornDown(state);
        o := Ok(remote);
      }
    }

    /** Runner and license go, and then the record. */
    method CleanupTornDown(state: Record) returns (o: Outcome<()>)
      requires Valid() && disk == Some(state) && state.remoteSession.Some? && !state.status.UploadPending?
      requires mon.run.Some? && mon.run.value.stopped
      modifies this
      ensures SameRuns() && !o.Rejected?
      ensures o.Ok? ==> disk == None
      ensures Adds(if state.status.ForceStop? then {Forcing} else {Saving})
    {
      hide Fits, Continues, Scan, Next, Allowed, After, AfterSave, CanSave, Cleared, Trace, Move, Mirrored, Sum;
      var _ :- TearDown(state);
      var status := if state.status.Running? then ArchiveMaterialized else state.status;
      TornDownContinues(cfg, mon, state, status);
      FitsView(cfg, mon, state);
      var cleared := Cleared(state).(status := status);
      var _ :- Proceed(cleared);
      o := CleanupLocked(cleared);
    }

    /** The server's word on the session, when there is one to ask about and it says stopped. */
    method RemoteStopped(state: Record) returns (o: Outcome<Option<Session>>)
      requires Valid() && disk == Some(state)
      modifies this`log, this`mon, this`track
      ensures SameRuns() && !o.Rejected?
      ensures o.Ok? && o.value.Some? ==>
                && state.remoteSession.Some? && StoppedReport(cfg, state.remoteSession.value, o.value.value)
                && mon.run.Some? && mon.run.value.stopped
                && (o.value.value.generation.Some? ==> mon.run.value.committed == o.value.value.generation)
      ensures Adds({})
      ensures o.Ok? && o.value.Some? ==> Heard(old(log), log, StatusAnswered(state.runId, o.value.value))
      ensures o.Ok? && state.remoteSession.Some? && cfg.sessionStatus ==> Consulted(cfg, state, old(log), log, o.value.Some?)
      ensures state.remoteSession.None? || !cfg.sessionStatus ==> log == old(log) && (o.Ok? ==> o.value.None?)
    {
      hide Fits, Scan, Next, Trace, Move, Mirrored, Sum;
      FitsView(cfg, mon, state);
      if state.remoteSession.None? || !cfg.sessionStatus { return Ok(None); }
      var session := state.remoteSession.value;
      var remote :- SessionStatus(state, session);
      assert log[|log| - 1] == StatusAnswered(state.runId, remote);
      if remote.id != session || remote.profile != cfg.profile { return Failed; }
      return Ok(if remote.stateStopped || remote.statusStopped then Some(remote) else None);
    }

    method ForceStopLocked(state: Record) returns (o: Outcome<Session>)
      requires Valid() && disk == Some(state) && state.status.ForceStop? && state.remoteSession.Some?
      modifies this
      ensures SameRuns() && !o.Rejected?
      ensures o.Ok? ==> disk == None && StoppedReport(cfg, state.remoteSession.value, o.value)
      ensures Adds({Forcing})
      ensures o.Ok? ==> || Heard(old(log), log, StatusAnswered(state.runId, o.value))
                        || (Heard(old(log), log, ForceAnswered(state.runId, o.value))
                            && Heard(old(log), log, ForceCall(state.runId, o.value.id, ForceKey(state.runId)))
                            && StoppedAnswer(cfg, state.remoteSession.value, o.value))
      ensures o.Ok? && cfg.sessionStatus ==> Consulted(cfg, state, old(log), log, true) || Consulted(cfg, state, old(log), log, false)
    {
      hide Fits, Continues, Scan, Next, Allowed, After, AfterSave, CanSave, Cleared, Trace, Move, Mirrored, Sum, Heard, Consulted;
      var remote :- RemoteStopped(state);
      ghost var asked := log;
      if remote.Some? {
        o := CleanupRemoteStoppedLocked(state, remote.value);
        HeardWithin(old(log), old(log), asked, log, StatusAnswered(state.runId, remote.value));
        if cfg.sessionStatus { ConsultedWithin(cfg, state, old(log), asked, log, true); }
        return;
      }
      o := ForceStopHere(state);
      if o.Ok? {
        HeardWithin(old(log), asked, log, log, ForceAnswered(state.runId, o.value));
        HeardWithin(old(log), asked, log, log, ForceCall(state.runId, o.value.id, ForceKey(state.runId)));
        if cfg.sessionStatus { ConsultedWithin(cfg, state, old(log), asked, log, false); }
      }
    }

    /** Runner and license go, then the session. */
    method ForceStopHere(state: Record) returns (o: Outcome<Session>)
      requires Valid() && disk == Some(state) && state.status.ForceStop? && state.remoteSession.Some?
      modifies this
      ensures SameRuns() && !o.Rejected?
      ensures o.Ok? ==> disk == None && StoppedAnswer(cfg, state.remoteSession.value, o.value)
      ensures Adds({Forcing})
      ensures o.Ok? ==> && Heard(old(log), log, ForceAnswered(state.runId, o.value))
                        && Heard(old(log), log, ForceCall(state.runId, o.value.id, ForceKey(state.runId)))
    {
      hide Fits, Continues, Scan, Next, Allowed, After, AfterSave, CanSave, Cleared, Trace, Move, Mirrored, Sum, Heard;
      FitsView(cfg, mon, state);
      var _ :- TearDown(state);
      TornDownContinues(cfg, mon, state, ForceStop);
      var cleared := Cleared(state);
      var _ :- Proceed(cleared);
      ghost var between := log;
      o := ForceStopCleared(cleared);
      if o.Ok? {
        HeardWithin(old(log), between, log, log, ForceAnswered(state.runId, o.value));
        HeardWithin(old(log), between, log, log, ForceCall(state.runId, o.value.id, ForceKey(state.runId)));
      }
    }

    /** With runner and license gone the server is told, and the record goes. */
    method ForceStopCleared(state: Record) returns (o: Outcome<Session>)
      requires Valid() && disk == Some(state) && state.status.ForceStop? && state.remoteSession.Some?
      requires mon.run.Some? && mon.run.value.stopReturned && !mon.run.value.licensed
      modifies this`disk, this`log, this`mon, this`track
      ensures SameRuns() && !o.Rejected?
      ensures o.Ok? ==> disk == None && StoppedAnswer(cfg, state.remoteSession.value, o.value)
      ensures Adds({Forcing})
      ensures o.Ok? ==> Heard(old(log), log, ForceAnswered(state.runId, o.value))
      ensures o.Ok? ==> Heard(old(log), log, ForceCall(state.runId, o.value.id, ForceKey(state.runId)))
    {
      hide Fits, Scan, Next, Trace, Move, Mirrored, Sum;
      FitsView(cfg, mon, state);
      var session := state.remoteSession.value;
      var result :- ForceStopSession(state, session, state.stopKey.value);
      if !StoppedAnswer(cfg, session, result) { return Failed; }
      var _ :- CleanupLocked(state);
      return Ok(result);
    }

    /** A session in the result means that the record is gone; none means it is untouched. */
    method ReconcileLocked(state: Record) returns (o: Outcome<Option<Session>>)
      requires Valid() && disk == Some(state)
      modifies this
      ensures SameRuns() && !o.Rejected?
      ensures o.Ok? ==> if o.value.Some? then disk == None && state.remoteSession.Some?
                             && StoppedReport(cfg, state.remoteSession.value, o.value.value)
                        else disk == Some(state)
      ensures Adds(Settling(state.status)) && (o.Ok? && o.value.None? ==> Adds({}))
      ensures o.Ok? && o.value.Some? ==> Settled(cfg, state, old(log), log, o.value.value)
      ensures o.Ok? && state.remoteSession.Some? && cfg.sessionStatus ==>
                Consulted(cfg, state, old(log), log, false) || (o.value.Some? && Consulted(cfg, state, old(log), log, true))
      ensures o.Ok? && o.value.None? && state.status.Running? && IdentityOf(state).Some? ==>
                runnerHandle.Some? || IdentityOf(state).value in live
      // Without the server's word only a browser that is gone is stopped, and whose id nobody else has.
      ensures o.Ok? && o.value.Some? ==>
                || Heard(old(log), log, StatusAnswered(state.runId, o.value.value))
                || (state.status.Running? && old(runnerHandle).None? && IdentityOf(state).Some?
                    && IdentityOf(state).value !in live
                    && (IdentityOf(state).value in old(live) || IdentityOf(state).value.pid !in old(reused)))
    {
      hide Fits, Continues, Scan, Next, Trace, Move, Mirrored, Sum, Heard, Consulted;
      FitsView(cfg, mon, state);
      var remote :- RemoteStopped(state);
      ghost var between := log;
      if remote.Some? {
        var cleaned :- CleanupRemoteStoppedLocked(state, remote.value);
        HeardWithin(old(log), old(log), between, log, StatusAnswered(state.runId, remote.value));
        if cfg.sessionStatus { ConsultedWithin(cfg, state, old(log), between, log, true); }
        return Ok(Some(cleaned));
      }
      if state.status.Running? && runnerHandle.None? && IdentityOf(state).Some? {
        Meanwhile();
        if cfg.sessionStatus { ConsultedWithin(cfg, state, old(log), between, log, false); }
        between := log;
        var actual := Ask(IdentityOf(state).value);
        if actual.Match? { return Ok(None); }
        if actual.Mismatch? { return Failed; }
        var stopped :- StopClosed(state);
        if cfg.sessionStatus { ConsultedWithin(cfg, state, old(log), between, log, false); }
        HeardWithin(old(log), between, log, log, CommitAnswered(state.runId, stopped));
        return Ok(Some(stopped));
      }
      return Ok(None);
    }

    /** The record of a running browser that is found closed. */
    method StopClosed(state: Record) returns (o: Outcome<Session>)
      requires Valid() && disk == Some(state) && state.status.Running?
      modifies this
      ensures SameRuns() && !o.Rejected?
      ensures o.Ok? ==> disk == None && state.remoteSession.Some?
                        && CommittedAnswer(cfg, state.remoteSession.value, o.value)
      ensures Adds({Carrying, Saving})
      ensures o.Ok? ==> Heard(old(log), log, CommitAnswered(state.runId, o.value))
      ensures live <= old(live)
    {
      hide Fits, Continues, Scan, Next, Trace, Move, Mirrored, Sum, Heard;
      ClosedContinues(cfg, mon, state);
      var next := WithoutRunner(state).(status := ArchiveMaterialized);
      var _ :- Proceed(next);
      ghost var between := log;
      o := StopLocked(next);
      if o.Ok? {
        HeardWithin(old(log), between, log, log, CommitAnswered(state.runId, o.value));
      }
    }

    // ---------- Start ----------

    /** The runner is spawned, identifies itself and reports ready. */
    method LaunchRunner(input: Record) returns (o: Outcome<Record>, state: Record)
      requires Valid() && disk == Some(input) && input.status.SpawnIntent? && input.runnerPid.None?
      modifies this
      ensures SameRuns() && !o.Rejected?
      ensures o.Ok? ==> disk == Some(o.value) && o.value.status.Running? && o.value.runId == input.runId
      ensures o.Failed? ==> Continues(cfg, mon, state) && !state.status.ForceStop?
      ensures o.Ok? ==> IdentityOf(o.value).Some? && runnerHandle == IdentityOf(o.value)
                        && live <= old(live) + {IdentityOf(o.value).value}
      ensures Adds({Starting, Saving})
    {
      hide Fits, Scan, Next, AfterSave, CanSave, Trace, Move, Mirrored, Sum;
      state := input;
      FitsView(cfg, mon, state);
      LaunchContinues(cfg, mon, state, state);
      if * { return Failed, state; }
      var p := Spawn(state);
      LaunchContinues(cfg, mon, state, state);
      if * { return Crashed, state; }
      if * {
        var _ := Kill(p);
        return Failed, state;
      }
      LaunchContinues(cfg, mon, state, WithRunner(state, p));
      state := WithRunner(state, p);
      var saved := Proceed(state);
      if saved.Crashed? { return Crashed, state; }
      if saved.Failed? {
        var _ := Kill(p);
        return Failed, state;
      }
      o, state := ReadyRunner(state, p);
    }

    method Ready(p: Identity)
      requires Valid() && p in live
      modifies this`log, this`mon, this`track, this`runnerHandle, this`watched
      ensures SameRuns() && mon == old(mon) && runnerHandle == Some(p)
      ensures Adds({})
    {
      hide Fits, Next, Scan, Trace, Sum;
      Note(RunnerReady(p));
      runnerHandle, watched := Some(p), watched + {p};
    }

    /** The runner reports ready, or is killed for not doing so. */
    method ReadyRunner(input: Record, p: Identity) returns (o: Outcome<Record>, state: Record)
      requires Valid() && disk == Some(input) && input.status.SpawnIntent? && IdentityOf(input) == Some(p)
      modifies this
      ensures SameRuns() && !o.Rejected?
      ensures o.Ok? ==> disk == Some(o.value) && o.value.status.Running? && o.value.runId == input.runId
      ensures o.Failed? ==> Continues(cfg, mon, state) && !state.status.ForceStop?
      ensures live <= old(live)
      ensures o.Ok? ==> IdentityOf(o.value) == Some(p) && runnerHandle == Some(p)
      ensures Adds({Saving})
    {
      hide Fits, Scan, Next, AfterSave, CanSave, Trace, Move, Mirrored, Sum;
      state := input;
      FitsView(cfg, mon, state);
      LaunchContinues(cfg, mon, state, state);
      Meanwhile();
      if * { return Crashed, state; }
      var ready: bool := *;
      if !ready || p !in live {
        var _ := Kill(p);
        return Failed, state;
      }
      Ready(p);
      var url: Option<nat> := *;
      var running := state.(browserLaunched := true, relayCdpUrl := url, status := Running);
      LaunchContinues(cfg, mon, state, running);
      state := running;
      var _ :- Proceed(state);
      if * { return Crashed, state; }
      return Ok(state), state;
    }

    /** Everything a start does once the license question is settled. When it fails, the record
        in hand can still be saved. */
    method StartSteps(initial: Record) returns (o: Outcome<Record>, state: Record)
      requires Valid() && disk == Some(initial) && Startable(initial.status)
      modifies this
      ensures SameRuns() && !o.Rejected?
      ensures o.Ok? ==> disk == Some(o.value) && o.value.status.Running? && o.value.runId == initial.runId
      ensures o.Failed? ==> Continues(cfg, mon, state) && !state.status.ForceStop?
      ensures Adds({Starting, Saving})
      ensures o.Ok? && initial.remoteSession.Some? && cfg.sessionLaunchSpec ==>
                exists archive :: Heard(old(log), log, StartAnswered(initial.runId, initial.remoteSession.value, archive))
    {
      hide Fits, Scan, Next, Continues, Trace, Move, Mirrored, Sum;
      state := initial;
      StillContinues(cfg, mon, state);
      if state.remoteSession.None? {
        var started := StartSession(state);
        StillContinues(cfg, mon, state);
        if !started.Ok? { return started.PropagateFailure(), state; }
        SessionContinues(cfg, mon, state, started.value.session, started.value.archive);
        state := state.(remoteSession := Some(started.value.session), archive := started.value.archive,
                        status := RemoteActive);
        var _ :- Proceed(state);
        if * { return Crashed, state; }
      } else if cfg.sessionLaunchSpec {
        var replayed := StartSession(state);
        StillContinues(cfg, mon, state);
        if !replayed.Ok? { return replayed.PropagateFailure(), state; }
        if Some(replayed.value.session) != state.remoteSession { return Failed, state; }
      }
      ghost var asked := log;
      o, state := MaterializeAndLaunch(state);
      if initial.remoteSession.Some? && cfg.sessionLaunchSpec && o.Ok? {
        ghost var archive :| Heard(old(log), asked, StartAnswered(initial.runId, initial.remoteSession.value, archive));
        HeardWithin(old(log), old(log), asked, log, StartAnswered(initial.runId, initial.remoteSession.value, archive));
      }
    }

    method MaterializeAndLaunch(input: Record) returns (o: Outcome<Record>, state: Record)
      requires Valid() && disk == Some(input) && Startable(input.status) && input.remoteSession.Some?
      modifies this
      ensures SameRuns() && !o.Rejected?
      ensures o.Ok? ==> disk == Some(o.value) && o.value.status.Running? && o.value.runId == input.runId
      ensures o.Failed? ==> Continues(cfg, mon, state) && !state.status.ForceStop?
      ensures Adds({Starting, Saving})
    {
      hide Fits, Scan, Next, Continues, Trace, Move, Mirrored, Sum, Heard;
      var ready: Outcome<()>;
      ready, state := Materialize(input);
      if !ready.Ok? { return ready.PropagateFailure(), state; }
      FitsView(cfg, mon, state);
      StillContinues(cfg, mon, state);
      var _ :- Await();
      var intent := state.(launchFile := Some(state.runId), status := SpawnIntent);
      LaunchContinues(cfg, mon, state, intent);
      state := intent;
      var _ :- Proceed(state);
      o, state := ForgetAndLaunch(state);
    }

    /** The work directory gets the archive that the session came with, once. */
    method Materialize(input: Record) returns (o: Outcome<()>, state: Record)
      requires Valid() && disk == Some(input) && Startable(input.status) && input.remoteSession.Some?
      modifies this`disk, this`log, this`mon, this`track
      ensures SameRuns() && !o.Rejected?
      ensures o.Ok? ==> disk == Some(state) && state.status.ArchiveMaterialized? && state.archiveMaterialized
                        && state.runId == input.runId && state.remoteSession == input.remoteSession
      ensures o.Failed? ==> Continues(cfg, mon, state) && !state.status.ForceStop?
      ensures Adds({Starting, Saving})
      ensures o.Ok? && input.archive.Some? && !input.archiveMaterialized ==>
                Heard(old(log), log, Restored(input.runId, input.archive.value))
      ensures input.archive.None? || input.archiveMaterialized ==> Adds({Saving})
    {
      hide Fits, Scan, Next, Continues, Trace, Move, Mirrored, Sum, Heard;
      state := input;
      FitsView(cfg, mon, state);
      StillContinues(cfg, mon, state);
      var _ :- Await();
      if state.archive.None? && cfg.archiveCache { var _ :- Await(); }
      var restored := RestoreOnce(state);
      StillContinues(cfg, mon, state);
      if !restored.Ok? { return restored.PropagateFailure(), state; }
      ghost var between := log;
      var _ :- Await();
      var saved: Outcome<()>;
      saved, state := NoteLaid(state);
      if !saved.Ok? { return saved.PropagateFailure(), state; }
      if input.archive.Some? && !input.archiveMaterialized {
        HeardWithin(old(log), old(log), between, log, Restored(input.runId, input.archive.value));
      }
      return Ok(()), state;
    }

    /** The record says that the work directory is ready. */
    method NoteLaid(input: Record) returns (o: Outcome<()>, state: Record)
      requires Valid() && disk == Some(input) && Startable(input.status) && input.remoteSession.Some? && mon.run.Some?
      requires input.archiveMaterialized || input.archive.None? || mon.run.value.base.restored == input.archive
      modifies this`disk, this`log, this`mon, this`track
      ensures SameRuns() && !o.Rejected? && Continues(cfg, mon, state)
      ensures state == input.(archiveMaterialized := true, status := ArchiveMaterialized)
      ensures o.Ok? ==> disk == Some(state)
      ensures Adds({Saving})
    {
      hide Fits, Scan, Next, Continues, Trace, Move, Mirrored, Sum;
      FitsView(cfg, mon, input);
      state := input.(archiveMaterialized := true, status := ArchiveMaterialized);
      LaunchContinues(cfg, mon, input, state);
      o := Proceed(state);
      if * { o := Crashed; }
    }

    /** The archive is restored if there is one and it was not before. */
    method RestoreOnce(state: Record) returns (o: Outcome<()>)
      requires Valid() && disk == Some(state) && Startable(state.status)
      modifies this`log, this`mon, this`track
      ensures SameRuns() && !o.Rejected?
      ensures o.Ok? ==> && mon.run.Some?
                        && (state.archiveMaterialized || state.archive.None? || mon.run.value.base.restored == state.archive)
      ensures o.Ok? && state.archive.Some? && !state.archiveMaterialized ==>
                Heard(old(log), log, Restored(state.runId, state.archive.value))
      ensures Adds(if state.archive.None? || state.archiveMaterialized then {} else {Starting})
    {
      hide Fits, Scan, Next, Trace, Move, Mirrored, Sum, Heard;
      FitsView(cfg, mon, state);
      if state.archive.Some? && !state.archiveMaterialized {
        o := Restore(state);
      } else {
        o := Ok(());
      }
    }

    /** A runner of an earlier attempt is killed and forgotten before another is spawned. */
    method ForgetAndLaunch(input: Record) returns (o: Outcome<Record>, state: Record)
      requires Valid() && disk == Some(input) && input.status.SpawnIntent?
      modifies this
      ensures SameRuns() && !o.Rejected?
      ensures o.Ok? ==> disk == Some(o.value) && o.value.status.Running? && o.value.runId == input.runId
      ensures o.Failed? ==> Continues(cfg, mon, state) && !state.status.ForceStop?
      ensures o.Ok? ==> runnerHandle == IdentityOf(o.value)
      ensures o.Ok? && IdentityOf(input).Some? && IdentityOf(input) != IdentityOf(o.value) ==>
                IdentityOf(input).value !in live
      ensures Adds({Starting, Saving})
    {
      hide Fits, Scan, Next, Continues, Trace, Move, Mirrored, Sum;
      state := input;
      FitsView(cfg, mon, state);
      StillContinues(cfg, mon, state);
      if state.runnerPid.Some? {
        var _ :- KillRecorded(state);
        var forgotten := state.(runnerPid := None, runnerStartTime := None, runnerCmdlineHash := None);
        LaunchContinues(cfg, mon, state, forgotten);
        state := forgotten;
        var _ :- Proceed(state);
      }
      o, state := LaunchRunner(state);
    }

    /** The runner of an earlier attempt is killed, unless it is gone already. */
    method KillRecorded(state: Record) returns (o: Outcome<()>)
      requires Valid() && IdentityOf(state).Some?
      modifies this`log, this`mon, this`track, this`live, this`watched, this`closing, this`naturallyClosed
      ensures SameRuns() && mon == old(mon) && !o.Rejected? && live <= old(live)
      ensures o.Ok? ==> IdentityOf(state).value !in live
      ensures Adds({})
      ensures o.Failed? ==> IdentityOf(state).value in live || IdentityOf(state).value.pid in reused
    {
      hide Fits, Scan, Next, Trace, Move, Mirrored, Sum;
      var p := IdentityOf(state).value;
      Meanwhile();
      o := Kill(p);
      if o.Failed? {
        var actual := Ask(p);
        if actual.Absent? { return Ok(()); }
      }
    }

    /** The license is acquired unless the process has it, and the record claims it. */
    method TakeLicense(initial: Record) returns (o: Outcome<Record>)
      requires Valid() && disk == Some(initial) && Startable(initial.status)
      modifies this`disk, this`log, this`mon, this`track, this`licenseUrl
      ensures SameRuns() && !o.Rejected?
      ensures o.Ok? ==> disk == Some(o.value) && Startable(o.value.status) && o.value.runId == initial.runId
      ensures o.Ok? ==> (cfg.licenseKey ==> licenseUrl && o.value.licenseAcquired)
      ensures Adds({Starting, Saving})
      ensures old(licenseUrl) || !cfg.licenseKey ==> Adds({Saving})
    {
      hide Fits, Scan, Next, Continues, Trace, Move, Mirrored, Sum;
      var state := initial;
      FitsView(cfg, mon, state);
      if cfg.licenseKey && !licenseUrl {
        Tell(LicenseAcquired(state.runId));
        if * { return Failed; }
        if * { return Crashed; }
        licenseUrl := true;
      }
      if !state.licenseAcquired {
        LicensedContinues(cfg, mon, state, cfg.licenseKey);
        state := state.(licenseAcquired := cfg.licenseKey, status := License);
        var _ :- Proceed(state);
        if * { return Crashed; }
      }
      return Ok(state);
    }

    method StartLocked(initial: Record) returns (o: Outcome<Record>)
      requires Valid() && disk == Some(initial) && Startable(initial.status)
      modifies this
      ensures SameRuns() && !o.Rejected?
      ensures o.Ok? ==> disk == Some(o.value) && o.value.status.Running? && o.value.runId == initial.runId
      ensures Adds({Starting, Saving})
    {
      hide Fits, Scan, Next, Continues, Trace, Move, Mirrored, Sum;
      var _ :- Await();
      var state :- TakeLicense(initial);
      o, state := StartSteps(state);
      if o.Failed? {
        RetriedContinues(cfg, mon, state);
        var _ :- Proceed(Retried(state));
      }
    }

    // ---------- The operations ----------

    /** No run has begun, if there are no more runs than before. */
    twostate lemma NoneBegan()
      requires old(Valid()) && old(FreshRuns()) && SameRuns()
      ensures !Begins(old(log), log, old(nextRun))
    {
      hide Next, Scan, Fits, Trace, Mirrored;
      forall i | |old(log)| <= i < |log| && log[i].Saved?
        ensures log[i].record.runId != old(nextRun)
      {
        SavedIsUsed(cfg, log, i);
      }
    }

    /** The record is gone, and it did not vanish by itself. */
    twostate lemma WasRemoved()
      requires old(Valid()) && SameRuns() && old(disk).Some? && disk.None?
      ensures Heard(old(log), log, Removed(old(disk).value.runId))
    {
      hide Next, Scan, Trace, Mirrored, ValidRecord;
      StaysOrRemoved(cfg, old(log), log);
    }

    /** The run on disk is a used one, and its record was not removed. */
    twostate lemma StillThere(before: seq<Event>)
      requires Valid() && disk.Some?
      ensures !Heard(before, log, Removed(disk.value.runId)) && disk.value.runId in mon.used
    {
      hide Next, Scan, Trace, Mirrored, Fits;
      FitsView(cfg, mon, disk.value);
      forall i | 0 <= i < |log|
        ensures log[i] != Removed(disk.value.runId)
      {
        PastIsRemembered(cfg, log, i);
      }
    }

    /** A start that returns leaves a running record. A run that is running is left alone, one
        whose start was interrupted goes on, and another one begins exactly if there was none,
        if the one on disk was removed, or if its record is past running. */
    method Start() returns (o: Outcome<Record>)
      requires Valid() && FreshRuns()
      modifies this
      ensures Valid() && FreshRuns() && old(log) <= log && !o.Rejected?
      ensures o.Ok? ==> disk == Some(o.value) && o.value.status.Running?
      ensures o.Ok? ==> (old(disk).Some? && o.value.runId == old(disk).value.runId) || o.value.runId == old(nextRun)
      ensures Adds({Starting, Saving} + (if old(disk).Some? then Settling(old(disk).value.status) else {}))
      ensures Begins(old(log), log, old(nextRun)) ==> GivesWay(old(disk), old(log), log)
      ensures o.Ok? ==> (o.value.runId == old(nextRun) <==> GivesWay(old(disk), old(log), log))
      ensures o.Ok? && old(disk).Some? && old(disk).value.status.Running? && o.value.runId == old(disk).value.runId ==>
                disk == old(disk) && Adds({})
      ensures o.Ok? && !GivesWay(old(disk), old(log), log) && old(disk).value.remoteSession.Some? && cfg.sessionStatus ==>
                Consulted(cfg, old(disk).value, old(log), log, false)
      ensures o.Ok? && !GivesWay(old(disk), old(log), log) && old(disk).value.status.Running? && IdentityOf(o.value).Some? ==>
                runnerHandle.Some? || IdentityOf(o.value).value in live
      ensures o.Ok? && old(disk).Some? && old(disk).value.status.Done? ==> Heard(old(log), log, Removed(old(disk).value.runId))
    {
      hide Fits, Scan, Next, AfterSave, CanSave, Trace, Move, Mirrored, Sum, Begins, GivesWay;
      if disk.Some? { FitsView(cfg, mon, disk.value); }
      var resumed := Resume();
      NoneBegan();
      if !resumed.Ok? { return resumed.PropagateFailure(); }
      if resumed.value.Some? { return Ok(resumed.value.value); }
      ghost var between := log;
      if old(disk).Some? && old(disk).value.status.Done? { WasRemoved(); }
      o := StartNewRun();
      WayIsGiven(old(disk), old(log), between, log);
      if old(disk).Some? && old(disk).value.status.Done? {
        HeardWithin(old(log), old(log), between, log, Removed(old(disk).value.runId));
      }
    }

    /** What a start finds: a running record, which it may have brought there, or none to go on
        with. */
    method Resume() returns (o: Outcome<Option<Record>>)
      requires Valid() && FreshRuns()
      modifies this
      ensures SameRuns() && !o.Rejected?
      ensures Adds({Starting, Saving} + (if old(disk).Some? then Settling(old(disk).value.status) else {}))
      ensures o.Ok? && o.value.Some? ==>
                && disk == o.value && o.value.value.status.Running?
                && old(disk).Some? && o.value.value.runId == old(disk).value.runId && o.value.value.runId != nextRun
                && !GivesWay(old(disk), old(log), log)
                && (old(disk).value.status.Running? ==> disk == old(disk) && Adds({}))
      ensures o.Ok? && o.value.None? ==> GivesWay(old(disk), old(log), log)
      ensures o.Ok? && o.value.Some? && old(disk).value.remoteSession.Some? && cfg.sessionStatus ==>
                Consulted(cfg, old(disk).value, old(log), log, false)
      ensures o.Ok? && o.value.Some? && old(disk).value.status.Running? && IdentityOf(o.value.value).Some? ==>
                runnerHandle.Some? || IdentityOf(o.value.value).value in live
      ensures old(disk).Some? && old(disk).value.status.Done? ==> Adds({}) && (o.Ok? ==> o.value.None? && disk.None?)
    {
      hide Fits, Scan, Next, AfterSave, CanSave, Trace, Move, Mirrored, Sum, Heard, Consulted;
      var state :- Load();
      if state.Some? && !state.value.status.Done? {
        var _ :- ReconcileLocked(state.value);
        ghost var asked := log;
        state :- Load();
        if state.None? { WasRemoved(); }
        if state.Some? && state.value.status.Running? {
          StillThere(old(log));
          return Ok(state);
        }
        if state.Some? && state.value.status.UploadAmbiguous? { return Failed; }
        if state.Some? && Startable(state.value.status) {
          ghost var found := state.value;
          var started :- StartLocked(state.value);
          if found.remoteSession.Some? && cfg.sessionStatus { ConsultedWithin(cfg, found, old(log), asked, log, false); }
          StillThere(old(log));
          return Ok(Some(started));
        }
      }
      if state.Some? && state.value.status.Done? {
        FitsView(cfg, mon, state.value);
        var _ :- CleanupLocked(state.value);
      }
      return Ok(None);
    }

    method StartNewRun() returns (o: Outcome<Record>)
      requires Valid() && FreshRuns()
      modifies this
      ensures Valid() && FreshRuns() && old(log) <= log && !o.Rejected?
      ensures o.Ok? ==> disk == Some(o.value) && o.value.status.Running? && o.value.runId == old(nextRun)
      ensures Adds({Starting, Saving})
    {
      hide Fits, CanSave, Scan, Trace, Move, Mirrored, Sum;
      var run := nextRun;
      ScanSane(cfg, log);
      NewRunCanSave(cfg, mon, run);
      nextRun := nextRun + 1;
      var _ :- Save(NewRecord(run));
      if * { return Crashed; }
      o := StartLocked(NewRecord(run));
    }

    method Stop() returns (o: Outcome<Session>)
      requires Valid()
      modifies this
      ensures SameRuns() && !o.Rejected?
      ensures o.Ok? ==> disk == None && old(disk).Some? && old(disk).value.remoteSession.Some?
                        && StoppedReport(cfg, old(disk).value.remoteSession.value, o.value)
      ensures Adds(if old(disk).Some? && old(disk).value.status.ForceStop? then {Forcing} else {Carrying, Saving})
      ensures o.Ok? ==> Settled(cfg, old(disk).value, old(log), log, o.value)
      ensures o.Ok? && cfg.sessionStatus ==> || Consulted(cfg, old(disk).value, old(log), log, true)
                                             || Consulted(cfg, old(disk).value, old(log), log, false)
    {
      hide Fits, Scan, Next, Trace, Move, Mirrored, Sum;
      var state :- Load();
      if state.None? { return Failed; }
      var reconciled :- ReconcileLocked(state.value);
      if reconciled.Some? { return Ok(reconciled.value); }
      var current :- Load();
      if current.value.remoteSession.None? { return Failed; }
      if current.value.status.UploadAmbiguous? { return Failed; }
      o := StopLocked(current.value);
    }

    method ForceStopProfile() returns (o: Outcome<Session>)
      requires Valid()
      modifies this
      ensures SameRuns() && !o.Rejected?
      ensures o.Ok? ==> disk == None && old(disk).Some? && old(disk).value.remoteSession.Some?
                        && StoppedReport(cfg, old(disk).value.remoteSession.value, o.value)
      ensures Adds({Forcing})
      ensures o.Ok? ==> || Heard(old(log), log, StatusAnswered(old(disk).value.runId, o.value))
                        || (Heard(old(log), log, ForceAnswered(old(disk).value.runId, o.value))
                            && Heard(old(log), log,
                                     ForceCall(old(disk).value.runId, o.value.id, ForceKey(old(disk).value.runId)))
                            && Confirmed(cfg, old(disk).value, o.value))
      ensures o.Ok? && cfg.sessionStatus ==> || Consulted(cfg, old(disk).value, old(log), log, true)
                                             || Consulted(cfg, old(disk).value, old(log), log, false)
    {
      hide Fits, Continues, Scan, Next, Trace, Move, Mirrored, Sum;
      var loaded :- Load();
      if loaded.None? { return Failed; }
      var current := loaded.value;
      if current.remoteSession.None? { return Failed; }
      if !current.status.ForceStop? {
        ForcedContinues(cfg, mon, current);
        current := current.(stopKey := Some(ForceKey(current.runId)), stopPayload := Some(ForcePayload),
                            status := ForceStop);
        var _ :- Proceed(current);
        if * { return Crashed; }
      }
      o := ForceStopLocked(current);
    }

    method RollbackStart() returns (o: Outcome<Session>)
      requires Valid()
      modifies this
      ensures SameRuns() && !o.Rejected?
      ensures o.Ok? ==> && disk == None && old(disk).Some? && old(disk).value.remoteSession.Some?
                        && StoppedAnswer(cfg, old(disk).value.remoteSession.value, o.value)
                        && old(disk).value.status in {RemoteActive, ArchiveMaterialized, SpawnIntent}
      ensures Adds({Rolling})
      ensures o.Ok? ==> Heard(old(log), log, RollbackAnswered(old(disk).value.runId, o.value))
                        && Confirmed(cfg, old(disk).value, o.value)
      ensures o.Ok? ==> Heard(old(log), log, RollbackCall(old(disk).value.runId, o.value.id, RollbackKey(old(disk).value.runId)))
    {
      hide Fits, Scan, Next, Trace, Move, Mirrored, Sum, Heard;
      var loaded :- Load();
      if loaded.None? { return Failed; }
      var state := loaded.value;
      if state.remoteSession.None? { return Failed; }
      if state.status !in {RemoteActive, ArchiveMaterialized, SpawnIntent} { return Failed; }
      var _ :- TearDown(state);
      ghost var before := log;
      var result :- RollbackSession(state, state.remoteSession.value);
      ghost var between := log;
      if !StoppedAnswer(cfg, state.remoteSession.value, result) { return Failed; }
      var _ :- CleanupLocked(state);
      HeardWithin(old(log), before, between, log, RollbackAnswered(state.runId, result));
      HeardWithin(old(log), before, between, log, RollbackCall(state.runId, result.id, RollbackKey(state.runId)));
      return Ok(result);
    }

    /** Recovery that begins in time ends at rest: no record, or one that is running, done or
        waiting for its user to resolve an upload. Late recovery only counts the attempt. */
    method Recover(lateOnEntry: bool, lateOnExit: bool) returns (o: Outcome<Option<Record>>)
      requires Valid() && (lateOnEntry ==> lateOnExit)
      modifies this
      ensures SameRuns() && !o.Rejected?
      ensures o.Ok? && !lateOnEntry ==>
                disk.None? || disk.value.status in {Running, Done, UploadAmbiguous}
      ensures o.Ok? && lateOnEntry && old(disk).Some? ==> disk == Some(Retried(old(disk).value))
      ensures o.Ok? && o.value.Some? ==> disk == o.value || (lateOnExit && disk == Some(Retried(o.value.value)))
      ensures o.Ok? && o.value.None? ==> disk.None? || disk.value.status.Done?
      ensures Adds(if old(disk).None? then {}
                   else if lateOnEntry then {KindOf(Saved(old(disk).value))} else Recovering(old(disk).value.status))
      // A startable record runs under its own run; others are returned as they were.
      ensures o.Ok? && !lateOnEntry && o.value.Some? ==>
                && old(disk).Some?
                && if Startable(old(disk).value.status)
                   then o.value.value.status.Running? && o.value.value.runId == old(disk).value.runId
                   else o.value == old(disk)
      // Whatever is gone was settled with the server.
      ensures o.Ok? && !lateOnEntry && old(disk).Some? && o.value.None? && !old(disk).value.status.Done? ==>
                && disk.None? && Heard(old(log), log, Removed(old(disk).value.runId))
                && (Startable(old(disk).value.status) ==>
                      exists answer :: Settled(cfg, old(disk).value, old(log), log, answer))
      ensures o.Ok? && !lateOnEntry && o.value.Some? && old(disk).value.remoteSession.Some? && cfg.sessionStatus ==>
                Consulted(cfg, old(disk).value, old(log), log, false)
    {
      hide Fits, Continues, Scan, Next, Trace, Move, Mirrored, Sum;
      var state :- Load();
      if state.Some? && !lateOnEntry {
        var reconciled :- ReconcileLocked(state.value);
        if reconciled.Some? {
          WasRemoved();
          return Ok(None);
        }
        state :- Load();
        var status := state.value.status;
        if status.ForceStop? {
          FitsView(cfg, mon, state.value);
          var _ :- ForceStopLocked(state.value);
          WasRemoved();
          return Ok(None);
        }
        if status.UploadPending? || status.ArchiveReady? {
          var _ :- StopLocked(state.value);
          WasRemoved();
          return Ok(None);
        }
        if Startable(status) {
          var started :- StartLocked(state.value);
          return Ok(Some(started));
        }
      }
      if state.Some? && lateOnExit {
        StillContinues(cfg, mon, state.value);
        RetriedContinues(cfg, mon, state.value);
        var _ :- Proceed(Retried(state.value));
      }
      return Ok(if state.Some? && state.value.status.Done? then None else state);
    }

    /** What recovering a record may involve. */
    function Recovering(status: Status): set<Kind> {
      if Startable(status) then {Starting, Saving}
      else if status.ArchiveReady? then {Carrying, Saving}
      else Settling(status)
    }

    /** The user names the stored object of an upload whose outcome was unknown. */
    method ResolveUploadAmbiguous(storageId: StorageId) returns (o: Outcome<()>)
      requires Valid()
      modifies this
      ensures SameRuns() && !o.Rejected?
      ensures o.Ok? ==> && old(disk).Some? && old(disk).value.status.UploadAmbiguous? && old(disk).value.archive.Some?
                        && var r := old(disk).value;
                           var p := CommitPayload(storageId, r.archive.value.digest);
                           disk == Some(r.(stopKey := Some(StopKey(r.runId, p)), stopPayload := Some(ArchivePayload(p)),
                                           uploadedStorageId := Some(storageId), status := UploadPending))
      ensures Adds({Resolving, Saving})
    {
      hide Fits, Continues, Scan, Next, Trace, Move, Mirrored, Sum;
      var loaded :- Load();
      if loaded.None? { return Failed; }
      var state := loaded.value;
      if !state.status.UploadAmbiguous? { return Failed; }
      FitsView(cfg, mon, state);
      Tell(Resolved(state.runId, storageId));
      var p := CommitPayload(storageId, state.archive.value.digest);
      PendingContinues(cfg, mon, state, p);
      var _ :- Proceed(state.(stopKey := Some(StopKey(state.runId, p)), stopPayload := Some(ArchivePayload(p)),
                              uploadedStorageId := Some(storageId), status := UploadPending));
      return Ok(());
    }

    /** The end of a runner is reported; only the run that is still running is stopped. */
    method BrowserProcessClosed(runId: RunId, runnerPid: nat) returns (o: Outcome<Option<Session>>)
      requires Valid()
      modifies this
      ensures SameRuns() && !o.Rejected?
      ensures o.Ok? ==> if old(disk).Some? && old(disk).value.runId == runId && old(disk).value.status.Running?
                           && old(disk).value.runnerPid == Some(runnerPid)
                        then disk == None && o.value.Some? else disk == old(disk) && o.value.None? && log == old(log)
      ensures Adds({Carrying, Saving})
      ensures o.Ok? && o.value.Some? ==>
                && Heard(old(log), log, CommitAnswered(runId, o.value.value)) && old(disk).value.remoteSession.Some?
                && Confirmed(cfg, old(disk).value, o.value.value) && o.value.value.generation.Some?
    {
      hide Fits, Continues, Scan, Next, Trace, Move, Mirrored, Sum;
      var loaded :- Load();
      if loaded.None? || loaded.value.runId != runId || loaded.value.runnerPid != Some(runnerPid)
         || !loaded.value.status.Running? {
        return Ok(None);
      }
      var state := loaded.value;
      var stopped :- StopClosed(state);
      return Ok(Some(stopped));
    }

    /** When the reaction to a closed runner fails, the attempt is counted. */
    method CountFailedClose() returns (o: Outcome<()>)
      requires Valid()
      modifies this
      ensures SameRuns() && !o.Rejected?
      ensures o.Ok? ==> disk == if old(disk).Some? then Some(Retried(old(disk).value)) else None
      ensures Adds(if old(disk).Some? then {KindOf(Saved(old(disk).value))} else {})
    {
      hide Fits, Continues, Scan, Next, Trace, Move, Mirrored, Sum;
      var loaded :- Load();
      if loaded.None? { return Ok(()); }
      StillContinues(cfg, mon, loaded.value);
      RetriedContinues(cfg, mon, loaded.value);
      o := Proceed(Retried(loaded.value));
    }

    /** A new process finds the disk and the runners, and remembers nothing. */
    method Restart()
      requires Valid()
      modifies this`log, this`mon, this`track, this`licenseUrl
      modifies this`watched, this`closing, this`naturallyClosed, this`runnerHandle
      ensures SameRuns() && mon == old(mon)
      ensures runnerHandle.None? && !naturallyClosed && !licenseUrl && closing == {}
      ensures Adds({})
    {
      hide Fits, Next, Scan, Trace, Sum;
      Note(Restarted);
      runnerHandle, naturallyClosed, watched, closing, licenseUrl := None, false, {}, {}, false;
    }

    /** Any number of operations in any order, each of them ending in any way, with a new
        process after every crash: the history stays accepted and is only ever extended. */
    method Run(steps: nat)
      requires Valid() && FreshRuns()
      modifies this
      ensures Valid() && FreshRuns() && old(log) <= log
      ensures OneUpload(log) && OneCommit(log) && ForcedStaysForced(log) && QuietWhereNeeded(log)
      ensures forall i :: 0 <= i < |log| && log[i].Saved? ==> ValidRecord(log[i].record)
    {
      hide Fits, Scan, Next, Trace, Move, Mirrored, OneUpload, OneCommit, ForcedStaysForced, QuietWhereNeeded, ValidRecord, Sum;
      for i := 0 to steps
        invariant Valid() && FreshRuns() && old(log) <= log
      {
        var crashed := Operate();
        if crashed { Restart(); }
      }
      HistoriesAreSafe(cfg, log);
    }

    method Operate() returns (crashed: bool)
      requires Valid() && FreshRuns()
      modifies this
      ensures Valid() && FreshRuns() && old(log) <= log
    {
      hide Fits, Scan, Next, Trace, Move, Mirrored, Sum;
      if {
        case true => var o := Start(); crashed := o.Crashed?;
        case true => var o := Stop(); crashed := o.Crashed?;
        case true => var o := ForceStopProfile(); crashed := o.Crashed?;
        case true => var o := RollbackStart(); crashed := o.Crashed?;
        case true =>
          var entry: bool, exit: bool := *, *;
          var o := Recover(entry, entry || exit);
          crashed := o.Crashed?;
        case true => var sid: StorageId := *; var o := ResolveUploadAmbiguous(sid); crashed := o.Crashed?;
        case true =>
          var run: RunId, runner: Identity := *, *;
          crashed := false;
          // Called when the runner is seen to have ended.
          if runner !in live {
            var o := BrowserProcessClosed(run, runner.pid);
            crashed := o.Crashed?;
          }
        case true => var o := CountFailedClose(); crashed := o.Crashed?;
        case true => Meanwhile(); crashed := false;
        // Anything may happen to the archive file and to process ids.
        case true => artifact := *; crashed := false;
        case true => reused := *; crashed := false;
        case true => crashed := true;
      }
    }
  }
}
