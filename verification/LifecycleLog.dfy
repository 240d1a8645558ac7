/** The history of one profile: every record that reached the disk and every call that left
    the process, in order. A monitor reads the history and accepts it or not; the lemmas say,
    in terms of positions in the history alone, what acceptance means. */
module LifecycleLog {
  import opened Outcomes
  import opened RecoveryState
  import opened LifecycleEvents
  import opened RunnerLog

  /** An answer that both fields report as stopped, for the session asked about. */
  predicate StoppedAnswer(cfg: Config, session: SessionId, s: Session) {
    s.id == session && s.profile == cfg.profile && s.stateStopped && s.statusStopped
  }

  /** An answer that acknowledges the commit of an archive. */
  predicate CommittedAnswer(cfg: Config, session: SessionId, s: Session) {
    StoppedAnswer(cfg, session, s) && s.generation.Some?
  }

  /** A status report that counts as stopped: either field is enough. */
  predicate StoppedReport(cfg: Config, session: SessionId, s: Session) {
    s.id == session && s.profile == cfg.profile && (s.stateStopped || s.statusStopped)
  }

  /** What a run starts from: the archive that its session came with, if any, and whether it lies
      in the work directory. */
  datatype Base = Base(
    offered: Option<(SessionId, Option<ArchiveIdentity>)>,  // the last answer to a session request
    came: Option<ArchiveIdentity>,                          // what the recorded session came with
    restored: Option<ArchiveIdentity>,
    laid: bool)                                             // a record says that it lies there

  const NOTHING_LAID := Base(None, None, None, false)

  /** What the history so far says about the current run. */
  datatype View = View(
    id: RunId,
    asked: bool,             // a session was requested
    session: Option<SessionId>,
    recorded: bool,          // the last saved record says that the license is held
    licensed: bool,          // a recorded license has not been released since
    stopReturned: bool,      // stopping the runner returned and none was spawned since
    archived: Option<Digest>,
    uploaded: bool,
    resolved: Option<StorageId>,
    commit: Option<(CommitPayload, Key)>,
    stopped: bool,           // the server was seen to report the session stopped
    committed: Option<nat>,  // ... with this generation of a committed archive
    published: bool,
    forced: bool,
    base: Base)

  datatype Monitor = Monitor(used: set<RunId>, run: Option<View>)

  function NewView(run: RunId): View {
    View(run, false, None, false, false, false, None, false, None, None, false, None, false, false,
         NOTHING_LAID)
  }

  /** The view after a record of its run was saved. */
  function SavedView(v: View, r: Record): View {
    v.(session := r.remoteSession, recorded := r.licenseAcquired, licensed := r.licenseAcquired,
       forced := r.status.ForceStop?,
       base := v.base.(came := if v.session.Some? then v.base.came else r.archive, laid := r.archiveMaterialized))
  }

  /** The record names the session that was offered, with what it came with - until that makes way
      for the archive of the run - and says that it lies in the work directory only when it was
      restored, or there was nothing to restore. */
  predicate BaseKept(v: View, r: Record) {
    && (if v.session.Some?
        then r.remoteSession == v.session
             && (r.archive == v.base.came
                 || (r.archive.Some? && v.archived == Some(r.archive.value.digest)))
        else if r.remoteSession.Some? then v.base.offered == Some((r.remoteSession.value, r.archive))
        else r.archive.None?)
    && (r.archiveMaterialized ==> r.remoteSession.Some?)
    && (v.base.laid ==> r.archiveMaterialized)
    && (r.archiveMaterialized && !v.base.laid ==> v.session.Some? && (v.base.came.None? || v.base.restored == v.base.came))
  }

  /** A save starts a run nobody used before, or continues the current one. */
  function AfterSave(cfg: Config, m: Monitor, r: Record): Option<Monitor> {
    if !ValidRecord(r) then None
    else if m.run.Some? && m.run.value.id == r.runId then
      var v := m.run.value;
      if && r.startKey == StartKey(r.runId)
         && BaseKept(v, r)
         && (r.remoteSession.Some? ==> v.asked)
         && (v.licensed ==> r.licenseAcquired)
         && (v.forced ==> r.status.ForceStop?)
         && (r.status.Done? ==> v.committed.Some? && v.stopped && (cfg.archiveCache ==> v.published))
      then
        Some(m.(run := Some(SavedView(v, r))))
      else None
    else if r.runId in m.used || r != NewRecord(r.runId) then None
    else Some(Monitor(m.used + {r.runId}, Some(NewView(r.runId))))
  }

  /** Whether an event other than a save may happen in the view of its run. */
  predicate Allowed(cfg: Config, v: View, e: Event)
    requires !e.Saved? && !Ambient(e)
  {
    var quiet := v.stopReturned && !v.licensed;
    match e
    case Removed(_) => quiet && v.stopped
    case LicenseAcquired(_) => v.archived.None?
    case LicenseReleased(_) => v.stopReturned
    case StartCall(run, key) => key == StartKey(run) && !v.forced && v.archived.None?
    case StartAnswered(_, _, _) => v.asked
    case Restored(_, identity) => v.base.came == Some(identity)
    case RunnerSpawned(_, _) => v.session.Some? && !v.forced && v.archived.None? && v.base.laid
    case StopReturned(_) => true
    case ArchiveCreated(_, _) => quiet && !v.forced && !v.uploaded && v.commit.None?
    case UploadCall(_, d) => quiet && v.archived == Some(d) && !v.uploaded && !v.forced && v.commit.None?
    case Resolved(_, _) => v.archived.Some? && !v.forced && v.commit.None?
    case CommitCall(run, session, p, key) =>
      && v.archived == Some(p.digest) && (v.uploaded || v.resolved == Some(p.storageId)) && !v.forced
      && v.session == Some(session) && key == StopKey(run, p)
      && (v.commit.Some? ==> v.commit.value == (p, key))
    case CommitAnswered(_, _) => v.commit.Some? && v.session.Some?
    case StatusAnswered(_, _) => v.session.Some?
    case RollbackCall(run, session, key) =>
      quiet && v.session == Some(session) && key == RollbackKey(run) && v.archived.None? && !v.forced
    case RollbackAnswered(_, _) => v.session.Some?
    case ForceCall(run, session, key) =>
      quiet && v.session == Some(session) && key == ForceKey(run) && v.forced
    case ForceAnswered(_, _) => v.session.Some?
    case CachePublished(_, g, d) =>
      cfg.archiveCache && v.committed == Some(g) && v.archived == Some(d) && !v.forced
  }

  /** An answer from which the session of the view is known to be stopped ... */
  predicate TellsStopped(cfg: Config, v: View, e: Event)
    requires !e.Saved? && !Ambient(e)
  {
    v.session.Some?
    && match e
       case StatusAnswered(_, s) => StoppedReport(cfg, v.session.value, s)
       case CommitAnswered(_, s) => CommittedAnswer(cfg, v.session.value, s)
       case RollbackAnswered(_, s) => StoppedAnswer(cfg, v.session.value, s)
       case ForceAnswered(_, s) => StoppedAnswer(cfg, v.session.value, s)
       case _ => false
  }

  /** ... with this generation of a committed archive. */
  function ToldGeneration(cfg: Config, v: View, e: Event): Option<nat>
    requires !e.Saved? && !Ambient(e)
  {
    if TellsStopped(cfg, v, e) && (e.StatusAnswered? || e.CommitAnswered?) then e.answer.generation else None
  }

  /** The view after an event other than a save. */
  function After(cfg: Config, v: View, e: Event): View
    requires !e.Saved? && !Ambient(e)
  {
    var told := ToldGeneration(cfg, v, e);
    v.(asked := v.asked || e.StartCall?,
       licensed := if e.LicenseAcquired? then v.recorded else v.licensed && !e.LicenseReleased?,
       stopReturned := e.StopReturned? || (v.stopReturned && !e.RunnerSpawned?),
       archived := if e.ArchiveCreated? then Some(e.digest) else v.archived,
       uploaded := v.uploaded || e.UploadCall?,
       resolved := if e.Resolved? then Some(e.storageId) else v.resolved,
       commit := if e.CommitCall? then Some((e.payload, e.key)) else v.commit,
       stopped := v.stopped || TellsStopped(cfg, v, e),
       committed := if told.Some? then told else v.committed,
       published := v.published || e.CachePublished?,
       base := v.base.(offered := if e.StartAnswered? then Some((e.session, e.with)) else v.base.offered,
                       restored := if e.Restored? then Some(e.identity) else v.base.restored))
  }

  function Next(cfg: Config, m: Monitor, e: Event): Option<Monitor> {
    if Ambient(e) then Some(m)
    else if e.Saved? then AfterSave(cfg, m, e.record)
    else if m.run.None? || m.run.value.id != e.run || !Allowed(cfg, m.run.value, e) then None
    else if e.Removed? then Some(m.(run := None))
    else Some(m.(run := Some(After(cfg, m.run.value, e))))
  }

  lemma NextAmbient(cfg: Config, m: Monitor, e: Event)
    requires Ambient(e)
    ensures Next(cfg, m, e) == Some(m)
  {
  }

  lemma NextSaved(cfg: Config, m: Monitor, r: Record)
    ensures Next(cfg, m, Saved(r)) == AfterSave(cfg, m, r)
  {
  }

  const FirstMonitor := Monitor({}, None)

  function Scan(cfg: Config, log: seq<Event>): Option<Monitor> {
    if |log| == 0 then Some(FirstMonitor)
    else
      var m := Scan(cfg, log[..|log| - 1]);
      if m.None? then None else Next(cfg, m.value, log[|log| - 1])
  }

  predicate Accepted(cfg: Config, log: seq<Event>) {
    Scan(cfg, log).Some?
  }

  lemma ScanAppend(cfg: Config, log: seq<Event>, e: Event)
    requires Accepted(cfg, log)
    ensures Scan(cfg, log + [e]) == Next(cfg, Scan(cfg, log).value, e)
  {
    assert (log + [e])[..|log|] == log;
  }

  /** An accepted history ends with a step the monitor takes from the shorter history. */
  lemma ScanLast(cfg: Config, log: seq<Event>)
    requires Accepted(cfg, log) && |log| > 0
    ensures Accepted(cfg, log[..|log| - 1])
    ensures Scan(cfg, log) == Next(cfg, Scan(cfg, log[..|log| - 1]).value, log[|log| - 1])
  {
  }

  lemma {:induction false} AcceptedPrefix(cfg: Config, log: seq<Event>, n: nat)
    requires Accepted(cfg, log) && n <= |log|
    ensures Accepted(cfg, log[..n])
  {
    if n == |log| {
      assert log[..n] == log;
    } else {
      ScanLast(cfg, log);
      AcceptedPrefix(cfg, log[..|log| - 1], n);
      assert log[..|log| - 1][..n] == log[..n];
    }
  }

  /** The step that position j of an accepted history makes. */
  lemma StepAt(cfg: Config, log: seq<Event>, j: nat)
    requires Accepted(cfg, log) && j < |log|
    ensures Accepted(cfg, log[..j]) && Accepted(cfg, log[..j + 1])
    ensures Scan(cfg, log[..j + 1]) == Next(cfg, Scan(cfg, log[..j]).value, log[j])
  {
    AcceptedPrefix(cfg, log, j);
    AcceptedPrefix(cfg, log, j + 1);
    ScanLast(cfg, log[..j + 1]);
    assert log[..j + 1][..j] == log[..j];
  }

  // ---------- What a past event forbids for ever ----------

  /** What the monitor still knows about an event of the past. */
  ghost predicate Remembers(m: Monitor, e: Event) {
    Ambient(e) ||
    (&& RunOf(e) in m.used
    && (m.run.Some? ==> m.run.value.id in m.used)
    && (m.run.Some? && m.run.value.id == RunOf(e) ==>
          var v := m.run.value;
          match e
          case ArchiveCreated(_, _) => v.archived.Some?
          case UploadCall(_, _) => v.uploaded
          case CommitCall(_, s, p, key) => v.commit == Some((p, key)) && v.session == Some(s)
          case Saved(r) => (r.status.ForceStop? ==> v.forced) && (r.remoteSession.Some? ==> v.session == r.remoteSession)
          case Removed(_) => false
          case _ => true))
  }

  ghost predicate SaneView(v: View) {
    && (v.stopped || v.committed.Some? || v.commit.Some? ==> v.session.Some?)
    && (v.uploaded ==> v.archived.Some?)
    && (v.licensed ==> v.recorded)
    && (v.base.laid ==> v.session.Some?)
  }

  ghost predicate Sane(m: Monitor) {
    m.run.Some? ==> m.run.value.id in m.used && SaneView(m.run.value)
  }

  lemma SaneSave(cfg: Config, m: Monitor, r: Record)
    requires Sane(m) && AfterSave(cfg, m, r).Some?
    ensures Sane(AfterSave(cfg, m, r).value) && m.used <= AfterSave(cfg, m, r).value.used
  {
    hide ValidRecord;
  }

  lemma SaneAfter(cfg: Config, v: View, e: Event)
    requires !e.Saved? && !Ambient(e) && Allowed(cfg, v, e) && SaneView(v)
    ensures SaneView(After(cfg, v, e)) && After(cfg, v, e).id == v.id
  {
    hide StoppedReport, StoppedAnswer, CommittedAnswer;
  }

  lemma SaneStep(cfg: Config, m: Monitor, e: Event)
    requires Sane(m) && Next(cfg, m, e).Some?
    ensures Sane(Next(cfg, m, e).value) && m.used <= Next(cfg, m, e).value.used
  {
    hide SaneView, Allowed, After, AfterSave;
    if e.Saved? {
      SaneSave(cfg, m, e.record);
    } else if !Ambient(e) {
      SaneAfter(cfg, m.run.value, e);
    }
  }

  lemma {:induction false} ScanSane(cfg: Config, log: seq<Event>)
    requires Accepted(cfg, log)
    ensures Sane(Scan(cfg, log).value)
  {
    if |log| > 0 {
      ScanLast(cfg, log);
      ScanSane(cfg, log[..|log| - 1]);
      SaneStep(cfg, Scan(cfg, log[..|log| - 1]).value, log[|log| - 1]);
    }
  }

  lemma RemembersItself(cfg: Config, m: Monitor, e: Event)
    requires Sane(m) && Next(cfg, m, e).Some?
    ensures Remembers(Next(cfg, m, e).value, e)
  {
  }

  lemma RemembersStep(cfg: Config, m: Monitor, e: Event, past: Event)
    requires Remembers(m, past) && Next(cfg, m, e).Some?
    ensures Remembers(Next(cfg, m, e).value, past)
  {
    hide ValidRecord, TellsStopped, ToldGeneration;
  }

  lemma {:induction false} PastIsRemembered(cfg: Config, log: seq<Event>, i: nat)
    requires Accepted(cfg, log) && i < |log|
    ensures Remembers(Scan(cfg, log).value, log[i])
  {
    var before := log[..|log| - 1];
    ScanLast(cfg, log);
    if i == |log| - 1 {
      ScanSane(cfg, before);
      RemembersItself(cfg, Scan(cfg, before).value, log[i]);
    } else {
      PastIsRemembered(cfg, before, i);
      RemembersStep(cfg, Scan(cfg, before).value, log[|log| - 1], log[i]);
    }
  }

  /** At position j the monitor takes a step and remembers position i before it. */
  lemma RememberedAt(cfg: Config, log: seq<Event>, i: nat, j: nat) returns (m: Monitor)
    requires Accepted(cfg, log) && i < j < |log|
    ensures Scan(cfg, log[..j]) == Some(m) && Next(cfg, m, log[j]).Some? && Remembers(m, log[i])
  {
    StepAt(cfg, log, j);
    m := Scan(cfg, log[..j]).value;
    PastIsRemembered(cfg, log[..j], i);
  }

  /** No archive of a run is ever uploaded twice. */
  lemma UploadAtMostOnce(cfg: Config, log: seq<Event>, i: nat, j: nat)
    requires Accepted(cfg, log) && i < |log| && j < |log|
    requires log[i].UploadCall? && log[j].UploadCall? && log[i].run == log[j].run
    ensures i == j
  {
    if i < j {
      var _ := RememberedAt(cfg, log, i, j);
    } else if j < i {
      var _ := RememberedAt(cfg, log, j, i);
    }
  }

  /** All archive-bearing stop calls of a run name one session, one payload and one key. */
  lemma CommitsAgree(cfg: Config, log: seq<Event>, i: nat, j: nat)
    requires Accepted(cfg, log) && i < |log| && j < |log|
    requires log[i].CommitCall? && log[j].CommitCall? && log[i].run == log[j].run
    ensures log[i] == log[j]
  {
    if i < j {
      var _ := RememberedAt(cfg, log, i, j);
    } else if j < i {
      var _ := RememberedAt(cfg, log, j, i);
    }
  }

  /** Every session request of a run carries the one start key of that run, and every stop key
      is computed from the very payload it is sent with. */
  lemma KeysAreImmutable(cfg: Config, log: seq<Event>, i: nat)
    requires Accepted(cfg, log) && i < |log|
    ensures log[i].StartCall? ==> log[i].key == StartKey(log[i].run)
    ensures log[i].CommitCall? ==> log[i].key == StopKey(log[i].run, log[i].payload)
    ensures log[i].RollbackCall? ==> log[i].key == RollbackKey(log[i].run)
    ensures log[i].ForceCall? ==> log[i].key == ForceKey(log[i].run)
  {
    StepAt(cfg, log, i);
  }

  /** Once the intent to force-stop is on disk, the run uploads, commits and publishes nothing. */
  lemma ForceStopIsFinal(cfg: Config, log: seq<Event>, i: nat, j: nat)
    requires Accepted(cfg, log) && i < j < |log|
    requires log[i].Saved? && log[i].record.status.ForceStop?
    requires !Ambient(log[j]) && RunOf(log[j]) == RunOf(log[i])
    ensures !log[j].UploadCall? && !log[j].CommitCall? && !log[j].CachePublished?
    ensures log[j].Saved? ==> log[j].record.status.ForceStop?
  {
    var _ := RememberedAt(cfg, log, i, j);
  }

  /** A run whose record was removed is never heard of again. */
  lemma RemovalIsFinal(cfg: Config, log: seq<Event>, i: nat, j: nat)
    requires Accepted(cfg, log) && i < j < |log|
    requires log[i].Removed? && !Ambient(log[j])
    ensures RunOf(log[j]) != log[i].run
  {
    var _ := RememberedAt(cfg, log, i, j);
  }

  /** Every saved record passes validation: what its status says is borne out by its fields. */
  lemma SavesAreValid(cfg: Config, log: seq<Event>, i: nat)
    requires Accepted(cfg, log) && i < |log| && log[i].Saved?
    ensures ValidRecord(log[i].record)
    ensures var r := log[i].record;
            && (r.remoteSession.None? ==> r.status in {StartIntent, License})
            && (r.status == StartIntent ==> !r.licenseAcquired)
            && (r.status == Running ==> r.browserLaunched)
            && (r.status in {UploadPending, UploadAmbiguous} ==> r.archiveArtifact.Some?)
            && (r.status == Done ==> r.stopKey.Some? && r.stopPayload.Some?)
            && (r.status == ForceStop ==> r.stopPayload == Some(ForcePayload))
            && (r.runnerPid.Some? <==> IdentityOf(r).Some?)
            && (r.runnerPid.None? ==> r.runnerStartTime.None? && r.runnerCmdlineHash.None?)
  {
    StepAt(cfg, log, i);
  }

  /** A run keeps its session once a record names it. */
  lemma SessionsStay(cfg: Config, log: seq<Event>, i: nat, j: nat)
    requires Accepted(cfg, log) && i < j < |log|
    requires log[i].Saved? && log[j].Saved? && log[i].record.runId == log[j].record.runId
    ensures log[i].record.remoteSession.Some? ==> log[j].record.remoteSession == log[i].record.remoteSession
  {
    var _ := RememberedAt(cfg, log, i, j);
  }

  // ---------- What must have happened before ----------

  /** A fact about the current run that only an event can establish. */
  datatype Fact =
    | Archived(digest: Digest)
    | Uploaded(digest: Digest)
    | ResolvedBy(storageId: StorageId)
    | Stopped(session: SessionId)
    | Committed(session: SessionId, generation: nat)
    | Published
    | Requested
    | Offered(session: SessionId, archive: Option<ArchiveIdentity>)
    | RestoredTo(identity: ArchiveIdentity)
    | Named(session: SessionId)

  ghost predicate Holds(v: View, f: Fact) {
    match f
    case Archived(d) => v.archived == Some(d)
    case Uploaded(d) => v.uploaded && v.archived == Some(d)
    case ResolvedBy(sid) => v.resolved == Some(sid)
    case Stopped(s) => v.stopped && v.session == Some(s)
    case Committed(s, g) => v.committed == Some(g) && v.session == Some(s)
    case Published => v.published
    case Requested => v.asked
    case Offered(s, a) => v.base.offered == Some((s, a))
    case RestoredTo(a) => v.base.restored == Some(a)
    case Named(s) => v.session == Some(s)
  }

  predicate IsStatus(e: Event) {
    e.StatusAnswered?
  }

  predicate IsAnswer(e: Event) {
    e.CommitAnswered? || e.RollbackAnswered? || e.ForceAnswered?
  }

  /** The server names the session and the profile, and says that it is stopped: in either field of
      a status report, in both of the answer to a request. */
  predicate SaysStopped(cfg: Config, session: SessionId, e: Event)
    requires IsStatus(e) || IsAnswer(e)
  {
    && e.answer.id == session && e.answer.profile == cfg.profile
    && (e.answer.stateStopped || e.answer.statusStopped)
    && (IsAnswer(e) ==> e.answer.stateStopped && e.answer.statusStopped)
  }

  /** The events that establish a fact about a run. */
  ghost predicate Establishes(cfg: Config, e: Event, run: RunId, f: Fact) {
    && !Ambient(e) && RunOf(e) == run
    && match f
       case Archived(d) => e == ArchiveCreated(run, d)
       case Uploaded(d) => e == UploadCall(run, d)
       case ResolvedBy(sid) => e == Resolved(run, sid)
       case Stopped(s) => (IsStatus(e) || IsAnswer(e)) && SaysStopped(cfg, s, e)
       case Committed(s, g) =>
         (IsStatus(e) || e.CommitAnswered?) && SaysStopped(cfg, s, e) && e.answer.generation == Some(g)
       case Published => e.CachePublished?
       case Requested => e == StartCall(run, StartKey(run))
       case Offered(s, a) => e == StartAnswered(run, s, a)
       case RestoredTo(a) => e == Restored(run, a)
       case Named(s) => e.Saved? && e.record.remoteSession == Some(s)
  }

  lemma EstablishedSave(cfg: Config, m: Monitor, r: Record, f: Fact)
    requires Sane(m) && AfterSave(cfg, m, r).Some?
    ensures var m' := AfterSave(cfg, m, r).value;
            && m'.run.Some? && m'.run.value.id == r.runId
            && (Holds(m'.run.value, f) ==>
                  || Establishes(cfg, Saved(r), r.runId, f)
                  || (m.run.Some? && m.run.value.id == r.runId && Holds(m.run.value, f)))
  {
    hide ValidRecord;
  }

  /** Only an answer of the server can tell that the session stopped or was committed. */
  lemma AnswersAfter(cfg: Config, v: View, e: Event, f: Fact)
    requires !e.Saved? && !Ambient(e) && e.run == v.id && (f.Stopped? || f.Committed?)
    ensures Holds(After(cfg, v, e), f) ==> Establishes(cfg, e, v.id, f) || Holds(v, f)
  {
  }

  lemma EstablishedAfter(cfg: Config, v: View, e: Event, f: Fact)
    requires !e.Saved? && !Ambient(e) && Allowed(cfg, v, e) && e.run == v.id
    ensures After(cfg, v, e).id == v.id
    ensures Holds(After(cfg, v, e), f) ==> Establishes(cfg, e, v.id, f) || Holds(v, f)
  {
    hide ToldGeneration, TellsStopped;
    if f.Stopped? || f.Committed? {
      AnswersAfter(cfg, v, e, f);
    }
  }

  lemma EstablishedStep(cfg: Config, m: Monitor, e: Event, f: Fact)
    requires Sane(m) && Next(cfg, m, e).Some?
    ensures var m' := Next(cfg, m, e).value;
            m'.run.Some? && Holds(m'.run.value, f) ==>
              || Establishes(cfg, e, m'.run.value.id, f)
              || (m.run.Some? && m.run.value.id == m'.run.value.id && Holds(m.run.value, f))
  {
    hide Allowed, After, AfterSave, Holds, Establishes, SaneView;
    if e.Saved? {
      EstablishedSave(cfg, m, e.record, f);
    } else if !Ambient(e) {
      EstablishedAfter(cfg, m.run.value, e, f);
    }
  }

  /** Whatever holds of the current run was established by an earlier event of that run. */
  lemma {:induction false} EstablishedBefore(cfg: Config, log: seq<Event>, f: Fact) returns (i: nat)
    requires Accepted(cfg, log) && Scan(cfg, log).value.run.Some? && Holds(Scan(cfg, log).value.run.value, f)
    ensures i < |log| && Establishes(cfg, log[i], Scan(cfg, log).value.run.value.id, f)
  {
    ScanLast(cfg, log);
    var before := log[..|log| - 1];
    ScanSane(cfg, before);
    EstablishedStep(cfg, Scan(cfg, before).value, log[|log| - 1], f);
    if Establishes(cfg, log[|log| - 1], Scan(cfg, log).value.run.value.id, f) {
      i := |log| - 1;
    } else {
      i := EstablishedBefore(cfg, before, f);
    }
  }

  /** Every record of the run that claimed a license was followed by a release. */
  ghost predicate LicenseReturned(log: seq<Event>, run: RunId) {
    forall i :: 0 <= i < |log| && log[i].Saved? && log[i].record.runId == run && log[i].record.licenseAcquired
      ==> ReleasedAfter(log, run, i)
  }

  ghost predicate ReleasedAfter(log: seq<Event>, run: RunId, i: nat) {
    exists k :: i < k < |log| && log[k] == LicenseReleased(run)
  }

  /** How stopping the runner of a run comes to have returned: just now, or before. */
  lemma StopStep(cfg: Config, m: Monitor, e: Event)
    requires Next(cfg, m, e).Some?
    requires Next(cfg, m, e).value.run.Some? && Next(cfg, m, e).value.run.value.stopReturned
    ensures var run := Next(cfg, m, e).value.run.value.id;
            e == StopReturned(run)
            || (m.run.Some? && m.run.value.id == run && m.run.value.stopReturned && !e.RunnerSpawned?)
  {
  }

  lemma {:induction false} StopHasReturned(cfg: Config, log: seq<Event>) returns (h: nat)
    requires Accepted(cfg, log) && Scan(cfg, log).value.run.Some? && Scan(cfg, log).value.run.value.stopReturned
    ensures StoppedSince(log, h) && log[h] == StopReturned(Scan(cfg, log).value.run.value.id)
  {
    hide Next;
    ScanLast(cfg, log);
    StopStep(cfg, Scan(cfg, log[..|log| - 1]).value, log[|log| - 1]);
    if log[|log| - 1] == StopReturned(Scan(cfg, log).value.run.value.id) {
      h := |log| - 1;
    } else {
      h := StopHasReturned(cfg, log[..|log| - 1]);
    }
  }

  /** How a run comes to hold no license: it gave it back, it held none before, or it is new. */
  lemma LicenseStep(cfg: Config, m: Monitor, e: Event)
    requires Sane(m) && Next(cfg, m, e).Some?
    requires Next(cfg, m, e).value.run.Some? && !Next(cfg, m, e).value.run.value.licensed
    ensures var run := Next(cfg, m, e).value.run.value.id;
            || e == LicenseReleased(run)
            || ((e.Saved? ==> !e.record.licenseAcquired)
                && if m.run.Some? && m.run.value.id == run then !m.run.value.licensed else run !in m.used)
  {
  }

  lemma PastIsUsed(cfg: Config, log: seq<Event>, i: nat)
    requires Accepted(cfg, log) && i < |log| && !Ambient(log[i])
    ensures RunOf(log[i]) in Scan(cfg, log).value.used
  {
    hide Next, Scan;
    PastIsRemembered(cfg, log, i);
  }

  lemma {:induction false} LicenseIsReturned(cfg: Config, log: seq<Event>)
    requires Accepted(cfg, log) && Scan(cfg, log).value.run.Some? && !Scan(cfg, log).value.run.value.licensed
    ensures LicenseReturned(log, Scan(cfg, log).value.run.value.id)
  {
    hide Next, Sane;
    ScanLast(cfg, log);
    var run := Scan(cfg, log).value.run.value.id;
    var before := log[..|log| - 1];
    var last := log[|log| - 1];
    var m := Scan(cfg, before).value;
    ScanSane(cfg, before);
    LicenseStep(cfg, m, last);
    forall i | 0 <= i < |log| && log[i].Saved? && log[i].record.runId == run && log[i].record.licenseAcquired
      ensures ReleasedAfter(log, run, i)
    {
      if last != LicenseReleased(run) {
        if m.run.Some? && m.run.value.id == run {
          LicenseIsReturned(cfg, before);
          assert ReleasedAfter(before, run, i);
        } else {
          PastIsUsed(cfg, before, i);
        }
      }
    }
  }

  /** The events that need the runner out of the way. */
  predicate NeedsStop(e: Event) {
    || e.Removed? || e.LicenseReleased? || e.ArchiveCreated? || e.UploadCall? || e.RollbackCall? || e.ForceCall?
  }

  /** Whatever needs the runner out of the way follows a stop that returned, with no spawn in
      between; in a careful history no runner is alive then. */
  lemma StopOrder(cfg: Config, log: seq<Event>, j: nat) returns (h: nat)
    requires Accepted(cfg, log) && Traced(log) && j < |log| && NeedsStop(log[j])
    ensures StoppedSince(log[..j], h) && log[h] == StopReturned(log[j].run)
    ensures Careful(log[..j]) ==> NobodyAlive(log[..j])
  {
    StepAt(cfg, log, j);
    h := StopHasReturned(cfg, log[..j]);
    TracedPrefix(log, j);
    if Careful(log[..j]) {
      CarefulStopEndsAll(log[..j], h);
    }
  }

  /** A license is given back only after the runner was stopped. */
  lemma ReleaseOrder(cfg: Config, log: seq<Event>, j: nat) returns (h: nat)
    requires Accepted(cfg, log) && Traced(log) && j < |log| && log[j].LicenseReleased?
    ensures StoppedSince(log[..j], h) && log[h] == StopReturned(log[j].run)
    ensures Careful(log[..j]) ==> NobodyAlive(log[..j])
  {
    h := StopOrder(cfg, log, j);
  }

  /** An archive is created only after stopping the runner returned and every license the run had
      recorded was given back, and no runner is spawned for the run ever after. In a careful
      history no runner is alive when it is created. */
  lemma ArchiveOrder(cfg: Config, log: seq<Event>, i: nat) returns (h: nat)
    requires Accepted(cfg, log) && Traced(log) && i < |log| && log[i].ArchiveCreated?
    ensures StoppedSince(log[..i], h) && log[h] == StopReturned(log[i].run) && LicenseReturned(log[..i], log[i].run)
    ensures forall k :: i < k < |log| && log[k].RunnerSpawned? ==> log[k].run != log[i].run
    ensures Careful(log[..i]) ==> NobodyAlive(log[..i])
  {
    h := StopOrder(cfg, log, i);
    StepAt(cfg, log, i);
    LicenseIsReturned(cfg, log[..i]);
    forall k | i < k < |log| && log[k].RunnerSpawned?
      ensures log[k].run != log[i].run
    {
      var _ := RememberedAt(cfg, log, i, k);
    }
  }

  /** Bytes are uploaded only after they were archived. */
  lemma UploadOrder(cfg: Config, log: seq<Event>, j: nat) returns (i: nat)
    requires Accepted(cfg, log) && j < |log| && log[j].UploadCall?
    ensures i < j && log[i] == ArchiveCreated(log[j].run, log[j].digest)
  {
    StepAt(cfg, log, j);
    i := EstablishedBefore(cfg, log[..j], Archived(log[j].digest));
  }

  /** A commit names archived bytes, and follows their upload or the user's own resolution of
      an upload whose outcome was unknown. */
  lemma CommitOrder(cfg: Config, log: seq<Event>, j: nat) returns (i: nat, u: nat)
    requires Accepted(cfg, log) && j < |log| && log[j].CommitCall?
    ensures i < j && log[i] == ArchiveCreated(log[j].run, log[j].payload.digest)
    ensures u < j && (|| log[u] == UploadCall(log[j].run, log[j].payload.digest)
                      || log[u] == Resolved(log[j].run, log[j].payload.storageId))
  {
    StepAt(cfg, log, j);
    i := EstablishedBefore(cfg, log[..j], Archived(log[j].payload.digest));
    if Scan(cfg, log[..j]).value.run.value.uploaded {
      u := EstablishedBefore(cfg, log[..j], Uploaded(log[j].payload.digest));
    } else {
      u := EstablishedBefore(cfg, log[..j], ResolvedBy(log[j].payload.storageId));
    }
  }

  /** The session of the current run is one that the server gave it, with what it came with. */
  lemma {:induction false} CameOrder(cfg: Config, log: seq<Event>) returns (i: nat)
    requires Accepted(cfg, log) && Scan(cfg, log).value.run.Some? && Scan(cfg, log).value.run.value.session.Some?
    ensures var v := Scan(cfg, log).value.run.value;
            i < |log| && log[i] == StartAnswered(v.id, v.session.value, v.base.came)
  {
    hide Next, ValidRecord;
    ScanLast(cfg, log);
    var before, e, v := log[..|log| - 1], log[|log| - 1], Scan(cfg, log).value.run.value;
    var m := Scan(cfg, before).value;
    CameStep(cfg, m, e);
    if m.run.Some? && m.run.value.id == v.id && m.run.value.session.Some? {
      i := CameOrder(cfg, before);
    } else {
      i := EstablishedBefore(cfg, before, Offered(v.session.value, v.base.came));
    }
  }

  /** A session is recorded once, with the archive it was offered with. */
  lemma CameStep(cfg: Config, m: Monitor, e: Event)
    requires Next(cfg, m, e).Some? && Next(cfg, m, e).value.run.Some?
    requires Next(cfg, m, e).value.run.value.session.Some?
    ensures var v := Next(cfg, m, e).value.run.value;
            && m.run.Some? && m.run.value.id == v.id
            && if m.run.value.session.Some? then m.run.value.session == v.session && m.run.value.base.came == v.base.came
               else m.run.value.base.offered == Some((v.session.value, v.base.came))
  {
    hide ValidRecord, Allowed, TellsStopped, ToldGeneration;
  }

  /** What the session came with lies in the work directory only after it was restored. */
  lemma {:induction false} LaidOrder(cfg: Config, log: seq<Event>) returns (i: nat)
    requires Accepted(cfg, log) && Scan(cfg, log).value.run.Some? && Scan(cfg, log).value.run.value.base.laid
    ensures var v := Scan(cfg, log).value.run.value;
            v.base.came.Some? ==> i < |log| && log[i] == Restored(v.id, v.base.came.value)
  {
    hide Next, ValidRecord;
    ScanLast(cfg, log);
    var before, e, v := log[..|log| - 1], log[|log| - 1], Scan(cfg, log).value.run.value;
    var m := Scan(cfg, before).value;
    ScanSane(cfg, before);
    LaidStep(cfg, m, e);
    i := 0;
    if m.run.value.base.laid {
      i := LaidOrder(cfg, before);
    } else if v.base.came.Some? {
      i := EstablishedBefore(cfg, before, RestoredTo(v.base.came.value));
    }
  }

  lemma LaidStep(cfg: Config, m: Monitor, e: Event)
    requires Sane(m) && Next(cfg, m, e).Some? && Next(cfg, m, e).value.run.Some? && Next(cfg, m, e).value.run.value.base.laid
    ensures var v := Next(cfg, m, e).value.run.value;
            && m.run.Some? && m.run.value.id == v.id && m.run.value.base.came == v.base.came
            && (m.run.value.base.laid || v.base.came.None? || m.run.value.base.restored == v.base.came)
  {
    hide ValidRecord, Allowed, TellsStopped, ToldGeneration;
  }

  /** A runner is spawned only for a session that the server gave the run, and only after the
      archive that the session came with, if any, was restored. */
  lemma SpawnOrder(cfg: Config, log: seq<Event>, j: nat)
    returns (i: nat, session: SessionId, archive: Option<ArchiveIdentity>, k: nat)
    requires Accepted(cfg, log) && j < |log| && log[j].RunnerSpawned?
    ensures i < j && log[i] == StartAnswered(log[j].run, session, archive)
    ensures archive.Some? ==> k < j && log[k] == Restored(log[j].run, archive.value)
  {
    StepAt(cfg, log, j);
    var v := Scan(cfg, log[..j]).value.run.value;
    session, archive := v.session.value, v.base.came;
    i := CameOrder(cfg, log[..j]);
    k := LaidOrder(cfg, log[..j]);
  }

  /** A record names a session only after one was requested under the run's key, and only one that
      the server answered with. */
  lemma SessionOrder(cfg: Config, log: seq<Event>, j: nat) returns (h: nat, i: nat, archive: Option<ArchiveIdentity>)
    requires Accepted(cfg, log) && j < |log| && log[j].Saved? && log[j].record.remoteSession.Some?
    ensures h < j && log[h] == StartCall(log[j].record.runId, StartKey(log[j].record.runId))
    ensures i < j && log[i] == StartAnswered(log[j].record.runId, log[j].record.remoteSession.value, archive)
  {
    StepAt(cfg, log, j);
    h := EstablishedBefore(cfg, log[..j], Requested);
    var v := Scan(cfg, log[..j + 1]).value.run.value;
    archive := v.base.came;
    i := CameOrder(cfg, log[..j + 1]);
    assert log[i] == log[..j + 1][i];
  }

  /** The cache receives exactly the archived bytes, under a generation the server reported for
      a stopped session. */
  lemma PublishOrder(cfg: Config, log: seq<Event>, j: nat) returns (i: nat, c: nat, session: SessionId, k: nat)
    requires Accepted(cfg, log) && j < |log| && log[j].CachePublished?
    ensures i < j && log[i] == ArchiveCreated(log[j].run, log[j].digest)
    ensures c < j && Establishes(cfg, log[c], log[j].run, Committed(session, log[j].generation))
    ensures k < j && Establishes(cfg, log[k], log[j].run, Named(session))
  {
    StepAt(cfg, log, j);
    ScanSane(cfg, log[..j]);
    i := EstablishedBefore(cfg, log[..j], Archived(log[j].digest));
    session := Scan(cfg, log[..j]).value.run.value.session.value;
    c := EstablishedBefore(cfg, log[..j], Committed(session, log[j].generation));
    k := EstablishedBefore(cfg, log[..j], Named(session));
  }

  /** A record is marked done only after the commit was acknowledged or observed, and after the
      cache was refreshed when there is one. */
  lemma DoneOrder(cfg: Config, log: seq<Event>, j: nat) returns (c: nat, session: SessionId, generation: nat, p: nat)
    requires Accepted(cfg, log) && j < |log| && log[j].Saved? && log[j].record.status.Done?
    ensures log[j].record.remoteSession == Some(session)
    ensures c < j && Establishes(cfg, log[c], log[j].record.runId, Committed(session, generation))
    ensures cfg.archiveCache ==> p < j && log[p].CachePublished? && log[p].run == log[j].record.runId
  {
    StepAt(cfg, log, j);
    ScanSane(cfg, log[..j]);
    var v := Scan(cfg, log[..j]).value.run.value;
    session, generation, p := v.session.value, v.committed.value, 0;
    c := EstablishedBefore(cfg, log[..j], Committed(session, generation));
    if cfg.archiveCache {
      p := EstablishedBefore(cfg, log[..j], Published);
    }
  }

  /** A record is removed only after stopping the runner returned, the license was given back
      and the server was seen to report the session of the run's own records stopped. In a
      careful history no runner is alive then. */
  lemma RemovalOrder(cfg: Config, log: seq<Event>, j: nat) returns (h: nat, s: nat, session: SessionId, k: nat)
    requires Accepted(cfg, log) && Traced(log) && j < |log| && log[j].Removed?
    ensures StoppedSince(log[..j], h) && log[h] == StopReturned(log[j].run) && LicenseReturned(log[..j], log[j].run)
    ensures s < j && Establishes(cfg, log[s], log[j].run, Stopped(session))
    ensures k < j && Establishes(cfg, log[k], log[j].run, Named(session))
    ensures Careful(log[..j]) ==> NobodyAlive(log[..j])
  {
    h := StopOrder(cfg, log, j);
    StepAt(cfg, log, j);
    ScanSane(cfg, log[..j]);
    LicenseIsReturned(cfg, log[..j]);
    session := Scan(cfg, log[..j]).value.run.value.session.value;
    s := EstablishedBefore(cfg, log[..j], Stopped(session));
    k := EstablishedBefore(cfg, log[..j], Named(session));
  }

  // ---------- An idempotent server ----------

  ghost predicate IsRequest(e: Event) {
    e.StartCall? || e.CommitCall? || e.RollbackCall? || e.ForceCall?
  }

  /** The requests an idempotent server carries out: those whose key it has not seen. */
  ghost function Effects(log: seq<Event>): (done: seq<Event>)
    ensures forall i :: 0 <= i < |done| ==> IsRequest(done[i]) && done[i] in log
  {
    if |log| == 0 then []
    else
      var done := Effects(log[..|log| - 1]);
      var e := log[|log| - 1];
      if IsRequest(e) && forall i :: 0 <= i < |done| ==> done[i].key != e.key then done + [e] else done
  }

  lemma {:induction false} EffectKeysDiffer(log: seq<Event>, a: nat, b: nat)
    requires a < b < |Effects(log)|
    ensures Effects(log)[a].key != Effects(log)[b].key
  {
    var done := Effects(log[..|log| - 1]);
    if b < |done| {
      EffectKeysDiffer(log[..|log| - 1], a, b);
    }
  }

  /** However often the client repeats itself, an idempotent server opens one session for a run
      and commits one archive for it. */
  lemma EffectsAreUnique(cfg: Config, log: seq<Event>, a: nat, b: nat)
    requires Accepted(cfg, log) && a < |Effects(log)| && b < |Effects(log)|
    requires var x, y := Effects(log)[a], Effects(log)[b];
             x.run == y.run && ((x.StartCall? && y.StartCall?) || (x.CommitCall? && y.CommitCall?))
    ensures a == b
  {
    var x, y := Effects(log)[a], Effects(log)[b];
    var i :| 0 <= i < |log| && log[i] == x;
    var j :| 0 <= j < |log| && log[j] == y;
    KeysAreImmutable(cfg, log, i);
    KeysAreImmutable(cfg, log, j);
    if x.CommitCall? {
      CommitsAgree(cfg, log, i, j);
    }
    if a < b {
      EffectKeysDiffer(log, a, b);
    } else if b < a {
      EffectKeysDiffer(log, b, a);
    }
  }

  // ---------- All of it ----------

  ghost predicate OneUpload(log: seq<Event>) {
    forall i, j :: 0 <= i < |log| && 0 <= j < |log| && log[i].UploadCall? && log[j].UploadCall? && log[i].run == log[j].run
      ==> i == j
  }

  ghost predicate OneCommit(log: seq<Event>) {
    forall i, j :: 0 <= i < |log| && 0 <= j < |log| && log[i].CommitCall? && log[j].CommitCall? && log[i].run == log[j].run
      ==> log[i] == log[j]
  }

  ghost predicate ForcedStaysForced(log: seq<Event>) {
    forall i, j :: 0 <= i < j < |log| && log[i].Saved? && log[i].record.status.ForceStop?
                   && (log[j].UploadCall? || log[j].CommitCall? || log[j].CachePublished?)
      ==> log[j].run != log[i].record.runId
  }

  ghost predicate QuietWhereNeeded(log: seq<Event>) {
    forall j :: 0 <= j < |log| && NeedsStop(log[j]) && Careful(log[..j]) ==> NobodyAlive(log[..j])
  }

  /** What holds of every history the coordinator can have. */
  lemma HistoriesAreSafe(cfg: Config, log: seq<Event>)
    requires Accepted(cfg, log) && Traced(log)
    ensures OneUpload(log) && OneCommit(log) && ForcedStaysForced(log) && QuietWhereNeeded(log)
    ensures forall i :: 0 <= i < |log| && log[i].Saved? ==> ValidRecord(log[i].record)
  {
    hide Next, Move, Careful, NobodyAlive, ValidRecord;
    forall i, j | 0 <= i < |log| && 0 <= j < |log| && log[i].UploadCall? && log[j].UploadCall? && log[i].run == log[j].run
      ensures i == j
    {
      UploadAtMostOnce(cfg, log, i, j);
    }
    forall i, j | 0 <= i < |log| && 0 <= j < |log| && log[i].CommitCall? && log[j].CommitCall? && log[i].run == log[j].run
      ensures log[i] == log[j]
    {
      CommitsAgree(cfg, log, i, j);
    }
    forall i, j | 0 <= i < j < |log| && log[i].Saved? && log[i].record.status.ForceStop?
                  && (log[j].UploadCall? || log[j].CommitCall? || log[j].CachePublished?)
      ensures log[j].run != log[i].record.runId
    {
      if log[j].run == log[i].record.runId {
        ForceStopIsFinal(cfg, log, i, j);
      }
    }
    forall j | 0 <= j < |log| && NeedsStop(log[j]) && Careful(log[..j])
      ensures NobodyAlive(log[..j])
    {
      var _ := StopOrder(cfg, log, j);
    }
    forall i | 0 <= i < |log| && log[i].Saved?
      ensures ValidRecord(log[i].record)
    {
      SavesAreValid(cfg, log, i);
    }
  }
}
