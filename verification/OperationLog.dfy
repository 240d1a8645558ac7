/** What one operation adds to the history: which kinds of events, and which answers. */
module OperationLog {
  import opened Outcomes
  import opened RecoveryState
  import opened LifecycleEvents
  import opened LifecycleLog

  /** What an event is part of. Telling changes nothing outside but runners, licenses and the
      existence of the record. */
  datatype Kind = Starting | Carrying | Forcing | Rolling | Resolving | Saving | Telling

  function KindOf(e: Event): Kind {
    match e
    case LicenseAcquired(_) | StartCall(_, _) | StartAnswered(_, _, _) | Restored(_, _) | RunnerSpawned(_, _) => Starting
    case ArchiveCreated(_, _) | UploadCall(_, _) | CommitCall(_, _, _, _) => Carrying
    case CommitAnswered(_, _) | CachePublished(_, _, _) => Carrying
    case ForceCall(_, _, _) | ForceAnswered(_, _) => Forcing
    case RollbackCall(_, _, _) | RollbackAnswered(_, _) => Rolling
    case Resolved(_, _) => Resolving
    case Saved(r) => if r.status.ForceStop? then Forcing else Saving
    case _ => Telling
  }

  /** How many events of each kind there are; telling is not counted. */
  datatype Tally = Tally(starts: nat, carries: nat, forces: nat, rollbacks: nat, resolves: nat, saves: nat)

  function Counted(t: Tally, kind: Kind): Tally {
    match kind
    case Starting => t.(starts := t.starts + 1)
    case Carrying => t.(carries := t.carries + 1)
    case Forcing => t.(forces := t.forces + 1)
    case Rolling => t.(rollbacks := t.rollbacks + 1)
    case Resolving => t.(resolves := t.resolves + 1)
    case Saving => t.(saves := t.saves + 1)
    case Telling => t
  }

  function Sum(log: seq<Event>): Tally {
    if |log| == 0 then Tally(0, 0, 0, 0, 0, 0) else Counted(Sum(log[..|log| - 1]), KindOf(log[|log| - 1]))
  }

  lemma SumAppend(log: seq<Event>, e: Event)
    ensures Sum(log + [e]) == Counted(Sum(log), KindOf(e))
  {
    assert (log + [e])[..|log|] == log;
  }

  /** From one tally to the other only these kinds were counted. */
  predicate Grows(t: Tally, u: Tally, kinds: set<Kind>) {
    && (Starting in kinds || u.starts == t.starts)
    && (Carrying in kinds || u.carries == t.carries)
    && (Forcing in kinds || u.forces == t.forces)
    && (Rolling in kinds || u.rollbacks == t.rollbacks)
    && (Resolving in kinds || u.resolves == t.resolves)
    && (Saving in kinds || u.saves == t.saves)
  }

  /** The new part of a history has events of these kinds only, apart from telling. */
  ghost predicate Only(before: seq<Event>, after: seq<Event>, kinds: set<Kind>) {
    forall i :: |before| <= i < |after| ==> KindOf(after[i]) == Telling || KindOf(after[i]) in kinds
  }

  ghost predicate AtLeast(t: Tally, u: Tally) {
    && t.starts <= u.starts && t.carries <= u.carries && t.forces <= u.forces
    && t.rollbacks <= u.rollbacks && t.resolves <= u.resolves && t.saves <= u.saves
  }

  lemma {:induction false} SumGrows(before: seq<Event>, after: seq<Event>)
    requires before <= after
    ensures AtLeast(Sum(before), Sum(after))
    decreases |after|
  {
    if before != after {
      SumGrows(before, after[..|after| - 1]);
    }
  }

  /** What was not counted did not happen. */
  lemma {:induction false} GrowsIsOnly(before: seq<Event>, after: seq<Event>, kinds: set<Kind>)
    requires before <= after && Grows(Sum(before), Sum(after), kinds)
    ensures Only(before, after, kinds)
    decreases |after|
  {
    if before != after {
      var n := |after| - 1;
      SumGrows(before, after[..n]);
      GrowsIsOnly(before, after[..n], kinds);
      forall i | |before| <= i < |after|
        ensures KindOf(after[i]) == Telling || KindOf(after[i]) in kinds
      {
        assert i < n ==> after[i] == after[..n][i];
      }
    }
  }

  /** The event is in the new part of the history. */
  ghost predicate Heard(before: seq<Event>, after: seq<Event>, e: Event) {
    exists i :: |before| <= i < |after| && after[i] == e
  }

  lemma HeardLast(before: seq<Event>, log: seq<Event>, e: Event)
    requires |before| <= |log|
    ensures Heard(before, log + [e], e)
  {
    assert (log + [e])[|log|] == e;
  }

  lemma HeardWithin(a: seq<Event>, b: seq<Event>, c: seq<Event>, d: seq<Event>, e: Event)
    requires |a| <= |b| && c <= d && Heard(b, c, e)
    ensures Heard(a, d, e)
  {
    var i :| |b| <= i < |c| && c[i] == e;
    assert d[i] == e;
  }

  /** The answer that a stop of this record hands on: the server's report that the session is
      stopped already, or its acknowledgement of the commit. */
  ghost predicate Settled(cfg: Config, r: Record, before: seq<Event>, after: seq<Event>, answer: Session) {
    && r.remoteSession == Some(answer.id) && answer.profile == cfg.profile
    && (|| (Heard(before, after, StatusAnswered(r.runId, answer)) && (answer.stateStopped || answer.statusStopped))
        || (Heard(before, after, CommitAnswered(r.runId, answer)) && answer.stateStopped && answer.statusStopped
            && answer.generation.Some?))
  }

  /** The server was asked about the session of the record, and said whether it is stopped. */
  ghost predicate Consulted(cfg: Config, r: Record, before: seq<Event>, after: seq<Event>, stopped: bool) {
    exists answer: Session ::
      && Heard(before, after, StatusAnswered(r.runId, answer))
      && r.remoteSession == Some(answer.id) && answer.profile == cfg.profile
      && (answer.stateStopped || answer.statusStopped) == stopped
  }

  lemma ConsultedWithin(cfg: Config, r: Record, a: seq<Event>, b: seq<Event>, c: seq<Event>, stopped: bool)
    requires b <= c && Consulted(cfg, r, a, b, stopped)
    ensures Consulted(cfg, r, a, c, stopped)
  {
    var answer: Session :| Heard(a, b, StatusAnswered(r.runId, answer))
      && r.remoteSession == Some(answer.id) && answer.profile == cfg.profile
      && (answer.stateStopped || answer.statusStopped) == stopped;
    assert |a| <= |b|;
    HeardWithin(a, a, b, c, StatusAnswered(r.runId, answer));
  }

  lemma {:induction false} UsedGrows(cfg: Config, before: seq<Event>, after: seq<Event>)
    requires Accepted(cfg, before) && Accepted(cfg, after) && before <= after
    ensures Scan(cfg, before).value.used <= Scan(cfg, after).value.used
    decreases |after|
  {
    if before != after {
      var n := |after| - 1;
      ScanLast(cfg, after);
      ScanSane(cfg, after[..n]);
      SaneStep(cfg, Scan(cfg, after[..n]).value, after[n]);
      UsedGrows(cfg, before, after[..n]);
    }
  }

  /** How the current run can be left: by a removal, or by a run that nobody used before. */
  lemma RunStays(cfg: Config, m: Monitor, e: Event)
    requires m.run.Some? && Next(cfg, m, e).Some?
    ensures var m' := Next(cfg, m, e).value;
            || (m'.run.Some? && m'.run.value.id == m.run.value.id)
            || (e == Removed(m.run.value.id) && m'.run.None?)
            || exists r :: r in m'.used && r !in m.used
  {
    hide Allowed, ValidRecord;
    if e.Saved? && e.record.runId != m.run.value.id {
      assert e.record.runId in Next(cfg, m, e).value.used;
    }
  }

  /** An answer to a request that says, about this session, that it is stopped. */
  ghost predicate Confirmed(cfg: Config, r: Record, answer: Session) {
    r.remoteSession == Some(answer.id) && answer.profile == cfg.profile && answer.stateStopped && answer.statusStopped
  }

  /** While no run begins, the current run stays until its record is removed. */
  lemma {:induction false} StaysOrRemoved(cfg: Config, before: seq<Event>, after: seq<Event>)
    requires Accepted(cfg, before) && Accepted(cfg, after) && before <= after
    requires Scan(cfg, before).value.run.Some? && Scan(cfg, after).value.used <= Scan(cfg, before).value.used
    ensures var run := Scan(cfg, before).value.run.value.id;
            || (Scan(cfg, after).value.run.Some? && Scan(cfg, after).value.run.value.id == run)
            || Heard(before, after, Removed(run))
    decreases |after|
  {
    hide Next;
    if before != after {
      var n := |after| - 1;
      var run := Scan(cfg, before).value.run.value.id;
      ScanLast(cfg, after);
      var m := Scan(cfg, after[..n]).value;
      UsedGrows(cfg, before, after[..n]);
      ScanSane(cfg, after[..n]);
      SaneStep(cfg, m, after[n]);
      StaysOrRemoved(cfg, before, after[..n]);
      if Heard(before, after[..n], Removed(run)) {
        HeardWithin(before, before, after[..n], after, Removed(run));
      } else {
        RunStays(cfg, m, after[n]);
        assert after[n] == Removed(run) ==> Heard(before, after, Removed(run));
      }
    }
  }

  /** A save of a run makes it a used one. */
  lemma SavedIsUsed(cfg: Config, log: seq<Event>, i: nat)
    requires Accepted(cfg, log) && i < |log| && log[i].Saved?
    ensures log[i].record.runId in Scan(cfg, log).value.used
  {
    PastIsUsed(cfg, log, i);
  }

  /** A record of this run is saved. */
  ghost predicate Begins(before: seq<Event>, after: seq<Event>, run: RunId) {
    exists i :: |before| <= i < |after| && after[i].Saved? && after[i].record.runId == run
  }

  /** What was on disk does not keep a start from beginning another run: there was nothing, the
      record was removed, or it is past running. */
  ghost predicate GivesWay(disk: Option<Record>, before: seq<Event>, after: seq<Event>) {
    || disk.None?
    || disk.value.status in {Done, ArchiveReady, UploadPending, ForceStop}
    || Heard(before, after, Removed(disk.value.runId))
  }

  lemma WayIsGiven(disk: Option<Record>, before: seq<Event>, between: seq<Event>, after: seq<Event>)
    requires |before| <= |between| && between <= after && GivesWay(disk, before, between)
    ensures GivesWay(disk, before, after)
  {
    if disk.Some? && Heard(before, between, Removed(disk.value.runId)) {
      HeardWithin(before, before, between, after, Removed(disk.value.runId));
    }
  }
}
