/** Two histories: an ordinary run, which is careful, and one in which a live profile is archived,
    because a natural close is reported, the stop it causes fails before using the report up, and
    the next run is stopped with it. */
module RunnerHistories {
  import opened Outcomes
  import opened RecoveryState
  import opened LifecycleEvents
  import opened RunnerLog
  import opened LifecycleLog

  // ---------- Following a history from where it stands ----------

  function Follow(cfg: Config, m: Monitor, events: seq<Event>): Option<Monitor>
    decreases |events|
  {
    if |events| == 0 then Some(m)
    else
      var next := Next(cfg, m, events[0]);
      if next.None? then None else Follow(cfg, next.value, events[1..])
  }

  function FollowTrack(t: Track, events: seq<Event>): Option<Track>
    decreases |events|
  {
    if |events| == 0 then Some(t)
    else
      var next := Move(t, events[0]);
      if next.None? then None else FollowTrack(next.value, events[1..])
  }

  lemma {:induction false} ScanFollows(cfg: Config, log: seq<Event>, more: seq<Event>)
    requires Accepted(cfg, log) && Follow(cfg, Scan(cfg, log).value, more).Some?
    ensures Scan(cfg, log + more) == Follow(cfg, Scan(cfg, log).value, more)
    decreases |more|
  {
    hide Next;
    if |more| == 0 {
      assert log + more == log;
    } else {
      ScanAppend(cfg, log, more[0]);
      assert log + more == (log + [more[0]]) + more[1..];
      ScanFollows(cfg, log + [more[0]], more[1..]);
    }
  }

  lemma {:induction false} TraceFollows(log: seq<Event>, more: seq<Event>)
    requires Traced(log) && FollowTrack(Trace(log).value, more).Some?
    ensures Trace(log + more) == FollowTrack(Trace(log).value, more)
    decreases |more|
  {
    hide Move;
    if |more| == 0 {
      assert log + more == log;
    } else {
      TraceAppend(log, more[0]);
      assert log + more == (log + [more[0]]) + more[1..];
      TraceFollows(log + [more[0]], more[1..]);
    }
  }

  lemma FollowCons(cfg: Config, m: Monitor, e: Event, rest: seq<Event>, m': Monitor)
    requires Next(cfg, m, e) == Some(m')
    ensures Follow(cfg, m, [e] + rest) == Follow(cfg, m', rest)
  {
    hide Next;
    assert ([e] + rest)[1..] == rest;
  }

  lemma TrackCons(t: Track, e: Event, rest: seq<Event>, t': Track)
    requires Move(t, e) == Some(t')
    ensures FollowTrack(t, [e] + rest) == FollowTrack(t', rest)
  {
    hide Move;
    assert ([e] + rest)[1..] == rest;
  }

  // ---------- An ordinary start ----------

  function AtLicense(run: RunId): Record {
    NewRecord(run).(status := License)
  }

  function AtRemote(run: RunId): Record {
    AtLicense(run).(remoteSession := Some(run), status := RemoteActive)
  }

  function AtSpawn(run: RunId): Record {
    AtRemote(run).(archiveMaterialized := true, launchFile := Some(run), status := SpawnIntent)
  }

  function AtRunning(run: RunId, p: Identity): Record {
    WithRunner(AtSpawn(run), p).(browserLaunched := true, status := Running)
  }

  /** What a start without a license leaves in the history; the session comes with no archive. */
  function Asking(run: RunId): seq<Event> {
    [Saved(NewRecord(run))] + ([Saved(AtLicense(run))] + ([StartCall(run, StartKey(run))] + Answering(run)))
  }

  function Answering(run: RunId): seq<Event> {
    [StartAnswered(run, run, None)] + [Saved(AtRemote(run))]
  }

  function Launching(run: RunId, p: Identity): seq<Event> {
    [Saved(AtRemote(run).(archiveMaterialized := true, status := ArchiveMaterialized))]
    + ([Saved(AtSpawn(run))]
       + ([RunnerSpawned(run, p)]
          + ([Saved(WithRunner(AtSpawn(run), p))] + ([RunnerReady(p)] + [Saved(AtRunning(run, p))]))))
  }

  function Asked(run: RunId): View {
    NewView(run).(asked := true, session := Some(run), base := NOTHING_LAID.(offered := Some((run, None))))
  }

  /** ... and once the work directory is ready. */
  function LaidView(run: RunId): View {
    Asked(run).(base := Asked(run).base.(laid := true))
  }

  lemma AskingFollows(cfg: Config, m: Monitor, run: RunId)
    requires run !in m.used && (m.run.Some? ==> m.run.value.id in m.used)
    ensures Follow(cfg, m, Asking(run)) == Some(Monitor(m.used + {run}, Some(Asked(run))))
  {
    var used := m.used + {run};
    var a := Monitor(used, Some(NewView(run)));
    var b := Monitor(used, Some(NewView(run).(asked := true)));
    var b2 := Monitor(used, Some(NewView(run).(asked := true, base := NOTHING_LAID.(offered := Some((run, None))))));
    var c := Monitor(used, Some(Asked(run)));
    assert Next(cfg, m, Saved(NewRecord(run))) == Some(a);
    assert Next(cfg, a, Saved(AtLicense(run))) == Some(a);
    assert Next(cfg, a, StartCall(run, StartKey(run))) == Some(b);
    assert Next(cfg, b, StartAnswered(run, run, None)) == Some(b2);
    assert Next(cfg, b2, Saved(AtRemote(run))) == Some(c);
    hide Next, AtLicense, AtRemote;
    FollowCons(cfg, b2, Saved(AtRemote(run)), [], c);
    assert [Saved(AtRemote(run))] + [] == [Saved(AtRemote(run))];
    FollowCons(cfg, b, StartAnswered(run, run, None), [Saved(AtRemote(run))], b2);
    hide Answering;
    FollowCons(cfg, a, StartCall(run, StartKey(run)), Answering(run), b);
    FollowCons(cfg, a, Saved(AtLicense(run)), [StartCall(run, StartKey(run))] + Answering(run), a);
    FollowCons(cfg, m, Saved(NewRecord(run)), [Saved(AtLicense(run))] + ([StartCall(run, StartKey(run))] + Answering(run)), a);
  }

  /** Events that tell the monitor nothing new. */
  lemma {:induction false} Stays(cfg: Config, m: Monitor, events: seq<Event>)
    requires forall e :: e in events ==> Next(cfg, m, e) == Some(m)
    ensures Follow(cfg, m, events) == Some(m)
    decreases |events|
  {
    hide Next;
    if |events| > 0 {
      assert events[0] in events;
      Stays(cfg, m, events[1..]);
    }
  }

  lemma LaunchingFollows(cfg: Config, used: set<RunId>, run: RunId, p: Identity)
    ensures Follow(cfg, Monitor(used, Some(Asked(run))), Launching(run, p)) == Some(Monitor(used, Some(LaidView(run))))
  {
    var m, n := Monitor(used, Some(Asked(run))), Monitor(used, Some(LaidView(run)));
    var first := Saved(AtRemote(run).(archiveMaterialized := true, status := ArchiveMaterialized));
    var second, third, fourth := Saved(AtSpawn(run)), RunnerSpawned(run, p), Saved(WithRunner(AtSpawn(run), p));
    var fifth, last := RunnerReady(p), Saved(AtRunning(run, p));
    assert Next(cfg, m, first) == Some(n) && Next(cfg, n, second) == Some(n) && Next(cfg, n, third) == Some(n);
    assert Next(cfg, n, fourth) == Some(n) && Next(cfg, n, fifth) == Some(n) && Next(cfg, n, last) == Some(n);
    assert Launching(run, p) == [first] + ([second] + ([third] + ([fourth] + ([fifth] + [last]))));
    hide Next, Launching, AtRemote, AtSpawn, AtRunning, WithRunner;
    FollowCons(cfg, n, last, [], n);
    assert [last] + [] == [last];
    FollowCons(cfg, n, fifth, [last], n);
    FollowCons(cfg, n, fourth, [fifth] + [last], n);
    FollowCons(cfg, n, third, [fourth] + ([fifth] + [last]), n);
    FollowCons(cfg, n, second, [third] + ([fourth] + ([fifth] + [last])), n);
    FollowCons(cfg, m, first, [second] + ([third] + ([fourth] + ([fifth] + [last]))), n);
  }

  lemma AskingTraces(t: Track, run: RunId)
    ensures FollowTrack(t, Asking(run)) == Some(t.(recorded := None))
  {
    var u := t.(recorded := None);
    assert Move(t, Saved(NewRecord(run))) == Some(u) && Move(u, Saved(AtLicense(run))) == Some(u);
    assert Move(u, StartCall(run, StartKey(run))) == Some(u) && Move(u, StartAnswered(run, run, None)) == Some(u);
    assert Move(u, Saved(AtRemote(run))) == Some(u);
    hide Move, AtLicense, AtRemote;
    TrackCons(u, Saved(AtRemote(run)), [], u);
    assert [Saved(AtRemote(run))] + [] == [Saved(AtRemote(run))];
    TrackCons(u, StartAnswered(run, run, None), [Saved(AtRemote(run))], u);
    hide Answering;
    TrackCons(u, StartCall(run, StartKey(run)), Answering(run), u);
    TrackCons(u, Saved(AtLicense(run)), [StartCall(run, StartKey(run))] + Answering(run), u);
    TrackCons(t, Saved(NewRecord(run)), [Saved(AtLicense(run))] + ([StartCall(run, StartKey(run))] + Answering(run)), u);
  }

  function Launched(t: Track, p: Identity): Track {
    t.(alive := t.alive + {p}, seen := t.seen + {p}, watched := t.watched + {p}, handle := Some(p), recorded := Some(p),
       asked := None, down := false)
  }

  lemma LaunchingTraces(t: Track, run: RunId, p: Identity)
    requires p !in t.seen && t.recorded.None?
    ensures FollowTrack(t, Launching(run, p)) == Some(Launched(t, p))
  {
    var first, second, fourth := AtRemote(run).(archiveMaterialized := true, status := ArchiveMaterialized),
                                 AtSpawn(run), WithRunner(AtSpawn(run), p);
    var last := AtRunning(run, p);
    var u := t.(alive := t.alive + {p}, seen := t.seen + {p}, asked := None, down := false);
    var v := u.(recorded := Some(p));
    var w := Launched(t, p);
    assert Move(t, Saved(first)) == Some(t) && Move(t, Saved(second)) == Some(t);
    assert Move(t, RunnerSpawned(run, p)) == Some(u) && Move(u, Saved(fourth)) == Some(v);
    assert Move(v, RunnerReady(p)) == Some(w) && Move(w, Saved(last)) == Some(w);
    hide Move, AtRemote, AtSpawn, AtRunning, Launched, WithRunner;
    TrackCons(w, Saved(last), [], w);
    assert [Saved(last)] + [] == [Saved(last)];
    TrackCons(v, RunnerReady(p), [Saved(last)], w);
    TrackCons(u, Saved(fourth), [RunnerReady(p)] + [Saved(last)], v);
    TrackCons(t, RunnerSpawned(run, p), [Saved(fourth)] + ([RunnerReady(p)] + [Saved(last)]), u);
    TrackCons(t, Saved(second), [RunnerSpawned(run, p)] + ([Saved(fourth)] + ([RunnerReady(p)] + [Saved(last)])), t);
    TrackCons(t, Saved(first),
              [Saved(second)] + ([RunnerSpawned(run, p)] + ([Saved(fourth)] + ([RunnerReady(p)] + [Saved(last)]))), t);
  }

  // ---------- The history ----------

  function Ready(run: RunId, p: Identity): Record {
    AtRunning(run, p).(status := ArchiveReady)
  }

  /** The browser closes; the stop gets as far as its first save. */
  function Closing(run: RunId, p: Identity): seq<Event> {
    [RunnerEnded(p, true), CloseReported(p), Saved(Ready(run, p))]
  }

  /** The next stop finds the report and looks no further. */
  function Stopping(run: RunId, q: Identity): seq<Event> {
    [Saved(Ready(run, q)), StopAsked(ByClose), StopReturned(run),
     Saved(WithoutRunner(Ready(run, q)).(launchFile := None))]
  }

  function History(p: Identity, q: Identity): seq<Event> {
    Asking(0) + Launching(0, p) + Closing(0, p) + Asking(1) + Launching(1, q) + Stopping(1, q)
  }

  lemma ClosingFollows(cfg: Config, used: set<RunId>, run: RunId, p: Identity)
    ensures var m := Monitor(used, Some(LaidView(run))); Follow(cfg, m, Closing(run, p)) == Some(m)
  {
    var m := Monitor(used, Some(LaidView(run)));
    Stays(cfg, m, Closing(run, p));
  }

  lemma ClosingTraces(t: Track, run: RunId, p: Identity)
    requires t.alive == {p} && p in t.watched && t.recorded == Some(p)
    ensures FollowTrack(t, Closing(run, p))
            == Some(t.(alive := {}, watched := t.watched - {p}, closing := t.closing + {p} - {p}, flag := true))
  {
    var u := t.(alive := {}, watched := t.watched - {p}, closing := t.closing + {p});
    var v := u.(closing := u.closing - {p}, flag := true);
    assert t.alive - {p} == {};
    assert Move(t, RunnerEnded(p, true)) == Some(u) && Move(u, CloseReported(p)) == Some(v);
    assert Move(v, Saved(Ready(run, p))) == Some(v);
    hide Move, Ready;
    TrackCons(v, Saved(Ready(run, p)), [], v);
    TrackCons(u, CloseReported(p), [Saved(Ready(run, p))], v);
    TrackCons(t, RunnerEnded(p, true), [CloseReported(p)] + [Saved(Ready(run, p))], u);
    assert [Saved(Ready(run, p))] + [] == [Saved(Ready(run, p))];
    assert Closing(run, p) == [RunnerEnded(p, true)] + ([CloseReported(p)] + [Saved(Ready(run, p))]);
  }

  lemma StoppingFollows(cfg: Config, used: set<RunId>, run: RunId, q: Identity)
    ensures Follow(cfg, Monitor(used, Some(LaidView(run))), Stopping(run, q))
            == Some(Monitor(used, Some(LaidView(run).(stopReturned := true))))
  {
    var m, n := Monitor(used, Some(LaidView(run))), Monitor(used, Some(LaidView(run).(stopReturned := true)));
    var ready, cleared := Ready(run, q), WithoutRunner(Ready(run, q)).(launchFile := None);
    assert Next(cfg, m, Saved(ready)) == Some(m) && Next(cfg, m, StopAsked(ByClose)) == Some(m);
    assert Next(cfg, m, StopReturned(run)) == Some(n) && Next(cfg, n, Saved(cleared)) == Some(n);
    hide Next, Ready, WithoutRunner;
    FollowCons(cfg, n, Saved(cleared), [], n);
    FollowCons(cfg, m, StopReturned(run), [Saved(cleared)], n);
    FollowCons(cfg, m, StopAsked(ByClose), [StopReturned(run)] + [Saved(cleared)], m);
    FollowCons(cfg, m, Saved(ready), [StopAsked(ByClose)] + ([StopReturned(run)] + [Saved(cleared)]), m);
    assert [Saved(cleared)] + [] == [Saved(cleared)];
    assert Stopping(run, q) == [Saved(ready)] + ([StopAsked(ByClose)] + ([StopReturned(run)] + [Saved(cleared)]));
  }

  lemma StoppingTraces(t: Track, run: RunId, q: Identity)
    requires t.flag && t.recorded == Some(q)
    ensures FollowTrack(t, Stopping(run, q)).Some? && FollowTrack(t, Stopping(run, q)).value.alive == t.alive
  {
    var ready, cleared := Ready(run, q), WithoutRunner(Ready(run, q)).(launchFile := None);
    var u := t.(flag := false, handle := None, asked := Some(ByClose));
    var v := u.(asked := None, down := true);
    var w := v.(recorded := None);
    assert Move(t, Saved(ready)) == Some(t) && Move(t, StopAsked(ByClose)) == Some(u);
    assert Move(u, StopReturned(run)) == Some(v) && Move(v, Saved(cleared)) == Some(w);
    hide Move, Ready, WithoutRunner;
    TrackCons(v, Saved(cleared), [], w);
    TrackCons(u, StopReturned(run), [Saved(cleared)], v);
    TrackCons(t, StopAsked(ByClose), [StopReturned(run)] + [Saved(cleared)], u);
    TrackCons(t, Saved(ready), [StopAsked(ByClose)] + ([StopReturned(run)] + [Saved(cleared)]), t);
    assert [Saved(cleared)] + [] == [Saved(cleared)];
    assert Stopping(run, q) == [Saved(ready)] + ([StopAsked(ByClose)] + ([StopReturned(run)] + [Saved(cleared)]));
  }

  lemma HistoryIsAccepted(cfg: Config, p: Identity, q: Identity)
    ensures Scan(cfg, History(p, q)) == Some(Monitor({0, 1}, Some(LaidView(1).(stopReturned := true))))
  {
    hide Next, Asking, Launching, Closing, Stopping, LaidView, Asked, Follow;
    AskedIs(0);
    AskingFollows(cfg, FirstMonitor, 0);
    assert FirstMonitor.used + {0} == {0} && {0} + {1} == {0, 1};
    assert [] + Asking(0) == Asking(0);
    ScanFollows(cfg, [], Asking(0));
    LaunchingFollows(cfg, {0}, 0, p);
    ScanFollows(cfg, Asking(0), Launching(0, p));
    ClosingFollows(cfg, {0}, 0, p);
    ScanFollows(cfg, Asking(0) + Launching(0, p), Closing(0, p));
    AskingFollows(cfg, Monitor({0}, Some(LaidView(0))), 1);
    ScanFollows(cfg, Asking(0) + Launching(0, p) + Closing(0, p), Asking(1));
    LaunchingFollows(cfg, {0, 1}, 1, q);
    ScanFollows(cfg, Asking(0) + Launching(0, p) + Closing(0, p) + Asking(1), Launching(1, q));
    StoppingFollows(cfg, {0, 1}, 1, q);
    ScanFollows(cfg, Asking(0) + Launching(0, p) + Closing(0, p) + Asking(1) + Launching(1, q), Stopping(1, q));
  }

  lemma AskedIs(run: RunId)
    ensures LaidView(run).id == run
  {
  }

  lemma HistoryIsTraced(p: Identity, q: Identity)
    requires p != q
    ensures Traced(History(p, q)) && Trace(History(p, q)).value.alive == {q}
  {
    hide Move, Asking, Launching, Closing, Stopping, FollowTrack;
    AskingTraces(NoRunners, 0);
    assert [] + Asking(0) == Asking(0);
    TraceFollows([], Asking(0));
    LaunchingTraces(NoRunners, 0, p);
    TraceFollows(Asking(0), Launching(0, p));
    var t := Launched(NoRunners, p);
    ClosingTraces(t, 0, p);
    TraceFollows(Asking(0) + Launching(0, p), Closing(0, p));
    var u := t.(alive := {}, watched := t.watched - {p}, closing := t.closing + {p} - {p}, flag := true);
    AskingTraces(u, 1);
    TraceFollows(Asking(0) + Launching(0, p) + Closing(0, p), Asking(1));
    LaunchingTraces(u.(recorded := None), 1, q);
    TraceFollows(Asking(0) + Launching(0, p) + Closing(0, p) + Asking(1), Launching(1, q));
    var w := Launched(u.(recorded := None), q);
    StoppingTraces(w, 1, q);
    TraceFollows(Asking(0) + Launching(0, p) + Closing(0, p) + Asking(1) + Launching(1, q), Stopping(1, q));
    assert w.alive == {q};
  }

  /** After this history the archive of the second run may be created while its runner lives. */
  lemma LiveRunnerIsArchived(cfg: Config, p: Identity, q: Identity, d: Digest)
    requires p != q
    ensures var log := History(p, q);
            && Accepted(cfg, log + [ArchiveCreated(1, d)]) && Traced(log + [ArchiveCreated(1, d)])
            && RunnerAlive(log, q)
  {
    hide History, LaidView;
    var log, e := History(p, q), ArchiveCreated(1, d);
    HistoryIsAccepted(cfg, p, q);
    HistoryIsTraced(p, q);
    AliveIsSpawned(log, q);
    ScanAppend(cfg, log, e);
    TraceAppend(log, e);
    ArchiveAllowed(cfg, d);
  }

  lemma ArchiveAllowed(cfg: Config, d: Digest)
    ensures Next(cfg, Monitor({0, 1}, Some(LaidView(1).(stopReturned := true))), ArchiveCreated(1, d)).Some?
  {
  }

  /** That history was not careful: the second runner was spawned on an unused report. */
  lemma HistoryIsCareless(p: Identity, q: Identity)
    requires p != q
    ensures !Careful(History(p, q))
  {
    var log := History(p, q);
    var h: nat := |log| - 2;
    assert Stopping(1, q)[2] == StopReturned(1) && log[h] == Stopping(1, q)[2] && log[h + 1] == Stopping(1, q)[3];
    hide History, Move;
    HistoryIsTraced(p, q);
    AliveIsSpawned(log, q);
    if Careful(log) {
      CarefulStopEndsAll(log, h);
    }
  }

  // ---------- An ordinary run ----------

  /** Following a history that stays careful. */
  function FollowCareful(t: Track, events: seq<Event>): Option<Track>
    decreases |events|
  {
    if |events| == 0 then Some(t)
    else
      var next := Move(t, events[0]);
      if next.None? || !CarefulStep(t, events[0]) then None else FollowCareful(next.value, events[1..])
  }

  lemma CarefulCons(t: Track, e: Event, rest: seq<Event>, t': Track)
    requires Move(t, e) == Some(t') && CarefulStep(t, e)
    ensures FollowCareful(t, [e] + rest) == FollowCareful(t', rest)
  {
    hide Move, CarefulStep;
    assert ([e] + rest)[1..] == rest;
  }

  lemma {:induction false} CarefulFollows(log: seq<Event>, more: seq<Event>)
    requires Traced(log) && Careful(log) && FollowCareful(Trace(log).value, more).Some?
    ensures Careful(log + more) && Trace(log + more) == FollowCareful(Trace(log).value, more)
    decreases |more|
  {
    hide Move, CarefulStep;
    if |more| == 0 {
      assert log + more == log;
    } else {
      TraceAppend(log, more[0]);
      CarefulExtends(log, more[0]);
      assert log + more == (log + [more[0]]) + more[1..];
      CarefulFollows(log + [more[0]], more[1..]);
    }
  }

  lemma CarefulExtends(log: seq<Event>, e: Event)
    requires Traced(log) && Careful(log) && CarefulStep(Trace(log).value, e)
    ensures Careful(log + [e])
  {
    hide CarefulStep;
    var more := log + [e];
    forall i | 0 <= i < |more| && Traced(more[..i])
      ensures CarefulStep(Trace(more[..i]).value, more[i])
    {
      assert more[..i] == log[..i];
      assert i == |log| ==> log[..i] == log;
    }
  }

  lemma AskingIsCareful(t: Track, run: RunId)
    requires t.alive == {}
    ensures FollowCareful(t, Asking(run)) == Some(t.(recorded := None))
  {
    var u := t.(recorded := None);
    assert Move(t, Saved(NewRecord(run))) == Some(u) && Move(u, Saved(AtLicense(run))) == Some(u);
    assert Move(u, StartCall(run, StartKey(run))) == Some(u) && Move(u, StartAnswered(run, run, None)) == Some(u);
    assert Move(u, Saved(AtRemote(run))) == Some(u);
    hide Move, AtLicense, AtRemote;
    CarefulCons(u, Saved(AtRemote(run)), [], u);
    assert [Saved(AtRemote(run))] + [] == [Saved(AtRemote(run))];
    CarefulCons(u, StartAnswered(run, run, None), [Saved(AtRemote(run))], u);
    hide Answering;
    CarefulCons(u, StartCall(run, StartKey(run)), Answering(run), u);
    CarefulCons(u, Saved(AtLicense(run)), [StartCall(run, StartKey(run))] + Answering(run), u);
    CarefulCons(t, Saved(NewRecord(run)), [Saved(AtLicense(run))] + ([StartCall(run, StartKey(run))] + Answering(run)), u);
  }

  lemma LaunchingIsCareful(t: Track, run: RunId, p: Identity)
    requires p !in t.seen && t.recorded.None? && t.alive == {} && t.closing == {} && !t.flag && t.handle.None?
    ensures FollowCareful(t, Launching(run, p)) == Some(Launched(t, p))
  {
    var first, second, fourth := AtRemote(run).(archiveMaterialized := true, status := ArchiveMaterialized),
                                 AtSpawn(run), WithRunner(AtSpawn(run), p);
    var last := AtRunning(run, p);
    var u := t.(alive := t.alive + {p}, seen := t.seen + {p}, asked := None, down := false);
    var v := u.(recorded := Some(p));
    var w := Launched(t, p);
    assert Move(t, Saved(first)) == Some(t) && Move(t, Saved(second)) == Some(t);
    assert Move(t, RunnerSpawned(run, p)) == Some(u) && Move(u, Saved(fourth)) == Some(v);
    assert Move(v, RunnerReady(p)) == Some(w) && Move(w, Saved(last)) == Some(w);
    assert CarefulStep(u, Saved(fourth)) && CarefulStep(w, Saved(last)) && CarefulStep(t, RunnerSpawned(run, p));
    assert CarefulStep(t, Saved(first)) && CarefulStep(t, Saved(second)) && CarefulStep(v, RunnerReady(p));
    hide Move, CarefulStep, AtRemote, AtSpawn, AtRunning, Launched, WithRunner;
    CarefulCons(w, Saved(last), [], w);
    assert [Saved(last)] + [] == [Saved(last)];
    CarefulCons(v, RunnerReady(p), [Saved(last)], w);
    CarefulCons(u, Saved(fourth), [RunnerReady(p)] + [Saved(last)], v);
    CarefulCons(t, RunnerSpawned(run, p), [Saved(fourth)] + ([RunnerReady(p)] + [Saved(last)]), u);
    CarefulCons(t, Saved(second), [RunnerSpawned(run, p)] + ([Saved(fourth)] + ([RunnerReady(p)] + [Saved(last)])), t);
    CarefulCons(t, Saved(first),
                [Saved(second)] + ([RunnerSpawned(run, p)] + ([Saved(fourth)] + ([RunnerReady(p)] + [Saved(last)]))), t);
  }

  /** The stop of a running browser, up to its archive. */
  function Archiving(run: RunId, p: Identity, d: Digest): seq<Event> {
    [Saved(Ready(run, p)), StopAsked(ByHandle(p)), RunnerEnded(p, false), StopReturned(run),
     Saved(WithoutRunner(Ready(run, p)).(launchFile := None)), ArchiveCreated(run, d)]
  }

  lemma ArchivingIsCareful(t: Track, run: RunId, p: Identity, d: Digest)
    requires t.alive == {p} && t.recorded == Some(p) && t.handle == Some(p) && !t.flag
    ensures FollowCareful(t, Archiving(run, p, d)).Some?
  {
    var ready, cleared := Ready(run, p), WithoutRunner(Ready(run, p)).(launchFile := None);
    var a := t.(asked := Some(ByHandle(p)));
    var b := a.(alive := {}, watched := a.watched - {p});
    var c := b.(handle := None, asked := None, down := true);
    var z := c.(recorded := None);
    assert t.alive - {p} == {};
    assert Move(t, Saved(ready)) == Some(t) && Move(t, StopAsked(ByHandle(p))) == Some(a);
    assert Move(a, RunnerEnded(p, false)) == Some(b) && Move(b, StopReturned(run)) == Some(c);
    assert Move(c, Saved(cleared)) == Some(z) && Move(z, ArchiveCreated(run, d)) == Some(z);
    assert CarefulStep(t, Saved(ready)) && CarefulStep(c, Saved(cleared));
    hide Move, Ready, WithoutRunner;
    CarefulCons(z, ArchiveCreated(run, d), [], z);
    CarefulCons(c, Saved(cleared), [ArchiveCreated(run, d)], z);
    CarefulCons(b, StopReturned(run), [Saved(cleared)] + [ArchiveCreated(run, d)], c);
    CarefulCons(a, RunnerEnded(p, false), [StopReturned(run)] + ([Saved(cleared)] + [ArchiveCreated(run, d)]), b);
    CarefulCons(t, StopAsked(ByHandle(p)),
                [RunnerEnded(p, false)] + ([StopReturned(run)] + ([Saved(cleared)] + [ArchiveCreated(run, d)])), a);
    CarefulCons(t, Saved(ready),
                [StopAsked(ByHandle(p))]
                + ([RunnerEnded(p, false)] + ([StopReturned(run)] + ([Saved(cleared)] + [ArchiveCreated(run, d)]))), t);
    assert [ArchiveCreated(run, d)] + [] == [ArchiveCreated(run, d)];
    assert Archiving(run, p, d)
           == [Saved(ready)]
              + ([StopAsked(ByHandle(p))]
                 + ([RunnerEnded(p, false)] + ([StopReturned(run)] + ([Saved(cleared)] + [ArchiveCreated(run, d)]))));
  }

  /** Starting, stopping and archiving in the ordinary way is careful. */
  lemma OrdinaryRunIsCareful(p: Identity, d: Digest)
    ensures var log := Asking(0) + Launching(0, p) + Archiving(0, p, d); Traced(log) && Careful(log)
  {
    hide Move, CarefulStep, Asking, Launching, Archiving, FollowCareful;
    AskingIsCareful(NoRunners, 0);
    assert [] + Asking(0) == Asking(0) && Careful([]);
    CarefulFollows([], Asking(0));
    LaunchingIsCareful(NoRunners, 0, p);
    CarefulFollows(Asking(0), Launching(0, p));
    assert {} + {p} == {p};
    ArchivingIsCareful(Launched(NoRunners, p), 0, p, d);
    CarefulFollows(Asking(0) + Launching(0, p), Archiving(0, p, d));
  }
}
