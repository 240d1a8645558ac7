/** The runner processes in a history: which of them are alive, what the coordinator's process
    remembers of them, and what it means for a runner that stopping it returned. */
module RunnerLog {
  import opened Outcomes
  import opened RecoveryState
  import opened LifecycleEvents

  datatype Track = Track(
    alive: set<Identity>,       // spawned, and not ended since
    seen: set<Identity>,        // ever spawned
    watched: set<Identity>,     // ready, and their end not yet seen, in this process of the coordinator
    closing: set<Identity>,     // closed naturally, which is still to be reported
    handle: Option<Identity>,   // the runner at hand
    flag: bool,                 // a natural close was reported and not used up
    recorded: Option<Identity>, // the runner in the record on disk
    asked: Option<Way>,         // what stopping goes for
    down: bool)                 // stopping returned, and no runner was spawned since

  const NoRunners := Track({}, {}, {}, {}, None, false, None, None, false)

  /** The way stopping takes: a reported close comes first, then the handle, then the record. */
  function WayOf(t: Track): Way {
    if t.flag then ByClose else if t.handle.Some? then ByHandle(t.handle.value) else ByRecord(t.recorded)
  }

  /** The one runner that stopping sees to. */
  function Target(way: Way): Option<Identity> {
    match way
    case ByClose => None
    case ByHandle(p) => Some(p)
    case ByRecord(recorded) => recorded
  }

  function Move(t: Track, e: Event): Option<Track> {
    match e
    case Saved(r) => Some(t.(recorded := IdentityOf(r)))
    case Removed(_) => Some(t.(recorded := None))
    case RunnerSpawned(_, p) =>
      if p in t.seen then None else Some(t.(alive := t.alive + {p}, seen := t.seen + {p}, asked := None, down := false))
    case RunnerReady(p) => if p in t.alive then Some(t.(watched := t.watched + {p}, handle := Some(p))) else None
    case RunnerEnded(p, normal) =>
      if p in t.alive then
        Some(t.(alive := t.alive - {p}, watched := t.watched - {p},
                closing := if normal && p in t.watched then t.closing + {p} else t.closing))
      else None
    case CloseReported(p) => if p in t.closing then Some(t.(closing := t.closing - {p}, flag := true)) else None
    case StopAsked(way) =>
      if way != WayOf(t) then None
      else if way.ByClose? then Some(t.(flag := false, handle := None, asked := Some(way)))
      else Some(t.(asked := Some(way)))
    case StopReturned(_) =>
      if t.asked.None? || (Target(t.asked.value).Some? && Target(t.asked.value).value in t.alive) then None
      else Some(t.(handle := if t.asked.value.ByHandle? then None else t.handle, asked := None, down := true))
    case Restarted => Some(t.(watched := {}, closing := {}, handle := None, flag := false, asked := None))
    case _ => Some(t)
  }

  /** An event that says nothing about runners. */
  predicate Plain(e: Event) {
    !Ambient(e) && !e.Saved? && !e.Removed? && !e.RunnerSpawned? && !e.StopReturned?
  }

  lemma PlainMoves(t: Track, e: Event)
    requires Plain(e)
    ensures Move(t, e) == Some(t)
  {
  }

  /** The record on disk changes or goes, and with it the runner it names. */
  lemma SaveMoves(t: Track, e: Event)
    requires e.Saved? || e.Removed?
    ensures Move(t, e) == Some(t.(recorded := if e.Saved? then IdentityOf(e.record) else None))
  {
  }

  lemma SpawnMoves(t: Track, run: RunId, p: Identity)
    requires p !in t.seen
    ensures Move(t, RunnerSpawned(run, p))
            == Some(t.(alive := t.alive + {p}, seen := t.seen + {p}, asked := None, down := false))
  {
  }

  function Trace(log: seq<Event>): Option<Track> {
    if |log| == 0 then Some(NoRunners)
    else
      var t := Trace(log[..|log| - 1]);
      if t.None? then None else Move(t.value, log[|log| - 1])
  }

  predicate Traced(log: seq<Event>) {
    Trace(log).Some?
  }

  lemma TraceAppend(log: seq<Event>, e: Event)
    requires Traced(log)
    ensures Trace(log + [e]) == Move(Trace(log).value, e)
  {
    hide Move;
    assert (log + [e])[..|log|] == log;
  }

  lemma TraceLast(log: seq<Event>)
    requires Traced(log) && |log| > 0
    ensures Traced(log[..|log| - 1]) && Trace(log) == Move(Trace(log[..|log| - 1]).value, log[|log| - 1])
  {
    hide Move;
  }

  lemma {:induction false} TracedPrefix(log: seq<Event>, n: nat)
    requires Traced(log) && n <= |log|
    ensures Traced(log[..n])
  {
    hide Move;
    if n == |log| {
      assert log[..n] == log;
    } else {
      TraceLast(log);
      TracedPrefix(log[..|log| - 1], n);
      assert log[..|log| - 1][..n] == log[..n];
    }
  }

  // ---------- Which runners are alive ----------

  ghost predicate Spawns(e: Event, p: Identity) {
    e.RunnerSpawned? && e.runner == p
  }

  ghost predicate Ends(e: Event, p: Identity) {
    e.RunnerEnded? && e.runner == p
  }

  /** The runner was spawned and has not ended. */
  ghost predicate RunnerAlive(log: seq<Event>, p: Identity) {
    exists i :: 0 <= i < |log| && Spawns(log[i], p) && forall k :: i < k < |log| ==> !Ends(log[k], p)
  }

  ghost predicate NobodyAlive(log: seq<Event>) {
    forall p :: !RunnerAlive(log, p)
  }

  lemma AliveStep(t: Track, e: Event, p: Identity)
    requires Move(t, e).Some?
    ensures p in Move(t, e).value.alive <==> (p in t.alive && !Ends(e, p)) || Spawns(e, p)
    ensures Ends(e, p) ==> p in t.alive
  {
  }

  lemma {:induction false} AliveIsSpawned(log: seq<Event>, p: Identity)
    requires Traced(log)
    ensures p in Trace(log).value.alive <==> RunnerAlive(log, p)
  {
    hide Move;
    if |log| > 0 {
      var n := |log| - 1;
      var before, e := log[..n], log[n];
      TraceLast(log);
      AliveIsSpawned(before, p);
      AliveStep(Trace(before).value, e, p);
      if RunnerAlive(before, p) && !Ends(e, p) {
        var i :| 0 <= i < n && Spawns(before[i], p) && forall k :: i < k < n ==> !Ends(before[k], p);
        assert Spawns(log[i], p) && forall k :: i < k < |log| ==> !Ends(log[k], p);
      }
      if Spawns(e, p) {
        assert Spawns(log[n], p);
      }
      if RunnerAlive(log, p) && !Spawns(e, p) {
        var i :| 0 <= i < |log| && Spawns(log[i], p) && forall k :: i < k < |log| ==> !Ends(log[k], p);
        assert Spawns(before[i], p) && forall k :: i < k < n ==> !Ends(before[k], p);
      }
    }
  }

  // ---------- When stopping spares a runner ----------

  /** Events that are all there is to a stop in which no runner ends but the one it goes for. */
  ghost predicate IsStop(log: seq<Event>, more: seq<Event>, run: RunId)
    requires Traced(log)
  {
    var way := WayOf(Trace(log).value);
    || more == [StopAsked(way), StopReturned(run)]
    || (Target(way).Some? && more == [StopAsked(way), RunnerEnded(Target(way).value, false), StopReturned(run)])
  }

  /** A runner that is alive survives some stop that returns exactly if stopping goes for
      something else: a natural close was reported, or another runner is at hand, or nothing is
      at hand and the record does not name it. */
  lemma StopSparesIff(log: seq<Event>, run: RunId, p: Identity)
    requires Traced(log) && p in Trace(log).value.alive
    ensures var t := Trace(log).value;
            (t.flag || (t.handle.Some? && t.handle.value != p) || (t.handle.None? && t.recorded != Some(p)))
            <==> exists more :: IsStop(log, more, run) && Traced(log + more) && p in Trace(log + more).value.alive
  {
    var t := Trace(log).value;
    var way := WayOf(t);
    var asked := Move(t, StopAsked(way)).value;
    if Target(way).Some? && Target(way).value in t.alive {
      ThreeEvents(log, StopAsked(way), RunnerEnded(Target(way).value, false), StopReturned(run));
    } else {
      TwoEvents(log, StopAsked(way), StopReturned(run));
    }
    if Target(way) == Some(p) {
      forall more | IsStop(log, more, run) && Traced(log + more)
        ensures p !in Trace(log + more).value.alive
      {
        StopEnds(log, more, run);
      }
    }
  }

  /** A stop that returns has ended what it went for. */
  lemma StopEnds(log: seq<Event>, more: seq<Event>, run: RunId)
    requires Traced(log) && IsStop(log, more, run) && Traced(log + more)
    ensures var way := WayOf(Trace(log).value);
            Target(way).Some? ==> Target(way).value !in Trace(log + more).value.alive
  {
    var way := WayOf(Trace(log).value);
    if |more| == 2 {
      TwoEvents(log, StopAsked(way), StopReturned(run));
    } else {
      ThreeEvents(log, StopAsked(way), RunnerEnded(Target(way).value, false), StopReturned(run));
    }
  }

  lemma TwoEvents(log: seq<Event>, a: Event, b: Event)
    requires Traced(log)
    ensures Trace(log + [a, b]) == match Move(Trace(log).value, a) case None => None case Some(t) => Move(t, b)
  {
    hide Move;
    assert (log + [a, b])[..|log| + 1] == log + [a];
    TraceAppend(log, a);
  }

  lemma ThreeEvents(log: seq<Event>, a: Event, b: Event, c: Event)
    requires Traced(log)
    ensures Trace(log + [a, b, c])
            == match Move(Trace(log).value, a)
               case None => None
               case Some(t) => match Move(t, b) case None => None case Some(u) => Move(u, c)
  {
    hide Move;
    assert (log + [a, b, c])[..|log| + 2] == log + [a, b];
    TwoEvents(log, a, b);
  }

  // ---------- Careful histories ----------

  /** What a careful history keeps to: a runner is spawned only while none is alive or at hand and
      no close is outstanding; no save forgets a live runner; and a live runner is on record when
      stopping begins. */
  predicate CarefulStep(t: Track, e: Event) {
    match e
    case RunnerSpawned(_, _) => t.alive == {} && t.closing == {} && !t.flag && t.handle.None?
    case Saved(r) => forall p :: p in t.alive ==> IdentityOf(r) == Some(p)
    case StopAsked(_) => forall p :: p in t.alive ==> t.recorded == Some(p)
    case _ => true
  }

  ghost predicate Careful(log: seq<Event>) {
    forall i :: 0 <= i < |log| && Traced(log[..i]) ==> CarefulStep(Trace(log[..i]).value, log[i])
  }

  ghost predicate AtMost(alive: set<Identity>, p: Option<Identity>) {
    forall q :: q in alive ==> p == Some(q)
  }

  ghost predicate Orderly(t: Track) {
    && (forall p, q :: p in t.alive && q in t.alive ==> p == q)
    && (t.flag || t.closing != {} || t.down ==> t.alive == {})
    && (t.handle.Some? ==> AtMost(t.alive, t.handle))
    && (t.asked.Some? ==> AtMost(t.alive, Target(t.asked.value)))
  }

  lemma OrderlyStep(t: Track, e: Event)
    requires Orderly(t) && CarefulStep(t, e) && Move(t, e).Some?
    ensures Orderly(Move(t, e).value)
  {
  }

  lemma {:induction false} CarefulIsOrderly(log: seq<Event>)
    requires Traced(log) && Careful(log)
    ensures Orderly(Trace(log).value)
  {
    hide Move, Orderly;
    if |log| == 0 {
      NoneIsOrderly();
    } else {
      var n := |log| - 1;
      TraceLast(log);
      CarefulPrefix(log, n);
      CarefulIsOrderly(log[..n]);
      assert CarefulStep(Trace(log[..n]).value, log[n]);
      OrderlyStep(Trace(log[..n]).value, log[n]);
    }
  }

  lemma NoneIsOrderly()
    ensures Orderly(NoRunners)
  {
  }

  lemma CarefulPrefix(log: seq<Event>, n: nat)
    requires Careful(log) && n <= |log|
    ensures Careful(log[..n])
  {
    forall i | 0 <= i < n && Traced(log[..n][..i])
      ensures CarefulStep(Trace(log[..n][..i]).value, log[..n][i])
    {
      assert log[..n][..i] == log[..i];
    }
  }

  /** Stopping returned, and since then no runner was spawned. */
  ghost predicate StoppedSince(log: seq<Event>, h: nat) {
    h < |log| && log[h].StopReturned? && forall k :: h < k < |log| ==> !log[k].RunnerSpawned?
  }

  lemma {:induction false} StoppedIsDown(log: seq<Event>, h: nat)
    requires Traced(log) && StoppedSince(log, h)
    ensures Trace(log).value.down
    decreases |log|
  {
    hide Move;
    var n := |log| - 1;
    TraceLast(log);
    DownStep(Trace(log[..n]).value, log[n]);
    if h < n {
      StoppedIsDown(log[..n], h);
    }
  }

  lemma DownStep(t: Track, e: Event)
    requires Move(t, e).Some?
    ensures e.StopReturned? || (t.down && !e.RunnerSpawned?) ==> Move(t, e).value.down
  {
  }

  /** In a careful history no runner at all is alive once stopping returned, until one is spawned. */
  lemma CarefulStopEndsAll(log: seq<Event>, h: nat)
    requires Traced(log) && Careful(log) && StoppedSince(log, h)
    ensures NobodyAlive(log)
  {
    hide Move;
    StoppedIsDown(log, h);
    CarefulIsOrderly(log);
    forall p
      ensures !RunnerAlive(log, p)
    {
      AliveIsSpawned(log, p);
    }
  }
}
