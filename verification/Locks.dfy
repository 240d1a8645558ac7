/** The lock protocol: in each process a queue of tasks for one lock path, and between processes
    a lock file that names its owner and is reclaimed when the owner is dead. A step of any task,
    an arrival, a birth or a death can come at any time. */
module Locks {
  import opened Outcomes

  /** A process for its whole life: a process id together with its start time. */
  type Pid = nat

  /** The content of a lock file. Two acquisitions of a process may have the same stamp. */
  datatype Owner = Owner(pid: Pid, stamp: nat)

  /** Where a task is between its arrival and its end. */
  datatype Phase =
    | Waiting                   // for the task before it in the process
    | Trying                    // about to create the file
    | Reading                   // the file existed
    | Probing(owner: Owner)     // asking whether the owner lives
    | Condemning(owner: Owner)  // the owner is dead; its file must go
    | Unlinking                 // the file was the dead owner's when it was compared
    | Holding
    | Releasing                 // the file was the task's own when it was compared
    | Leaving                   // the file is released, or was never got
    | Done

  /** A task remembers the task whose end it waits for; none if there was nobody to wait for. */
  datatype Task = Task(previous: Option<nat>, stamp: nat, phase: Phase)

  /** A process; its mutex entry is the last task that arrived, unless that one has left. */
  datatype Process = Process(alive: bool, tail: Option<nat>, tasks: seq<Task>)

  datatype World = World(file: Option<Owner>, processes: map<Pid, Process>)

  datatype Step =
    | Born(p: Pid)
    | Dies(p: Pid)
    | Arrives(p: Pid, stamp: nat)
    | Enters(p: Pid, t: nat)
    | Creates(p: Pid, t: nat)
    | Reads(p: Pid, t: nat)
    | Probes(p: Pid, t: nat)
    | Compares(p: Pid, t: nat)
    | Removes(p: Pid, t: nat)
    | Fails(p: Pid, t: nat)
    | GivesUp(p: Pid, t: nat)
    | Releases(p: Pid, t: nat, works: bool)
    | Drops(p: Pid, t: nat, works: bool)
    | Leaves(p: Pid, t: nat)

  const EMPTY := World(None, map[])

  predicate Alive(w: World, p: Pid) {
    p in w.processes && w.processes[p].alive
  }

  /** A task that can take a step. */
  predicate Runs(w: World, p: Pid, t: nat) {
    Alive(w, p) && t < |w.processes[p].tasks|
  }

  function TaskOf(w: World, p: Pid, t: nat): Task
    requires Runs(w, p, t)
  {
    w.processes[p].tasks[t]
  }

  predicate In(w: World, p: Pid, t: nat, phase: Phase) {
    Runs(w, p, t) && TaskOf(w, p, t).phase == phase
  }

  /** What the task writes into the lock file. */
  function Own(w: World, p: Pid, t: nat): Owner
    requires Runs(w, p, t)
  {
    Owner(p, TaskOf(w, p, t).stamp)
  }

  /** A live task whose turn it is and that has not begun to let go of the lock file. */
  predicate Held(w: World, p: Pid, t: nat) {
    In(w, p, t, Holding) || In(w, p, t, Releasing)
  }

  /** The phases of looking into a lock file that is in the way. */
  predicate Reclaims(phase: Phase) {
    phase.Reading? || phase.Probing? || phase.Condemning? || phase.Unlinking?
  }

  function Put(w: World, p: Pid, t: nat, phase: Phase): World
    requires Runs(w, p, t)
  {
    var process := w.processes[p];
    w.(processes := w.processes[p := process.(tasks := process.tasks[t := process.tasks[t].(phase := phase)])])
  }

  function Apply(w: World, step: Step): World {
    match step
    case Born(p) =>
      if p in w.processes then w else w.(processes := w.processes[p := Process(true, None, [])])
    case Dies(p) =>
      if Alive(w, p) then w.(processes := w.processes[p := w.processes[p].(alive := false)]) else w
    case Arrives(p, stamp) =>
      if Alive(w, p) then
        var process := w.processes[p];
        w.(processes := w.processes[p :=
          process.(tail := Some(|process.tasks|), tasks := process.tasks + [Task(process.tail, stamp, Waiting)])])
      else w
    case Enters(p, t) =>
      if In(w, p, t, Waiting) && Resolved(w.processes[p], TaskOf(w, p, t).previous) then Put(w, p, t, Trying) else w
    case Creates(p, t) =>
      if !In(w, p, t, Trying) then w
      else if w.file.Some? then Put(w, p, t, Reading)
      else Put(w, p, t, Holding).(file := Some(Own(w, p, t)))
    case Reads(p, t) =>
      if !In(w, p, t, Reading) then w
      else Put(w, p, t, if w.file.Some? then Probing(w.file.value) else Trying)
    case Probes(p, t) =>
      if Runs(w, p, t) && TaskOf(w, p, t).phase.Probing? then
        var owner := TaskOf(w, p, t).phase.owner;
        Put(w, p, t, if Alive(w, owner.pid) then Trying else Condemning(owner))
      else w
    case Compares(p, t) =>
      if Runs(w, p, t) && TaskOf(w, p, t).phase.Condemning? then
        Put(w, p, t, if w.file == Some(TaskOf(w, p, t).phase.owner) then Unlinking else Trying)
      else w
    case Removes(p, t) =>
      if In(w, p, t, Unlinking) then Put(w, p, t, Trying).(file := None) else w
    case Fails(p, t) =>
      if Runs(w, p, t) && Reclaims(TaskOf(w, p, t).phase) then Put(w, p, t, Trying) else w
    case GivesUp(p, t) =>
      if In(w, p, t, Trying) then Put(w, p, t, Leaving) else w
    case Releases(p, t, works) =>
      if In(w, p, t, Holding) then
        Put(w, p, t, if works && w.file == Some(Own(w, p, t)) then Releasing else Leaving)
      else w
    case Drops(p, t, works) =>
      if In(w, p, t, Releasing) then Put(w, p, t, Leaving).(file := if works then None else w.file) else w
    case Leaves(p, t) =>
      if In(w, p, t, Leaving) then
        var left := Put(w, p, t, Done);
        left.(processes := left.processes[p := left.processes[p].(tail :=
          if left.processes[p].tail == Some(t) then None else left.processes[p].tail)])
      else w
  }

  /** A promise of the queue: resolved once the task it stands for is done. */
  predicate Resolved(process: Process, previous: Option<nat>) {
    previous.None? || (previous.value < |process.tasks| && process.tasks[previous.value].phase.Done?)
  }

  function Run(w: World, steps: seq<Step>): World {
    if |steps| == 0 then w else Apply(Run(w, steps[..|steps| - 1]), steps[|steps| - 1])
  }

  // ---------- The queue of a process ----------

  /** The tasks before this one are done. */
  predicate Foremost(process: Process, t: nat)
    requires t <= |process.tasks|
  {
    forall u :: 0 <= u < t ==> process.tasks[u].phase.Done?
  }

  predicate Orderly(process: Process) {
    && (process.tail.None? ==> Foremost(process, |process.tasks|))
    && (process.tail.Some? ==> process.tail.value + 1 == |process.tasks|)
    && (forall t :: 0 <= t < |process.tasks| ==>
          var previous := process.tasks[t].previous;
          && (previous.Some? ==> previous.value + 1 == t)
          && (previous.None? ==> Foremost(process, t))
          && (!process.tasks[t].phase.Waiting? ==> Foremost(process, t)))
  }

  // ---------- The lock file ----------

  predicate Dead(w: World, p: Pid) {
    p in w.processes && !w.processes[p].alive
  }

  /** A live holder's file is there and names it; a condemned owner is dead. */
  predicate Safe(w: World, p: Pid, t: nat) {
    Runs(w, p, t) ==>
      match TaskOf(w, p, t).phase
      case Holding => w.file == Some(Own(w, p, t))
      case Releasing => w.file == Some(Own(w, p, t))
      case Condemning(owner) => Dead(w, owner.pid)
      case Probing(owner) => owner.pid in w.processes
      case _ => true
  }

  ghost predicate Guarded(w: World) {
    && (forall p: Pid, t: nat :: Safe(w, p, t))
    && (w.file.Some? ==> w.file.value.pid in w.processes)
  }

  ghost predicate Queued(w: World) {
    forall p :: p in w.processes ==> Orderly(w.processes[p])
  }

  /** A deletion of the lock file that was meant for a stale one takes a live holder's. */
  ghost predicate Meets(w: World, step: Step) {
    && step.Removes? && In(w, step.p, step.t, Unlinking)
    && exists q: Pid, u: nat :: Held(w, q, u) && w.file == Some(Own(w, q, u))
  }

  /** No step of a run takes a live holder's file. */
  ghost predicate Harmless(steps: seq<Step>) {
    forall n :: 0 <= n < |steps| ==> !Meets(Run(EMPTY, steps[..n]), steps[n])
  }

  /** The file of every live holder is there and names it. */
  ghost predicate HoldersKeep(w: World) {
    forall p: Pid, t: nat :: Held(w, p, t) ==> w.file == Some(Own(w, p, t))
  }

  lemma PutOrderly(process: Process, t: nat, phase: Phase)
    requires Orderly(process) && t < |process.tasks| && Foremost(process, t) && !process.tasks[t].phase.Done?
    ensures var after := process.(tasks := process.tasks[t := process.tasks[t].(phase := phase)]);
            && Orderly(after)
            && (phase.Done? ==> Orderly(after.(tail := if after.tail == Some(t) then None else after.tail)))
  {
  }

  lemma ArrivalOrderly(process: Process, stamp: nat)
    requires Orderly(process)
    ensures Orderly(process.(tail := Some(|process.tasks|), tasks := process.tasks + [Task(process.tail, stamp, Waiting)]))
  {
  }

  /** A task whose turn it is has everything before it done. */
  lemma TurnIsForemost(process: Process, t: nat)
    requires Orderly(process) && t < |process.tasks|
    requires !process.tasks[t].phase.Waiting? || Resolved(process, process.tasks[t].previous)
    ensures Foremost(process, t)
  {
    if process.tasks[t].phase.Waiting? && process.tasks[t].previous.Some? {
      assert Foremost(process, t - 1);
    }
  }

  lemma OrderlyKept(w: World, step: Step, p: Pid)
    requires Queued(w) && p in Apply(w, step).processes
    ensures Orderly(Apply(w, step).processes[p])
  {
    hide Orderly, Foremost, Resolved;
    match step {
      case Born(q) => BornOrderly();
      case Dies(q) => if Alive(w, q) { DeathOrderly(w.processes[q]); }
      case Arrives(q, stamp) => if Alive(w, q) { ArrivalOrderly(w.processes[q], stamp); }
      case Enters(q, t) => TaskOrderly(w, q, t);
      case Creates(q, t) => TaskOrderly(w, q, t);
      case Reads(q, t) => TaskOrderly(w, q, t);
      case Probes(q, t) => TaskOrderly(w, q, t);
      case Compares(q, t) => TaskOrderly(w, q, t);
      case Removes(q, t) => TaskOrderly(w, q, t);
      case Fails(q, t) => TaskOrderly(w, q, t);
      case GivesUp(q, t) => TaskOrderly(w, q, t);
      case Releases(q, t, _) => TaskOrderly(w, q, t);
      case Drops(q, t, _) => TaskOrderly(w, q, t);
      case Leaves(q, t) => TaskOrderly(w, q, t);
    }
  }

  lemma BornOrderly()
    ensures Orderly(Process(true, None, []))
  {
  }

  lemma DeathOrderly(process: Process)
    requires Orderly(process)
    ensures Orderly(process.(alive := false))
  {
  }

  /** Any phase may follow when a task's turn has come and it is not done. */
  lemma TaskOrderly(w: World, p: Pid, t: nat)
    requires Queued(w)
    ensures Runs(w, p, t) && !TaskOf(w, p, t).phase.Done?
            && (!TaskOf(w, p, t).phase.Waiting? || Resolved(w.processes[p], TaskOf(w, p, t).previous)) ==>
              forall phase :: var after := Put(w, p, t, phase).processes[p];
                && Orderly(after)
                && (phase.Done? ==> Orderly(after.(tail := if after.tail == Some(t) then None else after.tail)))
  {
    hide Orderly, Foremost, Resolved;
    if Runs(w, p, t) && !TaskOf(w, p, t).phase.Done?
       && (!TaskOf(w, p, t).phase.Waiting? || Resolved(w.processes[p], TaskOf(w, p, t).previous)) {
      TurnIsForemost(w.processes[p], t);
      forall phase {
        PutOrderly(w.processes[p], t, phase);
      }
    }
  }

  /** Two running tasks that are past waiting are one task. */
  lemma OneTurn(w: World, p: Pid, t: nat, u: nat)
    requires Queued(w) && Runs(w, p, t) && Runs(w, p, u)
    requires !TaskOf(w, p, t).phase.Waiting? && !TaskOf(w, p, t).phase.Done?
    requires !TaskOf(w, p, u).phase.Waiting? && !TaskOf(w, p, u).phase.Done?
    ensures t == u
  {
    assert Orderly(w.processes[p]);
  }

  lemma DeadStays(w: World, step: Step)
    ensures forall p :: Dead(w, p) ==> Dead(Apply(w, step), p)
    ensures forall p :: p in w.processes ==> p in Apply(w, step).processes
    ensures forall p :: p in w.processes ==> (Dead(w, p) <==> !Alive(w, p))
    ensures forall p :: Dead(w, p) ==> p in w.processes
  {
  }

  lemma GuardedKept(w: World, step: Step)
    requires Guarded(w) && Queued(w) && !Meets(w, step)
    ensures Guarded(Apply(w, step))
  {
    hide Queued, Dead;
    var w' := Apply(w, step);
    DeadStays(w, step);
    if (step.Releases? || step.Drops?) && Held(w, step.p, step.t) {
      ReleaseGuarded(w, step);
    } else {
      forall q: Pid, u: nat
        ensures Safe(w', q, u)
      {
        assert Safe(w, q, u);
        if step.Probes? {
          assert Safe(w, step.p, step.t);
        }
      }
    }
  }

  lemma ReleaseGuarded(w: World, step: Step)
    requires Guarded(w) && Queued(w) && (step.Releases? || step.Drops?) && Held(w, step.p, step.t)
    ensures Guarded(Apply(w, step))
  {
    hide Queued;
    GuardedKeeps(w);
    var w' := Apply(w, step);
    forall q: Pid, u: nat
      ensures Safe(w', q, u)
    {
      assert Safe(w, q, u);
      if Held(w, q, u) {
        OneHolder(w, q, u, step.p, step.t);
      }
    }
  }

  lemma OneHolder(w: World, p: Pid, t: nat, q: Pid, u: nat)
    requires HoldersKeep(w) && Queued(w) && Held(w, p, t) && Held(w, q, u)
    ensures p == q && t == u
  {
    hide Queued;
    OneTurn(w, p, t, u);
  }

  lemma {:induction false} QueuedHolds(steps: seq<Step>)
    ensures Queued(Run(EMPTY, steps))
  {
    hide Apply, Orderly;
    if |steps| > 0 {
      var before, step := Run(EMPTY, steps[..|steps| - 1]), steps[|steps| - 1];
      QueuedHolds(steps[..|steps| - 1]);
      forall p | p in Apply(before, step).processes {
        OrderlyKept(before, step, p);
      }
    }
  }

  lemma PrefixHarmless(steps: seq<Step>, n: nat)
    requires Harmless(steps) && n <= |steps|
    ensures Harmless(steps[..n])
  {
    hide Meets, Run;
    forall i | 0 <= i < n
      ensures !Meets(Run(EMPTY, steps[..n][..i]), steps[..n][i])
    {
      assert steps[..n][..i] == steps[..i];
    }
  }

  lemma {:induction false} GuardedHolds(steps: seq<Step>)
    requires Harmless(steps)
    ensures Guarded(Run(EMPTY, steps))
  {
    hide Apply, Orderly, Safe, Meets;
    if |steps| == 0 {
      EmptyGuarded();
    } else {
      var n := |steps| - 1;
      PrefixHarmless(steps, n);
      GuardedHolds(steps[..n]);
      QueuedHolds(steps[..n]);
      GuardedKept(Run(EMPTY, steps[..n]), steps[n]);
    }
  }

  lemma EmptyGuarded()
    ensures Guarded(EMPTY)
  {
  }

  // ---------- What the protocol is for ----------

  /** While a live task holds the lock, the file is its own - exactly as long as no deletion
      that was meant for a stale file takes the file of a live holder. */
  lemma HoldersKeepIff(steps: seq<Step>)
    ensures (forall n :: 0 <= n <= |steps| ==> HoldersKeep(Run(EMPTY, steps[..n]))) <==> Harmless(steps)
  {
    hide Run, Orderly;
    if Harmless(steps) {
      forall n | 0 <= n <= |steps|
        ensures HoldersKeep(Run(EMPTY, steps[..n]))
      {
        PrefixHarmless(steps, n);
        GuardedHolds(steps[..n]);
        GuardedKeeps(Run(EMPTY, steps[..n]));
      }
    }
    if n :| 0 <= n < |steps| && Meets(Run(EMPTY, steps[..n]), steps[n]) {
      MeetTakes(Run(EMPTY, steps[..n]), steps[n]);
      assert steps[..n + 1] == steps[..n] + [steps[n]];
      RunLast(EMPTY, steps[..n], steps[n]);
      assert !HoldersKeep(Run(EMPTY, steps[..n + 1]));
    }
  }

  lemma GuardedKeeps(w: World)
    requires Guarded(w)
    ensures HoldersKeep(w)
  {
    forall p: Pid, t: nat | Held(w, p, t)
      ensures w.file == Some(Own(w, p, t))
    {
      assert Safe(w, p, t);
    }
  }

  lemma MeetTakes(w: World, step: Step)
    requires Meets(w, step)
    ensures !HoldersKeep(Apply(w, step))
  {
    var q: Pid, u: nat :| Held(w, q, u) && w.file == Some(Own(w, q, u));
    assert Held(Apply(w, step), q, u);
  }

  /** At most one live task holds the lock. */
  ghost predicate Exclusive(w: World) {
    forall p: Pid, t: nat, q: Pid, u: nat :: Held(w, p, t) && Held(w, q, u) ==> p == q && t == u
  }

  /** However steps interleave and processes die, at most one live task holds the lock as long
      as no live holder's file is taken. */
  lemma MutualExclusion(steps: seq<Step>)
    requires Harmless(steps)
    ensures Exclusive(Run(EMPTY, steps))
  {
    hide Run, Guarded, Queued, HoldersKeep, Held;
    GuardedHolds(steps);
    GuardedKeeps(Run(EMPTY, steps));
    QueuedHolds(steps);
    forall p: Pid, t: nat, q: Pid, u: nat | Held(Run(EMPTY, steps), p, t) && Held(Run(EMPTY, steps), q, u)
      ensures p == q && t == u
    {
      OneHolder(Run(EMPTY, steps), p, t, q, u);
    }
  }

  /** The task that took a live holder's file can hold the lock next to that holder at once. */
  lemma TakingAdmitsTwo(w: World, step: Step)
    requires Meets(w, step)
    ensures var last := Apply(Apply(w, step), Creates(step.p, step.t));
            && In(last, step.p, step.t, Holding)
            && exists q: Pid, u: nat :: (q, u) != (step.p, step.t) && Held(last, q, u)
  {
    var q: Pid, u: nat :| Held(w, q, u) && w.file == Some(Own(w, q, u));
    var after := Put(w, step.p, step.t, Trying).(file := None);
    var last := Put(after, step.p, step.t, Holding).(file := Some(Own(after, step.p, step.t)));
    assert Apply(w, step) == after;
    assert Apply(after, Creates(step.p, step.t)) == last;
    assert (q, u) != (step.p, step.t);
    assert Held(last, q, u);
  }

  /** Mutual exclusion is never one creation of the file away from failing - exactly as long as
      no live holder's file is taken. */
  lemma ExclusiveIff(steps: seq<Step>)
    ensures Harmless(steps) <==>
            forall n, p, t :: 0 <= n <= |steps| ==> Exclusive(Run(EMPTY, steps[..n] + [Creates(p, t)]))
  {
    hide Run, Exclusive, Meets;
    if Harmless(steps) {
      forall n, p, t | 0 <= n <= |steps|
        ensures Exclusive(Run(EMPTY, steps[..n] + [Creates(p, t)]))
      {
        PrefixHarmless(steps, n);
        assert !Meets(Run(EMPTY, steps[..n]), Creates(p, t)) by { CreatingTakesNothing(Run(EMPTY, steps[..n]), p, t); }
        assert (steps[..n] + [Creates(p, t)])[..n] == steps[..n];
        LastHarmless(steps[..n] + [Creates(p, t)]);
        MutualExclusion(steps[..n] + [Creates(p, t)]);
      }
    }
    if n :| 0 <= n < |steps| && Meets(Run(EMPTY, steps[..n]), steps[n]) {
      MeetIsDeletion(Run(EMPTY, steps[..n]), steps[n]);
      var next := Creates(steps[n].p, steps[n].t);
      TakingAdmitsTwo(Run(EMPTY, steps[..n]), steps[n]);
      assert steps[..n + 1] == steps[..n] + [steps[n]];
      RunLast(EMPTY, steps[..n], steps[n]);
      RunLast(EMPTY, steps[..n + 1], next);
      TwoAreNotExclusive(Run(EMPTY, steps[..n + 1] + [next]), steps[n].p, steps[n].t);
    }
  }

  lemma CreatingTakesNothing(w: World, p: Pid, t: nat)
    ensures !Meets(w, Creates(p, t))
  {
  }

  lemma MeetIsDeletion(w: World, step: Step)
    requires Meets(w, step)
    ensures step.Removes?
  {
  }

  lemma TwoAreNotExclusive(w: World, p: Pid, t: nat)
    requires In(w, p, t, Holding) && exists q: Pid, u: nat :: (q, u) != (p, t) && Held(w, q, u)
    ensures !Exclusive(w)
  {
    var q: Pid, u: nat :| (q, u) != (p, t) && Held(w, q, u);
    assert Held(w, p, t) && (q != p || u != t);
  }

  // ---------- Two ways to keep runs harmless ----------

  /** What a task does right after comparing is to delete, if it lives and can. */
  predicate Atomic(steps: seq<Step>) {
    forall n :: 0 < n < |steps| && steps[n - 1].Compares? ==>
      var p, t := steps[n - 1].p, steps[n - 1].t;
      steps[n] == Removes(p, t) || steps[n] == Fails(p, t) || steps[n] == Dies(p)
  }

  /** The file is one that a dead process left. */
  predicate Stale(w: World) {
    w.file.Some? && Dead(w, w.file.value.pid)
  }

  lemma StaleMeetsNobody(w: World, step: Step)
    requires step.Removes? && In(w, step.p, step.t, Unlinking) ==> Stale(w)
    ensures !Meets(w, step)
  {
  }

  lemma ComparedIsStale(w: World, step: Step, p: Pid, t: nat)
    requires Guarded(w) && !In(w, p, t, Unlinking) && In(Apply(w, step), p, t, Unlinking)
    ensures step == Compares(p, t) && Stale(Apply(w, step))
  {
    assert Safe(w, p, t);
  }

  lemma UnlinkingEnds(w: World, step: Step, p: Pid, t: nat)
    requires step == Removes(p, t) || step == Fails(p, t) || step == Dies(p)
    ensures !In(Apply(w, step), p, t, Unlinking)
  {
  }

  lemma {:induction false} AtomicUnlinks(steps: seq<Step>, p: Pid, t: nat)
    requires Atomic(steps) && Harmless(steps) && In(Run(EMPTY, steps), p, t, Unlinking)
    ensures |steps| > 0 && steps[|steps| - 1] == Compares(p, t) && Stale(Run(EMPTY, steps))
  {
    hide Guarded, Harmless, Stale, Apply;
    if |steps| > 0 {
      var n := |steps| - 1;
      PrefixHarmless(steps, n);
      assert n > 0 ==> steps[..n][n - 1] == steps[n - 1];
      if In(Run(EMPTY, steps[..n]), p, t, Unlinking) {
        AtomicUnlinks(steps[..n], p, t);
        UnlinkingEnds(Run(EMPTY, steps[..n]), steps[n], p, t);
        assert false;
      } else {
        GuardedHolds(steps[..n]);
        ComparedIsStale(Run(EMPTY, steps[..n]), steps[n], p, t);
      }
    }
  }

  /** If nothing comes between comparing and deleting, no live holder's file is taken. */
  lemma {:induction false} AtomicIsHarmless(steps: seq<Step>)
    requires Atomic(steps)
    ensures Harmless(steps)
  {
    if |steps| > 0 {
      var n := |steps| - 1;
      AtomicIsHarmless(steps[..n]);
      if steps[n].Removes? && In(Run(EMPTY, steps[..n]), steps[n].p, steps[n].t, Unlinking) {
        AtomicUnlinks(steps[..n], steps[n].p, steps[n].t);
      }
      StaleMeetsNobody(Run(EMPTY, steps[..n]), steps[n]);
      LastHarmless(steps);
    }
  }

  lemma LastHarmless(steps: seq<Step>)
    requires |steps| > 0 && Harmless(steps[..|steps| - 1])
    requires !Meets(Run(EMPTY, steps[..|steps| - 1]), steps[|steps| - 1])
    ensures Harmless(steps)
  {
    hide Meets, Run;
    var n := |steps| - 1;
    forall i | 0 <= i < |steps|
      ensures !Meets(Run(EMPTY, steps[..i]), steps[i])
    {
      if i < n {
        assert steps[..n][..i] == steps[..i] && steps[..n][i] == steps[i];
      }
    }
  }

  /** Whether a task has found an owner dead and not yet deleted the file. */
  predicate Sweeps(w: World, p: Pid, t: nat) {
    Runs(w, p, t) && (TaskOf(w, p, t).phase.Condemning? || TaskOf(w, p, t).phase.Unlinking?)
  }

  ghost predicate OneSweeps(w: World) {
    forall p: Pid, t: nat, q: Pid, u: nat :: Sweeps(w, p, t) && Sweeps(w, q, u) ==> p == q && t == u
  }

  /** At no time two live tasks are about to delete a file that they found stale. */
  ghost predicate TakesTurns(steps: seq<Step>) {
    forall n :: 0 <= n <= |steps| ==> OneSweeps(Run(EMPTY, steps[..n]))
  }

  lemma StaleStays(w: World, step: Step, p: Pid, t: nat)
    requires Guarded(w) && OneSweeps(w) && Stale(w)
    requires In(w, p, t, Unlinking) && In(Apply(w, step), p, t, Unlinking)
    ensures Stale(Apply(w, step))
  {
    DeadStays(w, step);
    assert Sweeps(w, p, t);
    if step.Removes? && In(w, step.p, step.t, Unlinking) {
      assert Sweeps(w, step.p, step.t);
    }
    if step.Drops? {
      assert Safe(w, step.p, step.t);
    }
  }

  lemma {:induction false} TurnsAreStale(steps: seq<Step>, p: Pid, t: nat)
    requires TakesTurns(steps) && Harmless(steps) && In(Run(EMPTY, steps), p, t, Unlinking)
    ensures Stale(Run(EMPTY, steps))
  {
    hide Guarded, Harmless, Stale, OneSweeps, TakesTurns;
    if |steps| > 0 {
      var n := |steps| - 1;
      PrefixHarmless(steps, n);
      PrefixTurns(steps, n);
      GuardedHolds(steps[..n]);
      if In(Run(EMPTY, steps[..n]), p, t, Unlinking) {
        TurnsAreStale(steps[..n], p, t);
        StaleStays(Run(EMPTY, steps[..n]), steps[n], p, t);
      } else {
        ComparedIsStale(Run(EMPTY, steps[..n]), steps[n], p, t);
      }
    }
  }

  lemma PrefixTurns(steps: seq<Step>, n: nat)
    requires TakesTurns(steps) && n <= |steps|
    ensures TakesTurns(steps[..n]) && OneSweeps(Run(EMPTY, steps[..n]))
  {
    hide OneSweeps, Run;
    forall i | 0 <= i <= n
      ensures OneSweeps(Run(EMPTY, steps[..n][..i]))
    {
      assert steps[..n][..i] == steps[..i];
    }
  }

  /** If the tasks that found a file stale take turns, no live holder's file is taken: it is
      enough that one process at a time reclaims. */
  lemma {:induction false} TurnsAreHarmless(steps: seq<Step>)
    requires TakesTurns(steps)
    ensures Harmless(steps)
  {
    hide OneSweeps, TakesTurns;
    if |steps| > 0 {
      var n := |steps| - 1;
      PrefixTurns(steps, n);
      TurnsAreHarmless(steps[..n]);
      if steps[n].Removes? && In(Run(EMPTY, steps[..n]), steps[n].p, steps[n].t, Unlinking) {
        TurnsAreStale(steps[..n], steps[n].p, steps[n].t);
      }
      StaleMeetsNobody(Run(EMPTY, steps[..n]), steps[n]);
      LastHarmless(steps);
    }
  }

  // ---------- The queue ----------

  /** A task of a process comes to the file only after every task that arrived before it there
      is done, so tasks get the lock in the order of their arrival. */
  lemma FirstComeFirstServed(steps: seq<Step>, p: Pid, t: nat, u: nat)
    requires Runs(Run(EMPTY, steps), p, t) && u < t
    requires !TaskOf(Run(EMPTY, steps), p, t).phase.Waiting?
    ensures TaskOf(Run(EMPTY, steps), p, u).phase.Done?
  {
    hide Run;
    QueuedHolds(steps);
    assert Orderly(Run(EMPTY, steps).processes[p]);
  }

  /** The queue never gets stuck: the first task that is not done can go on. */
  lemma QueueMoves(steps: seq<Step>, p: Pid, t: nat)
    requires Runs(Run(EMPTY, steps), p, t) && Foremost(Run(EMPTY, steps).processes[p], t)
    requires In(Run(EMPTY, steps), p, t, Waiting)
    ensures In(Run(EMPTY, steps + [Enters(p, t)]), p, t, Trying)
  {
    hide Run;
    QueuedHolds(steps);
    var w := Run(EMPTY, steps);
    assert Orderly(w.processes[p]);
    assert Resolved(w.processes[p], TaskOf(w, p, t).previous);
    RunLast(EMPTY, steps, Enters(p, t));
  }

  /** Whoever gives up or is through lets the next task of its process go on, and the last one
      leaves no entry behind. */
  lemma EndedGivesWay(w: World, p: Pid, t: nat)
    requires In(w, p, t, Trying) || In(w, p, t, Leaving)
    ensures var gone := Apply(if In(w, p, t, Trying) then Apply(w, GivesUp(p, t)) else w, Leaves(p, t));
            && gone.file == w.file && In(gone, p, t, Done)
            && (w.processes[p].tail == Some(t) ==> gone.processes[p].tail.None?)
            && (w.processes[p].tail != Some(t) ==> gone.processes[p].tail == w.processes[p].tail)
            && (In(w, p, t + 1, Waiting) && TaskOf(w, p, t + 1).previous == Some(t) ==>
                  In(Apply(gone, Enters(p, t + 1)), p, t + 1, Trying))
  {
    var left := if In(w, p, t, Trying) then Put(w, p, t, Leaving) else w;
    assert In(left, p, t, Leaving) && left == if In(w, p, t, Trying) then Apply(w, GivesUp(p, t)) else w;
    var gone := Apply(left, Leaves(p, t));
    assert In(gone, p, t, Done);
    if In(w, p, t + 1, Waiting) && TaskOf(w, p, t + 1).previous == Some(t) {
      assert In(gone, p, t + 1, Waiting) && TaskOf(gone, p, t + 1).previous == Some(t);
    }
  }

  // ---------- A stale file ----------

  lemma RunLast(w: World, steps: seq<Step>, step: Step)
    ensures Run(w, steps + [step]) == Apply(Run(w, steps), step)
  {
    assert (steps + [step])[..|steps|] == steps;
  }

  lemma RunThree(w: World, a: Step, b: Step, c: Step)
    ensures Run(w, [a, b, c]) == Apply(Apply(Apply(w, a), b), c)
  {
    hide Apply;
    RunLast(w, [], a);
    RunLast(w, [a], b);
    RunLast(w, [a, b], c);
    assert [] + [a] == [a] && [a] + [b] == [a, b] && [a, b] + [c] == [a, b, c];
  }

  lemma RunAppend(w: World, a: seq<Step>, b: seq<Step>)
    ensures Run(w, a + b) == Run(Run(w, a), b)
  {
    hide Apply;
    if |b| == 0 {
      assert a + b == a;
    } else {
      var n := |b| - 1;
      RunAppend(w, a, b[..n]);
      assert (a + b)[..|a + b| - 1] == a + b[..n];
    }
  }

  function Approach(p: Pid, t: nat): seq<Step> {
    [Creates(p, t), Reads(p, t), Probes(p, t), Compares(p, t)]
  }

  lemma PutTwice(w: World, p: Pid, t: nat, a: Phase, b: Phase)
    requires Runs(w, p, t)
    ensures Put(Put(w, p, t, a), p, t, b) == Put(w, p, t, b)
  {
    var tasks := w.processes[p].tasks;
    assert tasks[t := tasks[t].(phase := a)][t := tasks[t].(phase := b)] == tasks[t := tasks[t].(phase := b)];
  }

  lemma ApproachCompares(w: World, p: Pid, t: nat)
    requires In(w, p, t, Trying) && w.file.Some? && !Alive(w, w.file.value.pid)
    ensures Run(w, Approach(p, t)) == Put(w, p, t, Unlinking)
  {
    var owner := w.file.value;
    PutTwice(w, p, t, Reading, Probing(owner));
    PutTwice(w, p, t, Probing(owner), Condemning(owner));
    PutTwice(w, p, t, Condemning(owner), Unlinking);
    assert Apply(w, Creates(p, t)) == Put(w, p, t, Reading);
    assert Apply(Put(w, p, t, Reading), Reads(p, t)) == Put(w, p, t, Probing(owner));
    assert Apply(Put(w, p, t, Probing(owner)), Probes(p, t)) == Put(w, p, t, Condemning(owner));
    assert Apply(Put(w, p, t, Condemning(owner)), Compares(p, t)) == Put(w, p, t, Unlinking);
    hide Apply;
    RunThree(w, Creates(p, t), Reads(p, t), Probes(p, t));
    RunLast(w, [Creates(p, t), Reads(p, t), Probes(p, t)], Compares(p, t));
    assert [Creates(p, t), Reads(p, t), Probes(p, t)] + [Compares(p, t)] == Approach(p, t);
  }

  lemma RemoveAndCreate(w: World, p: Pid, t: nat)
    requires In(w, p, t, Unlinking)
    ensures Run(w, [Removes(p, t), Creates(p, t)])
            == Put(w, p, t, Holding).(file := Some(Own(w, p, t)))
  {
    var removed := Put(w, p, t, Trying).(file := None);
    PutTwice(w, p, t, Trying, Holding);
    assert Apply(w, Removes(p, t)) == removed;
    assert Apply(removed, Creates(p, t)) == Put(w, p, t, Holding).(file := Some(Own(w, p, t)));
    RunLast(w, [], Removes(p, t));
    RunLast(w, [Removes(p, t)], Creates(p, t));
    assert [] + [Removes(p, t)] == [Removes(p, t)];
    assert [Removes(p, t)] + [Creates(p, t)] == [Removes(p, t), Creates(p, t)];
  }

  /** A lock file left by a dead process does not keep anyone out: six steps of a task that
      wants the lock bring it there. */
  lemma StaleLockIsReclaimed(w: World, p: Pid, t: nat)
    requires In(w, p, t, Trying) && w.file.Some? && !Alive(w, w.file.value.pid)
    ensures var after := Run(w, Approach(p, t) + [Removes(p, t), Creates(p, t)]);
            In(after, p, t, Holding) && after.file == Some(Own(w, p, t))
  {
    ApproachCompares(w, p, t);
    RemoveAndCreate(Put(w, p, t, Unlinking), p, t);
    RunAppend(w, Approach(p, t), [Removes(p, t), Creates(p, t)]);
  }

  /** Letting go deletes the holder's own file and no other: a holder whose file was taken leaves
      the file of the next one alone, and never more than its own file goes. */
  lemma ReleaseTakesOwn(w: World, p: Pid, t: nat, readable: bool, deletable: bool)
    requires In(w, p, t, Holding)
    ensures var after := Run(w, [Releases(p, t, readable), Drops(p, t, deletable)]);
            && after.file == (if readable && deletable && w.file == Some(Own(w, p, t)) then None else w.file)
            && In(after, p, t, Leaving)
  {
    var released := Apply(w, Releases(p, t, readable));
    assert Runs(released, p, t) && (In(released, p, t, Releasing) || In(released, p, t, Leaving));
    RunLast(w, [], Releases(p, t, readable));
    RunLast(w, [Releases(p, t, readable)], Drops(p, t, deletable));
    assert [] + [Releases(p, t, readable)] == [Releases(p, t, readable)];
    assert [Releases(p, t, readable)] + [Drops(p, t, deletable)] == [Releases(p, t, readable), Drops(p, t, deletable)];
  }

  /** An error anywhere on the way to the deletion of a lock file leaves the file alone, and the
      task tries again. */
  lemma FailureTriesAgain(w: World, p: Pid, t: nat)
    requires Runs(w, p, t)
    requires var phase := TaskOf(w, p, t).phase; phase.Reading? || phase.Probing? || phase.Condemning? || phase.Unlinking?
    ensures var after := Apply(w, Fails(p, t)); after.file == w.file && In(after, p, t, Trying)
  {
  }

  // ---------- If another process comes between comparing and deleting ----------

  /** Two tasks that find the same stale file can both end up holding the lock. */
  lemma SplitUnlinkAdmitsTwo(w: World, p: Pid, t: nat, q: Pid, u: nat)
    requires p != q && In(w, p, t, Trying) && In(w, q, u, Trying)
    requires w.file.Some? && !Alive(w, w.file.value.pid)
    ensures var after := Run(w, Approach(p, t) + Approach(q, u) + [Removes(q, u), Creates(q, u)]
                                + [Removes(p, t), Creates(p, t)]);
            In(after, p, t, Holding) && In(after, q, u, Holding)
  {
    var one := Put(w, p, t, Unlinking);
    var two := Put(one, q, u, Unlinking);
    var three := Put(two, q, u, Holding).(file := Some(Own(two, q, u)));
    var four := Put(three, p, t, Holding).(file := Some(Own(three, p, t)));
    assert In(one, q, u, Trying) && In(two, q, u, Unlinking) && In(three, p, t, Unlinking);
    assert In(three, q, u, Holding) && In(four, q, u, Holding) && In(four, p, t, Holding);
    assert one.file == w.file && !Alive(one, w.file.value.pid);
    hide Apply, Put, In, Alive, Approach;
    ApproachCompares(w, p, t);
    ApproachCompares(one, q, u);
    RemoveAndCreate(two, q, u);
    RemoveAndCreate(three, p, t);
    RunAppend(w, Approach(p, t), Approach(q, u));
    RunAppend(w, Approach(p, t) + Approach(q, u), [Removes(q, u), Creates(q, u)]);
    RunAppend(w, Approach(p, t) + Approach(q, u) + [Removes(q, u), Creates(q, u)], [Removes(p, t), Creates(p, t)]);
  }

  /** A process comes and a task of it wants the lock. */
  function Comes(p: Pid): seq<Step> {
    [Born(p), Arrives(p, 0), Enters(p, 0)]
  }

  function Newcomer(phase: Phase): Process {
    Process(true, Some(0), [Task(None, 0, phase)])
  }

  lemma NewcomerTries(w: World, p: Pid)
    requires p !in w.processes
    ensures Run(w, Comes(p)) == w.(processes := w.processes[p := Newcomer(Trying)])
  {
    var a := w.(processes := w.processes[p := Process(true, None, [])]);
    var b := w.(processes := w.processes[p := Newcomer(Waiting)]);
    assert [] + [Task(None, 0, Waiting)] == [Task(None, 0, Waiting)];
    assert [Task(None, 0, Waiting)][0 := Task(None, 0, Trying)] == [Task(None, 0, Trying)];
    assert Apply(w, Born(p)) == a;
    assert Apply(a, Arrives(p, 0)) == b;
    assert Apply(b, Enters(p, 0)) == w.(processes := w.processes[p := Newcomer(Trying)]);
    RunThree(w, Born(p), Arrives(p, 0), Enters(p, 0));
  }

  /** One process takes the lock and dies; a task of each of two others wants it. */
  function Setting(): seq<Step> {
    Comes(0) + [Creates(0, 0), Dies(0)] + Comes(1) + Comes(2)
  }

  lemma OwnerDies()
    ensures Run(EMPTY, Comes(0) + [Creates(0, 0), Dies(0)])
            == World(Some(Owner(0, 0)), map[0 := Newcomer(Holding).(alive := false)])
  {
    var a := World(None, map[0 := Newcomer(Trying)]);
    var b := World(Some(Owner(0, 0)), map[0 := Newcomer(Holding)]);
    assert [Task(None, 0, Trying)][0 := Task(None, 0, Holding)] == [Task(None, 0, Holding)];
    assert Apply(a, Creates(0, 0)) == b;
    assert Apply(b, Dies(0)) == World(Some(Owner(0, 0)), map[0 := Newcomer(Holding).(alive := false)]);
    hide Apply, Comes;
    NewcomerTries(EMPTY, 0);
    RunAppend(EMPTY, Comes(0), [Creates(0, 0), Dies(0)]);
    RunLast(a, [], Creates(0, 0));
    RunLast(a, [Creates(0, 0)], Dies(0));
    assert [] + [Creates(0, 0)] == [Creates(0, 0)] && [Creates(0, 0)] + [Dies(0)] == [Creates(0, 0), Dies(0)];
  }

  lemma SettingLeads()
    ensures var w := Run(EMPTY, Setting());
            In(w, 1, 0, Trying) && In(w, 2, 0, Trying) && w.file == Some(Owner(0, 0)) && !Alive(w, 0)
  {
    hide Run, Apply, Comes;
    var a := Comes(0) + [Creates(0, 0), Dies(0)];
    OwnerDies();
    RunAppend(EMPTY, a, Comes(1));
    NewcomerTries(Run(EMPTY, a), 1);
    RunAppend(EMPTY, a + Comes(1), Comes(2));
    NewcomerTries(Run(EMPTY, a + Comes(1)), 2);
  }

  /** A whole run, from nothing, after which two live tasks hold the lock. */
  lemma TwoHoldTheLock()
    ensures var w := Run(EMPTY, Setting() + (Approach(1, 0) + Approach(2, 0) + [Removes(2, 0), Creates(2, 0)]
                                             + [Removes(1, 0), Creates(1, 0)]));
            In(w, 1, 0, Holding) && In(w, 2, 0, Holding)
  {
    hide Run, Setting, Approach, In;
    SettingLeads();
    SplitUnlinkAdmitsTwo(Run(EMPTY, Setting()), 1, 0, 2, 0);
    RunAppend(EMPTY, Setting(), Approach(1, 0) + Approach(2, 0) + [Removes(2, 0), Creates(2, 0)]
                                + [Removes(1, 0), Creates(1, 0)]);
  }
}
