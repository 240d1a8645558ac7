/** The humanised mouse wheel: a scroll is cut into steps, a step into chunks, with pauses in
    between. Amounts and times are real numbers. */
module Wheel {

  datatype Delta = Delta(x: real, y: real)

  datatype End = Finished | Aborted | StepCap | ChunkCap | DurationCap

  /** What the steps share: the events sent, the counters, and the random numbers and abort
      checks used up. */
  datatype Progress = Progress(events: seq<Delta>, steps: nat, chunks: nat, slept: real, draws: nat, checks: nat)

  /** A source of random numbers. */
  type Random = nat -> real

  ghost predicate UnitInterval(rng: Random) {
    forall i :: 0.0 <= rng(i) < 1.0
  }

  function Abs(a: real): real {
    if a < 0.0 then -a else a
  }

  function Larger(a: real, b: real): real {
    if a < b then b else a
  }

  function Smaller(a: real, b: real): real {
    if a < b then a else b
  }

  function Range(u: real, low: real, high: real): real {
    low + u * (high - low)
  }

  /** An amount along the larger axis, as a vector. */
  function Along(vertical: bool, ratio: real, amount: real): Delta {
    if vertical then Delta(amount * ratio, amount) else Delta(amount, amount * ratio)
  }

  function Sum(events: seq<Delta>): Delta {
    if |events| == 0 then Delta(0.0, 0.0)
    else
      var before, last := Sum(events[..|events| - 1]), events[|events| - 1];
      Delta(before.x + last.x, before.y + last.y)
  }

  function Dominant(vertical: bool, e: Delta): real {
    if vertical then e.y else e.x
  }

  /** An amount with the direction of the scroll. */
  function Directed(forward: bool, amount: real): real {
    if forward then amount else -amount
  }

  /** Every event goes the requested way, by no more than 40 pixels. */
  predicate Gentle(vertical: bool, forward: bool, events: seq<Delta>) {
    forall i :: 0 <= i < |events| ==> 0.0 < Directed(forward, Dominant(vertical, events[i])) <= 40.0
  }

  lemma ProductSign(a: real, b: real)
    requires a >= 0.0 && b >= 0.0
    ensures a * b >= 0.0
  {
  }

  lemma RangeWithin(u: real, low: real, high: real)
    requires 0.0 <= u < 1.0 && low < high
    ensures low <= Range(u, low, high) <= high
  {
    ProductSign(u, high - low);
    ProductSign(1.0 - u, high - low);
    assert (1.0 - u) * (high - low) == (high - low) - u * (high - low);
  }

  lemma AlongAdds(vertical: bool, ratio: real, a: real, b: real)
    ensures Along(vertical, ratio, a).x + Along(vertical, ratio, b).x == Along(vertical, ratio, a + b).x
    ensures Along(vertical, ratio, a).y + Along(vertical, ratio, b).y == Along(vertical, ratio, a + b).y
  {
    assert a * ratio + b * ratio == (a + b) * ratio;
  }

  /** One more chunk keeps the events gentle and their sum on the line. */
  lemma ChunkAdds(vertical: bool, ratio: real, forward: bool, events: seq<Delta>, moved: real, chunk: real)
    requires Gentle(vertical, forward, events) && Sum(events) == Along(vertical, ratio, moved) && 0.0 < chunk <= 40.0
    ensures var more := events + [Along(vertical, ratio, Directed(forward, chunk))];
            Gentle(vertical, forward, more) && Sum(more) == Along(vertical, ratio, moved + Directed(forward, chunk))
  {
    var e := Along(vertical, ratio, Directed(forward, chunk));
    assert (events + [e])[..|events|] == events;
    AlongAdds(vertical, ratio, moved, Directed(forward, chunk));
    assert Dominant(vertical, e) == Directed(forward, chunk);
  }

  /** What some chunks of one step use up: a random number for each chunk and each pause of 8 to 20
      milliseconds, a look for an abort before and after each event and after each pause. There is
      a pause after each chunk, but for the last if the step is done. */
  predicate Paced(start: Progress, p: Progress, done: bool) {
    var n, last := p.chunks - start.chunks, if done then 1 else 0;
    && n >= last && p.steps == start.steps
    && p.draws == start.draws + 2 * n - last && p.checks == start.checks + 3 * n - last
    && 8.0 * (n - last) as real <= p.slept - start.slept <= 20.0 * (n - last) as real
  }

  lemma NothingPaced(p: Progress)
    ensures Paced(p, p, false)
  {
  }

  lemma PacedChunk(start: Progress, p: Progress, events: seq<Delta>)
    requires Paced(start, p, false)
    ensures Paced(start, p.(events := events, draws := p.draws + 1, checks := p.checks + 2, chunks := p.chunks + 1), true)
  {
  }

  lemma PacedPause(start: Progress, p: Progress, pause: real)
    requires Paced(start, p, true) && 8.0 <= pause <= 20.0
    ensures Paced(start, p.(draws := p.draws + 1, slept := p.slept + pause, checks := p.checks + 1), false)
  {
  }

  /** A chunked step: events are sent until the amount is used up. */
  method Smooth(vertical: bool, ratio: real, forward: bool, size: real, rng: Random, aborted: nat -> bool,
                start: Progress, ghost moved: real)
    returns (p: Progress, end: End, remaining: real)
    requires UnitInterval(rng) && size > 0.0
    requires Sum(start.events) == Along(vertical, ratio, moved) && Gentle(vertical, forward, start.events)
    ensures Gentle(vertical, forward, p.events)
    ensures !end.Aborted? ==> Sum(p.events) == Along(vertical, ratio, moved + Directed(forward, size - remaining))
    ensures 0.0 <= remaining <= size && (!end.Aborted? ==> (end.Finished? <==> remaining == 0.0))
    ensures start.slept <= p.slept <= start.slept + size
    ensures start.chunks <= p.chunks && 20.0 * (p.chunks - start.chunks) as real <= size + 20.0
    // Which cap was reached is exact, and a step has enough chunks of at most 40 pixels.
    ensures start.slept <= 5000.0 ==> (end.DurationCap? <==> p.slept > 5000.0)
    ensures start.chunks <= 256 ==> p.chunks <= 256 && (end.ChunkCap? ==> p.chunks == 256)
    ensures end.Finished? ==> 40.0 * (p.chunks - start.chunks) as real >= size
    ensures !end.Aborted? ==> |p.events| - |start.events| == p.chunks - start.chunks
    // A pause of 8 to 20 milliseconds between the chunks, and a look for an abort before and after
    // each event and each pause; nobody had aborted when it was looked for before.
    ensures end.Finished? ==> Paced(start, p, true)
    ensures start.checks <= p.checks && forall i :: start.checks <= i < p.checks ==> !aborted(i)
    ensures end.Aborted? ==> aborted(p.checks)
    ensures !end.StepCap?
  {
    hide Along, Gentle, Sum, Range, Paced;
    p, end := start, Finished;
    assert Paced(start, start, false) by { NothingPaced(start); }
    remaining := size;
    assert moved + Directed(forward, 0.0) == moved;
    while remaining > 0.0 && p.chunks < 256
      invariant 0.0 <= remaining <= size && start.chunks <= p.chunks
      invariant Gentle(vertical, forward, p.events)
      invariant Sum(p.events) == Along(vertical, ratio, moved + Directed(forward, size - remaining))
      invariant 20.0 * (p.chunks - start.chunks) as real <= size - remaining + (if remaining > 0.0 then 0.0 else 20.0)
      invariant start.slept <= p.slept <= start.slept + (size - remaining)
      invariant start.slept <= 5000.0 ==> p.slept <= 5000.0
      invariant start.chunks <= 256 ==> p.chunks <= 256
      invariant size - remaining <= 40.0 * (p.chunks - start.chunks) as real
      invariant |p.events| - |start.events| == p.chunks - start.chunks
      invariant Paced(start, p, remaining == 0.0) && start.checks <= p.checks
      invariant forall i :: start.checks <= i < p.checks ==> !aborted(i)
      decreases 256 - p.chunks
    {
      ghost var before := p;
      RangeWithin(rng(p.draws), 20.0, 40.0);
      var chunk := Smaller(Range(rng(p.draws), 20.0, 40.0), remaining);
      p := p.(draws := p.draws + 1);
      if aborted(p.checks) { return p, Aborted, remaining; }
      ChunkAdds(vertical, ratio, forward, p.events, moved + Directed(forward, size - remaining), chunk);
      p := p.(events := p.events + [Along(vertical, ratio, Directed(forward, chunk))], checks := p.checks + 1);
      if aborted(p.checks) { return p, Aborted, remaining; }
      remaining := remaining - chunk;
      p := p.(checks := p.checks + 1, chunks := p.chunks + 1);
      PacedChunk(start, before, p.events);
      if remaining > 0.0 {
        RangeWithin(rng(p.draws), 8.0, 20.0);
        var pause := Range(rng(p.draws), 8.0, 20.0);
        PacedPause(start, p, pause);
        p := p.(draws := p.draws + 1, slept := p.slept + pause);
        if p.slept > 5000.0 { return p, DurationCap, remaining; }
        if aborted(p.checks) { return p, Aborted, remaining; }
        p := p.(checks := p.checks + 1);
      }
    }
    if remaining > 0.0 { return p, ChunkCap, remaining; }
  }

  function Integer(u: real, low: int, high: int): int {
    (low as real + u * (high - low + 1) as real).Floor
  }

  /** The length of the next step before it is cut to what remains. */
  function StepLength(u: real, spread: real, outer: nat, accel: int, decel: int, remaining: real): real {
    var base := if outer < accel then Range(u, 80.0, 100.0)
                else if remaining <= decel as real * 90.0 then Range(u, 60.0, 90.0)
                else Range(u, 80.0, 130.0);
    base * (1.0 + (spread - 0.5) * 0.4)
  }

  /** How long steps are: from 64 to 120 pixels at first, up to 156 on the way, and from 48 to 108
      near the end. */
  lemma StepIsLong(u: real, spread: real, outer: nat, accel: int, decel: int, remaining: real)
    requires 0.0 <= u < 1.0 && 0.0 <= spread < 1.0
    ensures var length := StepLength(u, spread, outer, accel, decel, remaining);
            if outer < accel then 64.0 <= length <= 120.0
            else if remaining <= decel as real * 90.0 then 48.0 <= length <= 108.0
            else 64.0 <= length <= 156.0
  {
    RangeWithin(u, 80.0, 100.0);
    RangeWithin(u, 60.0, 90.0);
    RangeWithin(u, 80.0, 130.0);
    ScaledWithin(Range(u, 80.0, 100.0), 80.0, 100.0, spread);
    ScaledWithin(Range(u, 60.0, 90.0), 60.0, 90.0, spread);
    ScaledWithin(Range(u, 80.0, 130.0), 80.0, 130.0, spread);
  }

  lemma ScaledWithin(base: real, low: real, high: real, spread: real)
    requires 0.0 <= low <= base <= high && 0.0 <= spread < 1.0
    ensures low * 0.8 <= base * (1.0 + (spread - 0.5) * 0.4) <= high * 1.2
  {
    var factor := 1.0 + (spread - 0.5) * 0.4;
    assert (base - low) * factor >= 0.0 && low * (factor - 0.8) >= 0.0;
    ProductSign(high - base, factor);
    ProductSign(high, 1.2 - factor);
  }

  lemma TwoOrThree(u: real)
    requires 0.0 <= u < 1.0
    ensures Integer(u, 2, 3) == 2 || Integer(u, 2, 3) == 3
  {
    assert 2.0 <= 2.0 + u * 2.0 < 4.0;
  }

  /** The whole distance along the larger axis is the requested vector. */
  lemma WholeDistance(dx: real, dy: real)
    requires Larger(Abs(dx), Abs(dy)) > 0.0
    ensures Abs(dy) >= Abs(dx) ==> dy != 0.0 && Along(true, dx / dy, dy) == Delta(dx, dy)
    ensures Abs(dy) < Abs(dx) ==> dx != 0.0 && Along(false, dy / dx, dx) == Delta(dx, dy)
  {
  }

  /** The bounds that keep a scroll of moderate length below every cap, with so many pauses so far. */
  predicate WithinCaps(p: Progress, pauses: nat, scrolled: real) {
    && pauses <= p.steps && 20.0 * p.chunks as real <= scrolled + 20.0 * p.steps as real
    && 0.0 <= p.slept <= scrolled + 80.0 * pauses as real + (if pauses == 0 then 0.0 else if pauses == 1 then 120.0 else 240.0)
  }

  lemma NothingUsed(p: Progress)
    requires p.chunks == 0 && p.slept == 0.0 && p.steps == 0
    ensures WithinCaps(p, 0, 0.0)
  {
  }

  lemma CapsStep(p: Progress, q: Progress, pauses: nat, scrolled: real, step: real)
    requires WithinCaps(p, pauses, scrolled) && step > 0.0 && q.steps == p.steps
    requires p.chunks <= q.chunks && 20.0 * (q.chunks - p.chunks) as real <= step + 20.0 && p.slept <= q.slept <= p.slept + step
    ensures WithinCaps(q.(steps := q.steps + 1), pauses, scrolled + step)
  {
  }

  lemma CapsPause(p: Progress, q: Progress, pauses: nat, scrolled: real, pause: real)
    requires WithinCaps(p, pauses, scrolled) && pauses < p.steps && q.steps == p.steps && q.chunks == p.chunks
    requires q.slept == p.slept + pause && (0.0 <= pause <= 80.0 || (0.0 <= pause <= 200.0 && pauses < 2))
    ensures WithinCaps(q, pauses + 1, scrolled)
  {
  }

  /** A moderate scroll has room for a step, and for what it has used up. */
  lemma CapsHold(p: Progress, pauses: nat, scrolled: real, step: real)
    requires WithinCaps(p, pauses, scrolled) && step >= 0.0 && scrolled + step <= 1750.0
    requires 48.0 * pauses as real <= scrolled && 48.0 * p.steps as real <= scrolled + 48.0
    ensures p.slept + step <= 5000.0
    ensures 48.0 * p.steps as real <= scrolled ==> 20.0 * p.chunks as real + step + 20.0 < 20.0 * 256 as real
  {
  }

  /** After whole steps: two random numbers for the whole and for each step, one for each chunk and
      each pause; a look for an abort before and after each event and after each pause. There is a
      pause after each chunk, but for the last one of all; longer pauses are those after steps. */
  predicate Accounted(p: Progress, done: bool) {
    var last := if done then 1 else 0;
    && p.draws == 2 + 2 * p.steps + 2 * p.chunks - last && p.checks == 3 * p.chunks - last && p.chunks >= p.steps >= last
    && 8.0 * (p.chunks - p.steps) as real + 30.0 * (p.steps - last) as real <= p.slept
    && p.slept <= 20.0 * (p.chunks - p.steps) as real + 200.0 * (p.steps - last) as real
  }

  lemma AccountedStep(p: Progress, q: Progress)
    requires Accounted(p, false) && Paced(p.(draws := p.draws + 2), q, true)
    ensures Accounted(q.(steps := q.steps + 1), true)
  {
  }

  lemma AccountedPause(p: Progress, pause: real)
    requires Accounted(p, true) && 30.0 <= pause <= 200.0
    ensures Accounted(p.(draws := p.draws + 1, slept := p.slept + pause, checks := p.checks + 1), false)
  {
  }

  lemma NothingAccounted()
    ensures Accounted(Progress([], 0, 0, 0.0, 2, 0), false)
  {
  }

  lemma PacedMeans(start: Progress, p: Progress)
    requires Paced(start, p, true)
    ensures p.chunks > start.chunks && p.steps == start.steps
  {
  }

  /** Between two steps of a scroll, when this much of it is done; before or after the pause. */
  ghost predicate OnTheWay(p: Progress, paused: bool, vertical: bool, ratio: real, forward: bool, total: real,
                           scrolled: real, aborted: nat -> bool) {
    && 0.0 <= scrolled <= total && (paused || p.steps > 0)
    && WithinCaps(p, if paused then p.steps else p.steps - 1, scrolled) && Accounted(p, !paused)
    && 48.0 * p.steps as real <= scrolled + (if scrolled < total then 0.0 else 48.0)
    && p.slept <= 5000.0 && |p.events| == p.chunks <= 256 && scrolled <= 40.0 * p.chunks as real
    && (scrolled < total ==> 2 * p.steps <= p.chunks)
    && Gentle(vertical, forward, p.events) && Sum(p.events) == Along(vertical, ratio, Directed(forward, scrolled))
    && forall i :: 0 <= i < p.checks ==> !aborted(i)
  }

  lemma AtTheStart(vertical: bool, ratio: real, forward: bool, total: real, aborted: nat -> bool)
    requires total >= 40.0
    ensures OnTheWay(Progress([], 0, 0, 0.0, 2, 0), true, vertical, ratio, forward, total, 0.0, aborted)
  {
    NothingMoved(vertical, ratio, forward);
  }

  /** A scroll that does not go on: aborted, or at a cap that is used up. */
  ghost predicate GivenUp(p: Progress, end: End, vertical: bool, ratio: real, forward: bool, total: real, left: real,
                          aborted: nat -> bool) {
    && 0.0 <= left <= total && Gentle(vertical, forward, p.events) && p.chunks <= 256
    && (end.Aborted? || end.ChunkCap? || end.DurationCap?)
    && (end.DurationCap? <==> p.slept > 5000.0) && (end.ChunkCap? ==> p.chunks == 256)
    && (!end.Aborted? ==> left > 0.0 && |p.events| == p.chunks && total > 1750.0
                          && Sum(p.events) == Along(vertical, ratio, Directed(forward, total - left)))
    && (forall i :: 0 <= i < p.checks ==> !aborted(i)) && (end.Aborted? ==> aborted(p.checks))
  }

  /** One step. */
  method Advance(vertical: bool, ratio: real, forward: bool, total: real, scrolled: real, accel: int, decel: int,
                 rng: Random, aborted: nat -> bool, before: Progress)
    returns (p: Progress, end: End, left: real)
    requires UnitInterval(rng)
    requires OnTheWay(before, true, vertical, ratio, forward, total, scrolled, aborted) && scrolled < total
    ensures if end.Finished?
            then OnTheWay(p, false, vertical, ratio, forward, total, total - left, aborted) && p.steps == before.steps + 1
            else GivenUp(p, end, vertical, ratio, forward, total, left, aborted)
  {
    hide Range, Along, Sum, Gentle, StepLength, Accounted, Paced, WithinCaps, Directed;
    var step := NextStep(rng, before, accel, decel, total - scrolled);
    if total <= 1750.0 { CapsHold(before, before.steps, scrolled, step); }
    p := before.(draws := before.draws + 2);
    p, end, left := Smooth(vertical, ratio, forward, step, rng, aborted, p, Directed(forward, scrolled));
    DirectedAdds(forward, scrolled, step - left);
    left := total - scrolled - (step - left);
    if !end.Finished? { return; }
    AccountedStep(before, p);
    PacedMeans(before.(draws := before.draws + 2), p);
    CapsStep(before, p, before.steps, scrolled, step);
    p := p.(steps := p.steps + 1);
  }

  /** The pause after a step that was not the last. */
  method Pause(vertical: bool, ratio: real, forward: bool, total: real, left: real, accel: int, rng: Random,
               aborted: nat -> bool, before: Progress)
    returns (p: Progress, end: End)
    requires UnitInterval(rng) && accel <= 3 && 0.0 < left <= total
    requires OnTheWay(before, false, vertical, ratio, forward, total, total - left, aborted)
    ensures if end.Finished?
            then OnTheWay(p, true, vertical, ratio, forward, total, total - left, aborted) && p.steps == before.steps
            else GivenUp(p, end, vertical, ratio, forward, total, left, aborted)
  {
    hide Range, Along, Sum, Gentle, Accounted, WithinCaps, Directed;
    var pause := PauseLength(rng(before.draws), before.steps < accel);
    AccountedPause(before, pause);
    p := before.(draws := before.draws + 1, slept := before.slept + pause);
    CapsPause(before, p, before.steps - 1, total - left, pause);
    if total <= 1750.0 { CapsHold(p, p.steps, total - left, 0.0); }
    if p.slept > 5000.0 { return p, DurationCap; }
    if aborted(p.checks) { return p, Aborted; }
    CapsPause(before, p.(checks := p.checks + 1), before.steps - 1, total - left, pause);
    return p.(checks := p.checks + 1), Finished;
  }

  /** The whole way in steps. */
  method Scroll(vertical: bool, ratio: real, forward: bool, total: real, rng: Random, aborted: nat -> bool)
    returns (p: Progress, end: End, left: real)
    requires UnitInterval(rng) && total >= 40.0
    ensures Gentle(vertical, forward, p.events)
    ensures !end.Aborted? ==> Sum(p.events) == Along(vertical, ratio, Directed(forward, total - left))
    ensures 0.0 <= left <= total && (!end.Aborted? ==> (end.Finished? <==> left == 0.0))
    ensures total <= 1750.0 ==> end.Finished? || end.Aborted?
    ensures total > 10240.0 ==> !end.Finished?
    ensures end.DurationCap? <==> p.slept > 5000.0
    ensures p.chunks <= 256 && (end.ChunkCap? ==> p.chunks == 256)
    ensures !end.Aborted? ==> |p.events| == p.chunks
    ensures end.Finished? ==> Accounted(p, true)
    ensures !end.StepCap?
    ensures (forall i :: 0 <= i < p.checks ==> !aborted(i)) && (end.Aborted? ==> aborted(p.checks))
    ensures end.Finished? ==> !aborted(p.checks)
  {
    hide Range, Along, Sum, Gentle, Integer, Accounted, WithinCaps, Directed;
    TwoOrThree(rng(0));
    var accel, decel := Integer(rng(0), 2, 3), Integer(rng(1), 2, 3);
    p, left := Progress([], 0, 0, 0.0, 2, 0), total;
    AtTheStart(vertical, ratio, forward, total, aborted);
    while left > 0.0 && p.steps < 256
      invariant OnTheWay(p, left > 0.0, vertical, ratio, forward, total, total - left, aborted)
      decreases 256 - p.steps
    {
      p, end, left := Advance(vertical, ratio, forward, total, total - left, accel, decel, rng, aborted, p);
      if !end.Finished? { return; }
      if left > 0.0 {
        p, end := Pause(vertical, ratio, forward, total, left, accel, rng, aborted, p);
        if !end.Finished? { return; }
      }
    }
    if left > 0.0 { return p, StepCap, left; }
    return p, if aborted(p.checks) then Aborted else Finished, left;
  }

  function NextStep(rng: Random, p: Progress, accel: int, decel: int, remaining: real): (step: real)
    requires UnitInterval(rng) && remaining > 0.0
    ensures 0.0 < step <= remaining && (step == remaining || step >= 48.0)
  {
    StepIsLong(rng(p.draws), rng(p.draws + 1), p.steps, accel, decel, remaining);
    Smaller(StepLength(rng(p.draws), rng(p.draws + 1), p.steps, accel, decel, remaining), remaining)
  }

  lemma DirectedAdds(forward: bool, a: real, b: real)
    ensures Directed(forward, a) + Directed(forward, b) == Directed(forward, a + b)
  {
  }

  /** The pause after a step, longer while the scroll gathers speed. */
  function PauseLength(u: real, first: bool): (r: real)
    ensures 0.0 <= u < 1.0 ==> (if first then 100.0 <= r <= 200.0 else 30.0 <= r <= 80.0)
  {
    assert 0.0 <= u < 1.0 ==> 100.0 <= Range(u, 100.0, 200.0) <= 200.0 && 30.0 <= Range(u, 30.0, 80.0) <= 80.0 by {
      if 0.0 <= u < 1.0 {
        RangeWithin(u, 100.0, 200.0);
        RangeWithin(u, 30.0, 80.0);
      }
    }
    if first then Range(u, 100.0, 200.0) else Range(u, 30.0, 80.0)
  }

  /** A wheel finishes, unless it is aborted, exactly if it has moved by the requested amounts. One
      of at most 1750 pixels does, one of more than 10240 does not. It gives up exactly when a cap
      is used up: more than five seconds of pauses, or 256 chunks. The cap on steps is never
      reached, because every step but the last takes two chunks at least. */
  method HumanizedWheel(dx: real, dy: real, rng: Random, aborted: nat -> bool)
    returns (p: Progress, end: End)
    requires UnitInterval(rng)
    ensures !end.Aborted? ==> (end.Finished? <==> Sum(p.events) == Delta(dx, dy))
    ensures -40.0 < dx < 40.0 && -40.0 < dy < 40.0 ==> p.events == [Delta(dx, dy)] && (end.Finished? || end.Aborted?)
    // Along the larger axis every event goes the requested way, by no more than 40 pixels.
    ensures !(-40.0 < dx < 40.0 && -40.0 < dy < 40.0) ==>
              forall i :: 0 <= i < |p.events| ==>
                if -dy <= dx <= dy then 0.0 < p.events[i].y <= 40.0
                else if dy <= dx <= -dy then -40.0 <= p.events[i].y < 0.0
                else if dx > 0.0 then 0.0 < p.events[i].x <= 40.0
                else -40.0 <= p.events[i].x < 0.0
    ensures -1750.0 <= dx <= 1750.0 && -1750.0 <= dy <= 1750.0 ==> end.Finished? || end.Aborted?
    ensures !(-10240.0 <= dx <= 10240.0 && -10240.0 <= dy <= 10240.0) ==> !end.Finished?
    ensures end.DurationCap? <==> p.slept > 5000.0
    ensures p.chunks <= 256 && (end.ChunkCap? ==> p.chunks == 256)
    ensures !(-40.0 < dx < 40.0 && -40.0 < dy < 40.0) && !end.Aborted? ==> |p.events| == p.chunks
    ensures !end.StepCap?
    ensures end.Finished? && !(-40.0 < dx < 40.0 && -40.0 < dy < 40.0) ==> Accounted(p, true)
    // It goes on exactly as long as no look for an abort finds one.
    ensures (forall i :: 0 <= i < p.checks ==> !aborted(i)) && (end.Aborted? ==> aborted(p.checks))
    ensures end.Finished? ==> !aborted(p.checks)
  {
    hide Sum;
    var total := Larger(Abs(dx), Abs(dy));
    if total < 40.0 {
      SumOne(Delta(dx, dy));
      return Progress([Delta(dx, dy)], 0, 0, 0.0, 0, 0), if aborted(0) then Aborted else Finished;
    }
    var vertical := Abs(dy) >= Abs(dx);
    var dominant := if vertical then dy else dx;
    WholeDistance(dx, dy);
    var ratio := if vertical then dx / dy else dy / dx;
    assert Directed(dominant > 0.0, total) == dominant;
    var left: real;
    p, end, left := Scroll(vertical, ratio, dominant > 0.0, total, rng, aborted);
    assert Dominant(vertical, Along(vertical, ratio, Directed(dominant > 0.0, total - left)))
           == Directed(dominant > 0.0, total - left);
  }

  lemma SumOne(e: Delta)
    ensures Sum([e]) == e
  {
    assert [e][..0] == [] && Sum([]) == Delta(0.0, 0.0);
  }

  lemma NothingMoved(vertical: bool, ratio: real, forward: bool)
    ensures Sum([]) == Along(vertical, ratio, Directed(forward, 0.0)) && Gentle(vertical, forward, [])
  {
  }
}
