/** One client of the CDP relay. Each public method of the client is what one event does: a frame
    from either side, the end of a worker's job, a timer, a continuation of the input queue. */
module Relay {
  import opened Outcomes

  datatype Id = Number(n: int) | Text(s: string)

  datatype Kind = Mouse | Key | InsertText | Touch

  datatype Method =
    | Input(kind: Kind)
    | AttachToTarget
    | AttachedToTarget
    | DetachedFromTarget
    | TargetDestroyed
    | FrameNavigated
    | OtherMethod

  /** A valid message: its id, method and session, and what is used of parameters and result. */
  datatype Message = Message(
    id: Option<Id>, name: Option<Method>, session: Option<string>,
    targetId: Option<string>, infoTargetId: Option<string>, paramsSession: Option<string>,
    resultSession: Option<string>, failed: bool)

  /** A frame is a message, or none if it fails validation. */
  type Frame = Option<Message>

  /** What the client's socket has been given. */
  datatype Sent = Answer(id: Id, session: Option<string>, ok: bool) | Forwarded(message: Message)

  /** An intercepted input. */
  datatype Job = Job(id: Id, session: Option<string>, kind: Kind)

  datatype Stage = Working | Falling(fallback: int) | Settled(ok: bool)

  datatype Operation = Operation(job: Job, target: Option<string>, stage: Stage)

  datatype Fallback = Fallback(keyboard: bool, mouse: bool, touch: bool)

  const MAX_TOMBSTONES := 64

  predicate Intercepted(m: Message) {
    m.name.Some? && m.name.value.Input? && m.id.Some?
  }

  function JobOf(m: Message): Job
    requires Intercepted(m)
  {
    Job(m.id.value, m.session, m.name.value.kind)
  }

  function Allowed(kind: Kind, configured: Fallback): bool {
    match kind
    case Key => configured.keyboard
    case InsertText => configured.keyboard
    case Mouse => configured.mouse
    case Touch => configured.touch
  }

  /** The answers among what was sent. */
  function Answers(sent: seq<Sent>): seq<Sent> {
    if |sent| == 0 then []
    else Answers(sent[..|sent| - 1]) + if sent[|sent| - 1].Answer? then [sent[|sent| - 1]] else []
  }

  lemma AnswersExtend(sent: seq<Sent>, last: Sent)
    ensures Answers(sent + [last]) == Answers(sent) + if last.Answer? then [last] else []
  {
    assert (sent + [last])[..|sent|] == sent;
  }

  predicate AnswersJob(answer: Sent, job: Job) {
    answer.Answer? && answer.id == job.id && answer.session == job.session
  }

  predicate Distinct(s: seq<int>) {
    forall i, j :: 0 <= i < j < |s| ==> s[i] != s[j]
  }

  /** An operation that is cancelled while the worker has it counts as done. */
  function CancelledIf(operation: Option<Operation>, concerned: bool): Option<Operation> {
    if operation.Some? && operation.value.stage.Working? && concerned
    then Some(operation.value.(stage := Settled(true))) else operation
  }

  /** ... and comes out well. */
  function Cancelled(operation: Option<Operation>, concerned: bool): seq<bool> {
    if operation.Some? && operation.value.stage.Working? && concerned then [true] else []
  }

  class Client {
    const fallback: Fallback
    var closed: bool
    var open: bool
    var sent: seq<Sent>

    var queue: seq<Job>
    var current: Option<Operation>
    // Every input that arrived, and how those came out that are decided.
    ghost var arrived: seq<Job>
    ghost var outcomes: seq<bool>

    var internalIds: set<int>
    var pending: set<int>
    var tombstones: seq<int>

    var pendingAttach: map<Id, string>
    var sessionTargets: map<string, string>
    var targetSessions: map<string, set<string>>

    // ---------- Invariants ----------

    /** While the client stays open, every input that arrived has been answered, is being worked
        on, or waits, in the order of arrival; and every answer says how its input came out. */
    ghost predicate InOrder()
      reads `open, `closed, `sent, `arrived, `outcomes, `current, `queue
    {
      var answers := Answers(sent);
      open && !closed ==>
        && |answers| <= |arrived|
        && (forall i :: 0 <= i < |answers| ==> AnswersJob(answers[i], arrived[i]))
        && arrived[|answers|..] == (if current.Some? then [current.value.job] else []) + queue
        && |outcomes| == |answers| + (if current.Some? && current.value.stage.Settled? then 1 else 0)
        && (forall i :: 0 <= i < |answers| ==> answers[i].Answer? && answers[i].ok == outcomes[i])
        && (current.Some? && current.value.stage.Settled? ==> outcomes[|answers|] == current.value.stage.ok)
    }

    ghost predicate IdsValid()
      reads `tombstones, `internalIds, `pending, `current
    {
      && |tombstones| <= MAX_TOMBSTONES && Distinct(tombstones)
      && (forall id :: id in tombstones ==> id in internalIds && id !in pending)
      && (forall id :: id in pending ==> id in internalIds)
      && (forall id :: id in pending <==> current.Some? && current.value.stage == Falling(id))
    }

    ghost predicate SessionsValid()
      reads `sessionTargets, `targetSessions
    {
      && (forall s :: s in sessionTargets ==>
            sessionTargets[s] in targetSessions && s in targetSessions[sessionTargets[s]])
      && (forall t :: t in targetSessions ==> targetSessions[t] != {})
    }

    ghost predicate Valid()
      reads this
    {
      InOrder() && IdsValid() && SessionsValid()
    }

    /** Each map is the inverse of the other. */
    ghost predicate Inverse()
      reads `sessionTargets, `targetSessions
    {
      forall s, t :: (s in sessionTargets && sessionTargets[s] == t) <==> (t in targetSessions && s in targetSessions[t])
    }

    constructor (fallback: Fallback)
      ensures Valid() && Inverse() && arrived == [] && !closed && open && this.fallback == fallback
    {
      this.fallback := fallback;
      closed, open, sent, queue, current, arrived, outcomes := false, true, [], [], None, [], [];
      internalIds, pending, tombstones := {}, {}, [];
      pendingAttach, sessionTargets, targetSessions := map[], map[], map[];
    }

    // ---------- Sessions and targets ----------

    method AddMapping(s: string, t: string)
      requires SessionsValid()
      modifies `sessionTargets, `targetSessions
      ensures SessionsValid()
      ensures sessionTargets == old(sessionTargets)[s := t]
      ensures old(Inverse()) ==> (Inverse() <==> (s in old(sessionTargets) ==> old(sessionTargets)[s] == t))
    {
      sessionTargets := sessionTargets[s := t];
      var sessions := if t in targetSessions then targetSessions[t] else {};
      targetSessions := targetSessions[t := sessions + {s}];
      if old(Inverse()) && s in old(sessionTargets) && old(sessionTargets)[s] != t {
        ghost var t0 := old(sessionTargets)[s];
        assert t0 in targetSessions && s in targetSessions[t0] && sessionTargets[s] != t0;
      }
    }

    method RemoveMapping(s: string)
      requires SessionsValid()
      modifies `sessionTargets, `targetSessions
      ensures SessionsValid()
      ensures sessionTargets == old(sessionTargets) - {s}
      ensures forall t :: t in targetSessions ==> t in old(targetSessions) && targetSessions[t] <= old(targetSessions)[t]
      ensures old(Inverse()) ==> (Inverse() <==> (s in old(sessionTargets) ==> old(sessionTargets)[s] != ""))
    {
      var target := if s in sessionTargets then Some(sessionTargets[s]) else None;
      sessionTargets := sessionTargets - {s};
      if target.None? || target.value == "" {
        assert s in old(sessionTargets) ==> "" in targetSessions && s in targetSessions[""];
        return;
      }
      var t := target.value;
      var sessions := targetSessions[t] - {s};
      targetSessions := if sessions == {} then targetSessions - {t} else targetSessions[t := sessions];
    }

    method CancelTarget(t: string)
      requires SessionsValid() && IdsValid() && InOrder()
      modifies `sessionTargets, `targetSessions, `current, `outcomes
      ensures SessionsValid() && IdsValid() && InOrder()
      ensures outcomes == old(outcomes) + Cancelled(old(current), old(current).Some? && old(current).value.target == Some(t))
      ensures forall s :: s in sessionTargets ==> s in old(sessionTargets) && sessionTargets[s] == old(sessionTargets)[s]
                                                  && sessionTargets[s] != t
      ensures sessionTargets == old(sessionTargets) - Listed(old(targetSessions), t)
      ensures old(Exact()) ==> Exact()
      ensures current == CancelledIf(old(current), old(current).Some? && old(current).value.target == Some(t))
    {
      if current.Some? && current.value.target == Some(t) { Cancel(); }
      if Exact() { ExactIsNamed(); }
      RemoveMappings(t);
    }

    /** The sessions listed for a target. */
    function Listed(sessions: map<string, set<string>>, t: string): set<string> {
      if t in sessions then sessions[t] else {}
    }

    /** Unmaps the sessions listed for a target. */
    method RemoveMappings(t: string)
      requires SessionsValid()
      modifies `sessionTargets, `targetSessions
      ensures SessionsValid()
      ensures forall s :: s in sessionTargets ==> s in old(sessionTargets) && sessionTargets[s] == old(sessionTargets)[s]
                                                  && sessionTargets[s] != t
      ensures sessionTargets == old(sessionTargets) - Listed(old(targetSessions), t)
      ensures old(Inverse()) && (t != "" || t !in old(targetSessions)) ==> Inverse()
    {
      hide Inverse;
      var rest := Listed(targetSessions, t);
      if Inverse() { InverseHere(t); }
      while rest != {}
        invariant SessionsValid()
        invariant rest <= Listed(old(targetSessions), t)
        invariant sessionTargets == old(sessionTargets) - (Listed(old(targetSessions), t) - rest)
        invariant forall s :: s in sessionTargets ==> s in old(sessionTargets) && sessionTargets[s] == old(sessionTargets)[s]
        invariant forall s :: s in sessionTargets && sessionTargets[s] == t ==> s in rest
        invariant old(Inverse()) && (t != "" || t !in old(targetSessions)) ==>
                    Inverse() && forall s :: s in rest ==> s in sessionTargets && sessionTargets[s] == t
        decreases |rest|
      {
        var s :| s in rest;
        RemoveMapping(s);
        rest := rest - {s};
      }
    }

    lemma ExactIsNamed()
      requires SessionsValid() && Exact()
      ensures "" !in targetSessions
    {
      forall t | t in targetSessions
        ensures t != ""
      {
        var s :| s in targetSessions[t];
        assert s in sessionTargets && sessionTargets[s] == t;
      }
    }

    lemma InverseHere(t: string)
      requires Inverse()
      ensures forall s :: (s in sessionTargets && sessionTargets[s] == t)
                          <==> (t in targetSessions && s in targetSessions[t])
    {
    }

    method Cancel()
      requires current.Some? && IdsValid() && InOrder()
      modifies `current, `outcomes
      ensures IdsValid() && InOrder()
      ensures current == CancelledIf(old(current), true)
      ensures outcomes == old(outcomes) + Cancelled(old(current), true)
    {
      if current.value.stage.Working? {
        current := Some(current.value.(stage := Settled(true)));
        outcomes := outcomes + [true];
      }
    }

    /** Targets have names, and the two maps agree. */
    ghost predicate Exact()
      reads `sessionTargets, `targetSessions
    {
      Inverse() && forall s :: s in sessionTargets ==> sessionTargets[s] != ""
    }

    /** The session is new, or attached to this target already. */
    predicate Attachable(s: string, t: string)
      reads `sessionTargets
    {
      t != "" && (s in sessionTargets ==> sessionTargets[s] == t)
    }

    /** A reply or an event, which attaches no session to a second target. */
    predicate Tidy(m: Message)
      reads `sessionTargets, `pendingAttach
    {
      && (m.id.None? || m.name.None?)
      && (m.id.Some? && m.id.value in pendingAttach && m.resultSession.Some? ==>
            Attachable(m.resultSession.value, pendingAttach[m.id.value]))
      && (m.name == Some(AttachedToTarget) && m.infoTargetId.Some? && m.paramsSession.Some? ==>
            Attachable(m.paramsSession.value, m.infoTargetId.value))
    }

    /** The operation is on a session, or its target, that the message takes away. */
    predicate Concerned(m: Message, operation: Operation) {
      || (m.name == Some(DetachedFromTarget) && m.paramsSession.Some? && operation.job.session == m.paramsSession)
      || (m.name == Some(TargetDestroyed) && m.targetId.Some? && operation.target == m.targetId)
      || (m.name == Some(FrameNavigated) && m.session.Some? && operation.job.session == m.session)
    }

    /** The reply to an attachment that the client asked for. */
    predicate AttachReply(asked: map<Id, string>, m: Message) {
      m.id.Some? && m.id.value in asked && asked[m.id.value] != ""
    }

    /** The sessions and their targets after the attachments that the message tells of. */
    function Attached(asked: map<Id, string>, targets: map<string, string>, m: Message): map<string, string> {
      var replied :=
        if AttachReply(asked, m) && m.resultSession.Some? then targets[m.resultSession.value := asked[m.id.value]] else targets;
      if m.name == Some(AttachedToTarget) && m.infoTargetId.Some? && m.paramsSession.Some?
      then replied[m.paramsSession.value := m.infoTargetId.value] else replied
    }

    method UpdateMappings(m: Message)
      requires Valid()
      modifies `pendingAttach, `sessionTargets, `targetSessions, `current, `outcomes
      ensures Valid()
      ensures old(Exact() && Tidy(m)) ==> Exact()
      ensures pendingAttach == if m.id.Some? && m.id.value in old(pendingAttach) && |old(pendingAttach)[m.id.value]| > 0
                               then old(pendingAttach) - {m.id.value} else old(pendingAttach)
      ensures m.name != Some(TargetDestroyed) ==>
                sessionTargets == Attached(old(pendingAttach), old(sessionTargets), m) - Detached(m)
      ensures m.name == Some(TargetDestroyed) && m.targetId.Some? ==>
                && (forall s :: s in sessionTargets ==> sessionTargets[s] != m.targetId.value)
                && (!AttachReply(old(pendingAttach), m) ==>
                      sessionTargets == old(sessionTargets) - Listed(old(targetSessions), m.targetId.value))
      ensures current == CancelledIf(old(current), old(current).Some? && Concerned(m, old(current).value))
      ensures outcomes == old(outcomes) + Cancelled(old(current), old(current).Some? && Concerned(m, old(current).value))
    {
      hide Inverse, InOrder, SessionsValid, IdsValid;
      Attach(m);
      match m.name {
        case Some(DetachedFromTarget) =>
          if m.paramsSession.Some? {
            CancelSessionOperations(m.paramsSession.value);
            RemoveMapping(m.paramsSession.value);
          }
        case Some(TargetDestroyed) =>
          if m.targetId.Some? { CancelTarget(m.targetId.value); }
        case Some(FrameNavigated) =>
          if m.session.Some? { CancelSessionOperations(m.session.value); }
        case _ =>
      }
    }

    /** The sessions that the message takes away by themselves. */
    function Detached(m: Message): set<string> {
      if m.name == Some(DetachedFromTarget) && m.paramsSession.Some? then {m.paramsSession.value} else {}
    }

    /** Notes the attachments that the message tells of. */
    method Attach(m: Message)
      requires SessionsValid()
      modifies `pendingAttach, `sessionTargets, `targetSessions
      ensures SessionsValid()
      ensures old(Exact() && Tidy(m)) ==> Exact()
      ensures pendingAttach == if m.id.Some? && m.id.value in old(pendingAttach) && |old(pendingAttach)[m.id.value]| > 0
                               then old(pendingAttach) - {m.id.value} else old(pendingAttach)
      ensures sessionTargets == Attached(old(pendingAttach), old(sessionTargets), m)
      ensures m.name != Some(AttachedToTarget) && !AttachReply(old(pendingAttach), m) ==> targetSessions == old(targetSessions)
    {
      hide Inverse, SessionsValid;
      if AttachReply(pendingAttach, m) {
        var targetId := pendingAttach[m.id.value];
        pendingAttach := pendingAttach - {m.id.value};
        if m.resultSession.Some? { AddMapping(m.resultSession.value, targetId); }
      }
      if m.name == Some(AttachedToTarget) && m.infoTargetId.Some? && m.paramsSession.Some? {
        AddMapping(m.paramsSession.value, m.infoTargetId.value);
      }
    }

    method CancelSessionOperations(s: string)
      requires IdsValid() && InOrder()
      modifies `current, `outcomes
      ensures IdsValid() && InOrder()
      ensures current == CancelledIf(old(current), old(current).Some? && old(current).value.job.session == Some(s))
      ensures outcomes == old(outcomes)
                          + Cancelled(old(current), old(current).Some? && old(current).value.job.session == Some(s))
    {
      if current.Some? && current.value.job.session == Some(s) { Cancel(); }
    }

    // ---------- Internal ids ----------

    /** Remembers an id whose reply may still come; the oldest are forgotten. */
    method AddTombstone(id: int)
      requires |tombstones| <= MAX_TOMBSTONES && Distinct(tombstones)
      requires forall t :: t in tombstones ==> t in internalIds && t !in pending
      requires id in internalIds && id !in pending && id !in tombstones
      requires forall p :: p in pending ==> p in internalIds
      modifies `tombstones, `internalIds
      ensures |tombstones| <= MAX_TOMBSTONES && Distinct(tombstones)
      ensures forall t :: t in tombstones ==> t in internalIds && t !in pending
      ensures forall p :: p in pending ==> p in internalIds
      ensures if |old(tombstones)| < MAX_TOMBSTONES
              then tombstones == old(tombstones) + [id] && internalIds == old(internalIds)
              else tombstones == old(tombstones)[1..] + [id] && internalIds == old(internalIds) - {old(tombstones)[0]}
    {
      tombstones := tombstones + [id];
      while |tombstones| > MAX_TOMBSTONES
        invariant Distinct(tombstones)
        invariant (tombstones == old(tombstones) + [id] && internalIds == old(internalIds))
                  || (|old(tombstones)| == MAX_TOMBSTONES && tombstones == old(tombstones)[1..] + [id]
                      && internalIds == old(internalIds) - {old(tombstones)[0]})
        invariant forall t :: t in tombstones ==> t in internalIds && t !in pending
        invariant forall p :: p in pending ==> p in internalIds
      {
        var oldest := tombstones[0];
        assert forall t :: t in tombstones[1..] ==> t != oldest;
        tombstones := tombstones[1..];
        internalIds := internalIds - {oldest};
      }
    }

    function Without(s: seq<int>, id: int): (r: seq<int>)
      requires Distinct(s)
      ensures Distinct(r) && |r| <= |s| && forall x :: x in r <==> x in s && x != id
    {
      if |s| == 0 then []
      else
        var rest := Without(s[1..], id);
        assert s[0] !in s[1..];
        if s[0] == id then rest else [s[0]] + rest
    }

    /** A number that no outstanding internal message uses. */
    method InternalId() returns (id: int)
      modifies `internalIds
      ensures id < 0 && id !in old(internalIds) && id !in pending && internalIds == old(internalIds) + {id}
    {
      SomeNumberIsFree(internalIds + pending);
      id :| id < 0 && id !in internalIds + pending;
      internalIds := internalIds + {id};
    }

    // ---------- Sending ----------

    method Send(value: Sent)
      modifies `sent
      ensures sent == if open then old(sent) + [value] else old(sent)
    {
      if open { sent := sent + [value]; }
    }

    method Close()
      requires Valid()
      modifies `closed, `open, `current, `outcomes, `pending, `internalIds, `tombstones,
               `pendingAttach, `sessionTargets, `targetSessions
      ensures Valid() && closed && (old(Exact()) ==> Exact())
      ensures !old(closed) ==> !open && internalIds == {} && tombstones == [] && sessionTargets == map[]
      // What the worker has is cancelled, and what waits for a reply fails.
      ensures old(closed) || old(current).None? || old(current).value.stage.Settled? ==>
                current == old(current) && outcomes == old(outcomes)
      ensures !old(closed) && old(current).Some? && !old(current).value.stage.Settled? ==>
                var ok := old(current).value.stage.Working?;
                current == Some(old(current).value.(stage := Settled(ok))) && outcomes == old(outcomes) + [ok]
      ensures old(closed) ==> open == old(open) && internalIds == old(internalIds) && tombstones == old(tombstones)
                              && sessionTargets == old(sessionTargets)
    {
      hide SessionsValid, IdsValid, InOrder, Inverse, Exact;
      if closed { return; }
      closed, open := true, false;
      if current.Some? && current.value.stage.Falling? {
        current := Some(current.value.(stage := Settled(false)));
        outcomes := outcomes + [false];
      } else if current.Some? && current.value.stage.Working? {
        current := Some(current.value.(stage := Settled(true)));
        outcomes := outcomes + [true];
      }
      pending, internalIds, tombstones := {}, {}, [];
      pendingAttach, sessionTargets, targetSessions := map[], map[], map[];
      NothingLeft();
    }

    lemma NothingLeft()
      requires sessionTargets == map[] && targetSessions == map[]
      requires pending == {} && tombstones == [] && (current.Some? ==> !current.value.stage.Falling?) && closed
      ensures Valid() && Exact()
    {
    }

    /** The other end of the client's socket goes away. */
    method Disconnect()
      requires Valid()
      modifies `open
      ensures Valid() && !open
    {
      open := false;
    }

    // ---------- Frames ----------

    predicate AsksToAttach(m: Message) {
      m.name == Some(AttachToTarget) && m.id.Some? && m.targetId.Some?
    }

    method HandleClientMessage(frame: Frame, upstreamFails: bool)
      requires Valid()
      modifies this
      ensures Valid() && (old(Exact()) ==> Exact()) && sent == old(sent)
      ensures !old(closed) && frame.Some? && Intercepted(frame.value) ==>
                arrived == old(arrived) + [JobOf(frame.value)] && !closed && open == old(open)
      ensures old(closed) || frame.None? || !Intercepted(frame.value) ==> arrived == old(arrived)
      ensures !old(closed) ==> (closed <==> frame.None? || (!Intercepted(frame.value) && upstreamFails))
      ensures old(outcomes) <= outcomes && (closed == old(closed) ==> outcomes == old(outcomes) && current == old(current))
      ensures closed == old(closed) ==>
                pendingAttach == if !closed && frame.Some? && AsksToAttach(frame.value)
                                 then old(pendingAttach)[frame.value.id.value := frame.value.targetId.value]
                                 else old(pendingAttach)
    {
      if closed { return; }
      if frame.None? {
        Close();
        return;
      }
      var m := frame.value;
      if Intercepted(m) {
        queue, arrived := queue + [JobOf(m)], arrived + [JobOf(m)];
        ghost var n := |Answers(sent)|;
        assert open ==> arrived[n..] == old(arrived)[n..] + [JobOf(m)];
        return;
      }
      if AsksToAttach(m) {
        pendingAttach := pendingAttach[m.id.value := m.targetId.value];
      }
      if upstreamFails { Close(); }
    }

    /** The id belongs to a message of the relay's own, whose reply is nobody else's business. */
    predicate Internal(id: Option<Id>)
      reads `internalIds
    {
      id.Some? && id.value.Number? && id.value.n in internalIds
    }

    method HandleUpstreamMessage(frame: Frame)
      requires Valid()
      modifies this
      ensures Valid() && arrived == old(arrived)
      ensures old(Exact()) && (frame.Some? ==> old(Tidy(frame.value))) ==> Exact()
      ensures old(sent) <= sent && (frame.None? ==> sent == old(sent))
      // Replies to internal ids are kept back; everything else is passed on unchanged.
      ensures frame.Some? && old(Internal(frame.value.id)) ==>
                sent == old(sent) && internalIds == old(internalIds) - {frame.value.id.value.n}
      ensures frame.Some? && !old(Internal(frame.value.id)) ==>
                sent == (if open then old(sent) + [Forwarded(frame.value)] else old(sent)) && internalIds == old(internalIds)
      ensures frame.Some? ==> closed == old(closed) && open == old(open)
      ensures frame.None? ==> closed
      ensures frame.Some? && frame.value.name == Some(TargetDestroyed) && frame.value.targetId.Some? ==>
                forall s :: s in sessionTargets ==> sessionTargets[s] != frame.value.targetId.value
      // The reply to a fallback decides its input; losing the session or target cancels an input.
      ensures frame.Some? ==> current == Replied(old(current), frame.value)
      ensures frame.Some? ==> outcomes == old(outcomes) + Decided(old(current), frame.value)
      ensures old(outcomes) <= outcomes
      ensures frame.Some? && frame.value.name != Some(TargetDestroyed) ==>
                sessionTargets == Attached(old(pendingAttach), old(sessionTargets), frame.value) - Detached(frame.value)
    {
      hide InOrder, SessionsValid, IdsValid, Inverse, Exact, Tidy, Concerned, Without;
      if frame.None? {
        Close();
        return;
      }
      var m := frame.value;
      PendingIsInternal(m);
      UpdateMappings(m);
      if m.id.Some? && m.id.value.Number? && m.id.value.n in pending {
        ResolveFallback(m.id.value.n, m.failed);
      } else if m.id.Some? && m.id.value.Number? && m.id.value.n in internalIds {
        ForgetReply(m.id.value.n);
      } else {
        Forward(m);
      }
    }

    /** A late reply ends the memory of its id. */
    method ForgetReply(id: int)
      requires IdsValid() && id in internalIds && id !in pending
      modifies `internalIds, `tombstones
      ensures IdsValid() && internalIds == old(internalIds) - {id} && tombstones == Without(old(tombstones), id)
    {
      internalIds, tombstones := internalIds - {id}, Without(tombstones, id);
    }

    lemma PendingIsInternal(m: Message)
      requires IdsValid()
      ensures current.Some? && current.value.stage.Falling? && m.id == Some(Number(current.value.stage.fallback)) ==>
                Internal(m.id) && current.value.stage.fallback in pending
      ensures m.id.Some? && m.id.value.Number? && m.id.value.n in pending ==>
                Internal(m.id) && current.Some? && current.value.stage == Falling(m.id.value.n)
    {
    }

    method ResolveFallback(id: int, failed: bool)
      requires IdsValid() && InOrder() && id in pending
      modifies `current, `outcomes, `pending, `internalIds
      ensures IdsValid() && InOrder() && internalIds == old(internalIds) - {id}
      ensures old(current).Some? && old(current).value.stage == Falling(id)
      ensures current == Some(old(current).value.(stage := Settled(!failed)))
      ensures outcomes == old(outcomes) + [!failed]
    {
      outcomes := outcomes + [!failed];
      pending, internalIds := pending - {id}, internalIds - {id};
      current := Some(current.value.(stage := Settled(!failed)));
    }

    method Forward(m: Message)
      requires InOrder()
      modifies `sent
      ensures InOrder() && sent == if open then old(sent) + [Forwarded(m)] else old(sent)
    {
      Send(Forwarded(m));
      AnswersExtendAll(Forwarded(m));
    }

    /** What a message from the other side does to the operation under way. */
    function Replied(operation: Option<Operation>, m: Message): Option<Operation> {
      if operation.Some? && operation.value.stage.Falling?
         && m.id == Some(Number(operation.value.stage.fallback))
      then Some(operation.value.(stage := Settled(!m.failed)))
      else CancelledIf(operation, operation.Some? && Concerned(m, operation.value))
    }

    /** ... and how it makes that come out, if it is decided. */
    function Decided(operation: Option<Operation>, m: Message): seq<bool> {
      if operation.Some? && operation.value.stage.Falling?
         && m.id == Some(Number(operation.value.stage.fallback))
      then [!m.failed]
      else Cancelled(operation, operation.Some? && Concerned(m, operation.value))
    }

    twostate lemma AnswersExtendAll(value: Sent)
      requires sent == old(sent) + [value] || sent == old(sent)
      ensures sent == old(sent) + [value] ==> Answers(sent) == Answers(old(sent)) + if value.Answer? then [value] else []
    {
      AnswersExtend(old(sent), value);
    }

    // ---------- The input queue ----------

    /** The next input of the queue goes to the worker. */
    method StartInput()
      requires Valid() && current.None? && queue != []
      modifies `queue, `current
      ensures Valid() && queue == old(queue)[1..]
      ensures closed ==> current.None?
      ensures !closed ==> current.Some? && current.value.job == old(queue)[0] && current.value.stage.Working?
      ensures !closed ==>
                current.value.target
                == if old(queue)[0].session.Some? && old(queue)[0].session.value in sessionTargets
                   then Some(sessionTargets[old(queue)[0].session.value]) else None
    {
      var job := queue[0];
      queue := queue[1..];
      if closed { return; }
      var target :=
        if job.session.Some? && job.session.value in sessionTargets then Some(sessionTargets[job.session.value]) else None;
      current := Some(Operation(job, target, Working));
    }

    /** The worker is done, has failed, or has taken too long. */
    method WorkerEnds(works: bool, upstreamFails: bool)
      requires Valid() && current.Some? && current.value.stage.Working?
      modifies `current, `outcomes, `internalIds, `pending
      ensures Valid() && current.Some? && current.value.job == old(current).value.job
      ensures outcomes == old(outcomes) + if works then [true] else if current.value.stage.Falling? then [] else [false]
      ensures works ==> current.value.stage == Settled(true)
      ensures !works ==> if Allowed(current.value.job.kind, fallback) && !closed && !upstreamFails
                         then current.value.stage.Falling? && current.value.stage.fallback !in old(internalIds)
                         else current.value.stage == Settled(false)
    {
      if works {
        current, outcomes := Some(current.value.(stage := Settled(true))), outcomes + [true];
      } else if Allowed(current.value.job.kind, fallback) {
        var id := InternalId();
        if closed || upstreamFails {
          current, outcomes := Some(current.value.(stage := Settled(false))), outcomes + [false];
        } else {
          pending := pending + {id};
          current := Some(current.value.(stage := Falling(id)));
        }
      } else {
        current, outcomes := Some(current.value.(stage := Settled(false))), outcomes + [false];
      }
    }

    method FallbackTimesOut()
      requires Valid() && current.Some? && current.value.stage.Falling?
      modifies `current, `outcomes, `pending, `internalIds, `tombstones
      ensures Valid() && current == Some(old(current).value.(stage := Settled(false)))
      ensures outcomes == old(outcomes) + [false]
      ensures |tombstones| > 0 && tombstones[|tombstones| - 1] == old(current).value.stage.fallback
      ensures |old(tombstones)| < MAX_TOMBSTONES ==> internalIds == old(internalIds)
    {
      var id := current.value.stage.fallback;
      pending := pending - {id};
      AddTombstone(id);
      current, outcomes := Some(current.value.(stage := Settled(false))), outcomes + [false];
    }

    method TombstoneExpires(id: int)
      requires Valid() && id in tombstones
      modifies `tombstones, `internalIds
      ensures Valid() && tombstones == Without(old(tombstones), id) && internalIds == old(internalIds) - {id}
    {
      tombstones, internalIds := Without(tombstones, id), internalIds - {id};
    }

    /** The operation ends with its one answer, which says how it came out. */
    method AnswerInput()
      requires Valid() && current.Some? && current.value.stage.Settled?
      modifies `current, `sent
      ensures Valid() && current.None?
      ensures var operation := old(current).value;
              sent == if open then old(sent) + [Answer(operation.job.id, operation.job.session, operation.stage.ok)]
                      else old(sent)
    {
      var operation := current.value;
      var value := Answer(operation.job.id, operation.job.session, operation.stage.ok);
      current := None;
      Send(value);
      AnswersExtendAll(value);
    }

    function StepsLeft(stage: Stage): nat {
      match stage
      case Working => 3
      case Falling(_) => 2
      case Settled(_) => 1
    }

    /** Whatever happens, in any order, keeps the invariants; what arrived and what was sent
        is never taken back. If moreover no message attaches a session to a second target, the
        two maps stay exact. */
    method Live(steps: nat, tidy: bool)
      requires Valid() && (tidy ==> Exact())
      modifies this
      ensures Valid() && (tidy ==> Exact()) && old(arrived) <= arrived && old(sent) <= sent && old(outcomes) <= outcomes
    {
      hide InOrder, IdsValid, SessionsValid, Inverse, Exact;
      for i := 0 to steps
        invariant Valid() && (tidy ==> Exact()) && old(arrived) <= arrived && old(sent) <= sent && old(outcomes) <= outcomes
      {
        ghost var arrivals, before, decided := arrived, sent, outcomes;
        if {
          case true => var frame: Frame, fails: bool := *, *; HandleClientMessage(frame, fails);
          case true =>
            var frame: Frame := *;
            if tidy && frame.Some? && !Tidy(frame.value) { frame := None; }
            HandleUpstreamMessage(frame);
          case current.None? && queue != [] => StartInput();
          case current.Some? && current.value.stage.Working? =>
            var works: bool, fails: bool := *, *;
            WorkerEnds(works, fails);
          case current.Some? && current.value.stage.Falling? => FallbackTimesOut();
          case current.Some? && current.value.stage.Settled? => AnswerInput();
          case tombstones != [] => TombstoneExpires(tombstones[0]);
          case true => Close();
          case true => Disconnect();
        }
        assert arrivals <= arrived && before <= sent && decided <= outcomes;
      }
    }

    /** Even if nobody else ever does anything, the timers alone bring every input its answer. */
    method RunTimers()
      requires Valid()
      modifies this
      ensures Valid() && queue == [] && current.None? && arrived == old(arrived)
      ensures open == old(open) && closed == old(closed)
      ensures open && !closed ==> |Answers(sent)| == |arrived|
                                  && forall i :: 0 <= i < |arrived| ==> AnswersJob(Answers(sent)[i], arrived[i])
      // What was decided stays, and whatever the timers decide has failed.
      ensures open && !closed ==> |outcomes| == |arrived|
                                  && forall i :: 0 <= i < |arrived| ==> Answers(sent)[i].Answer? && Answers(sent)[i].ok == outcomes[i]
      ensures old(outcomes) <= outcomes && forall i :: |old(outcomes)| <= i < |outcomes| ==> !outcomes[i]
    {
      while current.Some? || queue != []
        invariant Valid() && open == old(open) && closed == old(closed) && arrived == old(arrived)
        invariant old(outcomes) <= outcomes && forall i :: |old(outcomes)| <= i < |outcomes| ==> !outcomes[i]
        decreases |queue|, if current.None? then 0 else StepsLeft(current.value.stage)
      {
        if current.None? {
          StartInput();
        } else {
          match current.value.stage {
            case Working => WorkerEnds(false, false);
            case Falling(_) => FallbackTimesOut();
            case Settled(_) => AnswerInput();
          }
        }
      }
    }
  }

  lemma {:induction false} SomeNumberIsFree(s: set<int>)
    ensures exists id :: id < 0 && id !in s
  {
    var bound := LowerBound(s);
    assert bound < 0 && bound !in s;
  }

  lemma {:induction false} LowerBound(s: set<int>) returns (bound: int)
    ensures bound < 0 && forall x :: x in s ==> bound < x
    decreases |s|
  {
    bound := -1;
    if exists x :: x in s {
      var x :| x in s;
      var rest := LowerBound(s - {x});
      assert s == (s - {x}) + {x};
      bound := if rest < x then rest else x - 1;
    }
  }
}
