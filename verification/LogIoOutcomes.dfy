/** Which event makes a log I/O call end how, over every run of a lane from the start. */
module LogIoOutcomes {
  import opened Options
  import opened LogIoProtocol
  import opened LogIoInvariant
  import opened LogIoProperties

  // ------------------------------------------------------------- causes

  predicate IsActive(l: Lane, id: nat) { l.active.Some? && l.active.value.id == id }

  predicate IsHeld(l: Lane, id: nat) { IsActive(l, id) || exists i :: 0 <= i < |l.queued| && l.queued[i].id == id }

  predicate Accepts(c: Config, l: Lane, bytes: nat) {
    && l.terminating.None? && !l.stopped
    && |l.queued| + (if l.active.Some? then 1 else 0) < c.capacity && l.pendingBytes + bytes <= 16777216
  }

  /** The current worker answers the call it is at work on. */
  predicate Answers(l: Lane, e: Event, id: nat, ok: bool) {
    id !in l.settled && IsActive(l, id) && e.Message? && l.worker == Some(e.w) && e.id == id && e.ok == ok
  }

  /** The call's deadline passes while it waits, or while it is written and must not be cut off. */
  predicate TimesOut(c: Config, l: Lane, e: Event, id: nat) {
    id !in l.settled && e.Timer? && e.id == id && id in l.timers && !(c.interruptible && IsActive(l, id))
  }

  /** The lane closes, or its worker has ended, or the active read runs out of time when the
    * worker is gone already. */
  predicate ClearsAll(c: Config, l: Lane, e: Event) {
    || e.Close? || (e.Terminated? && l.terminating.Some?)
    || (e.Timer? && e.id in l.timers && c.interruptible && IsActive(l, e.id) && l.worker.None?)
  }

  /** The call is cleared away with all others, or no worker could be started for it. */
  predicate FallsDown(c: Config, l: Lane, e: Event, id: nat) {
    && id !in l.settled
    && ((IsHeld(l, id) && ClearsAll(c, l, e))
        || (e.Call? && Accepts(c, l, e.bytes) && id == l.nextId + 1 && l.worker.None? && e.spawn.StartThrows?))
  }

  // ------------------------------------------------------------- one event

  lemma HeldMeans(l: Lane, id: nat)
    ensures IsHeld(l, id) <==> id in HeldIds(l)
    ensures IsHeld(l, id) <==> id in Ids(Held(l))
  {
    HeldIs(l);
    QueuedMeans(l.queued, id);
  }

  lemma {:induction false} QueuedMeans(ps: seq<Pending>, id: nat)
    ensures id in Ids(ps) <==> exists i :: 0 <= i < |ps| && ps[i].id == id
  {
    if ps != [] {
      QueuedMeans(ps[..|ps| - 1], id);
      assert ps == ps[..|ps| - 1] + [ps[|ps| - 1]];
    }
  }

  lemma RejectTells(l: Lane, id: nat)
    requires id !in l.settled
    ensures var r := RejectPending(l);
      (id in r.settled <==> IsHeld(l, id)) && (id in r.settled ==> r.settled[id] == Unavailable)
  {
    HeldMeans(l, id);
    SettledAll(l.settled, Held(l), Unavailable);
  }

  lemma StartTells(l: Lane, spawn: Spawn, id: nat)
    requires id !in l.settled && (l.worker.None? && l.active.None? && l.queued != [] ==> |l.queued| == 1)
    ensures var r := StartNext(l, spawn);
      var down := l.active.None? && !l.stopped && l.terminating.None? && l.worker.None? && spawn.StartThrows?
                  && l.queued != [] && l.queued[0].id == id;
      (id in r.settled <==> down) && (down ==> r.settled[id] == Unavailable)
  {
    if l.active.None? && !l.stopped && l.terminating.None? && l.queued != [] {
      var a := Activated(l);
      assert StartNext(l, spawn) == Post(a, l.queued[0], spawn);
      RejectTells(a, id);
      hide RejectPending;
    } else {
      hide Post;
    }
  }

  lemma CallTells(c: Config, l: Lane, bytes: nat, spawn: Spawn, id: nat)
    requires Valid(c, l) && id !in l.settled
    ensures var r, e := CallLane(c, l, bytes, spawn), Call(bytes, spawn);
      (id in r.settled <==> FallsDown(c, l, e, id)) && (id in r.settled ==> r.settled[id] == Unavailable)
  {
    HeldIs(l);
    if Accepts(c, l, bytes) {
      assert l.worker.None? ==> l.active.None? && l.queued == [];
      StartTells(Queue(l, bytes), spawn, id);
      hide Valid, StartNext;
    } else {
      hide Valid, StartNext, Held;
    }
  }

  lemma MessageTells(c: Config, l: Lane, w: nat, other: nat, ok: bool, spawn: Spawn, id: nat)
    requires Valid(c, l) && id !in l.settled
    ensures var r := Answer(l, w, other, ok, spawn);
      (id in r.settled <==> Answers(l, Message(w, other, ok, spawn), id, ok)) &&
        (id in r.settled ==> r.settled[id] == Answered(ok))
  {
    if Awaited(l, w, other) {
      var done := Completed(l, ok);
      if other == id {
        StartKeepsSettled(done, spawn, id);
      } else {
        StartTells(done, spawn, id);
      }
      hide Valid, StartNext;
    }
  }

  lemma TimerTells(c: Config, l: Lane, other: nat, id: nat)
    requires Valid(c, l) && id !in l.settled
    ensures var r, e := Expire(c, l, other), Timer(other);
      && (id in r.settled <==> TimesOut(c, l, e, id) || FallsDown(c, l, e, id))
      && (id in r.settled ==> r.settled[id] == if TimesOut(c, l, e, id) then TimedOut else Unavailable)
  {
    if other in l.timers && IsActive(l, other) {
      var fired := l.(timers := l.timers - {other});
      hide Valid, RejectPending, IsHeld;
      RejectTells(fired, id);
      HeldMeans(l, id);
      HeldMeans(fired, id);
      hide HeldIds, Held, Ids;
    } else {
      hide Valid, IsHeld, Fail;
    }
  }

  lemma TerminatedTells(c: Config, l: Lane, spawn: Spawn, id: nat)
    requires Valid(c, l) && id !in l.settled
    ensures var r, e := TerminationDone(l, spawn), Terminated(spawn);
      (id in r.settled <==> FallsDown(c, l, e, id)) && (id in r.settled ==> r.settled[id] == Unavailable)
  {
    RejectTells(l, id);
    hide Valid, Ids, Held, SettleAll;
  }

  /** One event settles a call that is still open exactly when it is one of its causes, and
    * then with that cause's outcome. */
  lemma StepTells(c: Config, l: Lane, e: Event, id: nat)
    requires Valid(c, l) && id !in l.settled
    ensures var r := Step(c, l, e);
      && (id in r.settled <==>
           (e.Message? && Answers(l, e, id, e.ok)) || TimesOut(c, l, e, id) || FallsDown(c, l, e, id))
      && (e.Message? && Answers(l, e, id, e.ok) ==> r.settled[id] == Answered(e.ok))
      && (TimesOut(c, l, e, id) ==> r.settled[id] == TimedOut)
      && (FallsDown(c, l, e, id) ==> r.settled[id] == Unavailable)
  {
    match e
    case Call(bytes, spawn) => CallTells(c, l, bytes, spawn, id);
    case Message(w, other, ok, spawn) => MessageTells(c, l, w, other, ok, spawn, id);
    case Timer(other) => TimerTells(c, l, other, id);
    case Terminated(spawn) => TerminatedTells(c, l, spawn, id);
    case Close => RejectTells(l.(stopped := true), id);
    case WorkerFails(w) =>
    case Ends(w) =>
  }

  // ------------------------------------------------------------- a whole run

  /** The event makes the call end with this outcome. */
  predicate Causes(c: Config, l: Lane, e: Event, id: nat, o: Outcome) {
    match o
    case Answered(ok) => Answers(l, e, id, ok)
    case TimedOut => TimesOut(c, l, e, id)
    case Unavailable => FallsDown(c, l, e, id)
  }

  ghost predicate CausedAt(c: Config, events: seq<Event>, k: nat, id: nat, o: Outcome) {
    k < |events| && Causes(c, Run(c, IDLE, events[..k]), events[k], id, o)
  }

  ghost predicate Is(l: Lane, id: nat, o: Outcome) { id in l.settled && l.settled[id] == o }

  lemma StepCauses(c: Config, l: Lane, e: Event, id: nat, o: Outcome)
    requires Valid(c, l)
    ensures Is(Step(c, l, e), id, o) <==> Is(l, id, o) || Causes(c, l, e, id, o)
  {
    if id in l.settled {
      StepKeepsSettled(c, l, e, id);
    } else {
      StepTells(c, l, e, id);
    }
    hide Step;
  }

  /** A call ends with an outcome if and only if some event of the run was a cause of it. */
  lemma {:induction false} SettledExactly(c: Config, events: seq<Event>, id: nat, o: Outcome)
    ensures Is(Run(c, IDLE, events), id, o) <==> exists k: nat :: CausedAt(c, events, k, id, o)
  {
    hide *;
    if events == [] {
      NothingYet(c, id, o);
    } else {
      var front, e := events[..|events| - 1], events[|events| - 1];
      SettledExactly(c, front, id, o);
      RunsValid(c, front);
      StepCauses(c, Run(c, IDLE, front), e, id, o);
      CausedLater(c, front, e, id, o);
      RunSnoc(c, IDLE, front, e);
      assert events == front + [e];
    }
  }

  lemma NothingYet(c: Config, id: nat, o: Outcome)
    ensures !Is(Run(c, IDLE, []), id, o) && forall k: nat :: !CausedAt(c, [], k, id, o)
  {
    hide Causes;
  }

  lemma RunsValid(c: Config, events: seq<Event>)
    ensures Valid(c, Run(c, IDLE, events))
  {
    IdleValid(c);
    RunValid(c, IDLE, events);
  }

  lemma CausedLater(c: Config, front: seq<Event>, e: Event, id: nat, o: Outcome)
    ensures (exists k: nat :: CausedAt(c, front + [e], k, id, o))
       <==> (exists k: nat :: CausedAt(c, front, k, id, o)) || Causes(c, Run(c, IDLE, front), e, id, o)
  {
    hide Causes, Run;
    var events := front + [e];
    assert events[..|front|] == front;
    forall k: nat | k < |front|
      ensures CausedAt(c, events, k, id, o) <==> CausedAt(c, front, k, id, o)
    {
      assert front[..k] == events[..k];
    }
    assert CausedAt(c, events, |front|, id, o) <==> Causes(c, Run(c, IDLE, front), e, id, o);
  }

  /** An answer reaches the caller as it was given, however the run goes on. */
  lemma AnswerReachesCaller(c: Config, events: seq<Event>, k: nat, id: nat, ok: bool)
    requires k < |events| && Answers(Run(c, IDLE, events[..k]), events[k], id, ok)
    ensures Is(Run(c, IDLE, events), id, Answered(ok))
  {
    SettledExactly(c, events, id, Answered(ok));
    assert CausedAt(c, events, k, id, Answered(ok));
  }

  // ------------------------------------------------------------- acceptance and failures

  /** A call is accepted exactly when the lane is neither recovering nor closing and has a free
    * place and enough room; it then has the next id, a running deadline and a place in the lane,
    * or it has ended already. A refused call changes nothing. */
  lemma CallAccepted(c: Config, l: Lane, bytes: nat, spawn: Spawn)
    requires Valid(c, l)
    ensures var r, id := Step(c, l, Call(bytes, spawn)), l.nextId + 1;
      if Accepts(c, l, bytes) then
        && r.nextId == id && (IsHeld(r, id) <==> id !in r.settled)
        && (IsHeld(r, id) ==> id in r.timers && r.pendingBytes == l.pendingBytes + bytes)
      else r == l
  {
    HeldIs(l);
    if Accepts(c, l, bytes) {
      assert Step(c, l, Call(bytes, spawn)) == StartNext(Queue(l, bytes), spawn);
      AcceptedHolds(c, l, bytes, spawn);
    }
    hide Valid, StartNext, Held, Ids, Queue;
  }

  lemma AcceptedHolds(c: Config, l: Lane, bytes: nat, spawn: Spawn)
    requires Valid(c, l) && Accepts(c, l, bytes)
    ensures var r, id := StartNext(Queue(l, bytes), spawn), l.nextId + 1;
      && r.nextId == id && (IsHeld(r, id) <==> id !in r.settled)
      && (IsHeld(r, id) ==> id in r.timers && r.pendingBytes == l.pendingBytes + bytes)
  {
    hide StartNext, Held, Ids;
    var id, q := l.nextId + 1, Queue(l, bytes);
    var r := StartNext(q, spawn);
    assert l.worker.None? ==> l.active.None? && l.queued == [];
    assert id !in l.settled;
    HeldMeans(q, id);
    HeldMeans(r, id);
    QueueHolds(l, bytes);
    StartKeeps(q, spawn);
    StartTells(q, spawn, id);
    if l.worker.None? && spawn.StartThrows? { StartFails(q, spawn); }
    hide Valid, IsHeld, Queue;
  }

  lemma StartFails(l: Lane, spawn: Spawn)
    requires l.worker.None? && spawn.StartThrows? && l.active.None? && !l.stopped && l.terminating.None?
    requires l.queued != []
    ensures Held(StartNext(l, spawn)) == []
  {
    hide Ids, SettleAll;
  }

  lemma QueueHolds(l: Lane, bytes: nat)
    ensures var q, id := Queue(l, bytes), l.nextId + 1;
      IsHeld(q, id) && id in q.timers && q.pendingBytes == l.pendingBytes + bytes
  {
    assert Queue(l, bytes).queued[|l.queued|] == Pending(l.nextId + 1, bytes);
  }

  /** Unless it rejects everything, starting the next call only moves it to its place at work. */
  lemma StartKeeps(l: Lane, spawn: Spawn)
    ensures var r := StartNext(l, spawn);
      && r.nextId == l.nextId
      && (l.worker.Some? || !spawn.StartThrows? ==>
            r.timers == l.timers && r.pendingBytes == l.pendingBytes && Held(r) == Held(l))
  {
    hide Ids, SettleAll;
  }

  /** When its worker fails, the lane has none, waits for that worker to end, and still holds
    * every call it held; the end of the worker settles them. */
  lemma FailureGivesUp(c: Config, l: Lane, w: nat, spawn: Spawn, id: nat)
    requires Valid(c, l) && l.worker == Some(w)
    ensures var r := Step(c, l, WorkerFails(w));
      && r.worker.None? && r.terminating == Some(w) && r.settled == l.settled && (IsHeld(r, id) <==> IsHeld(l, id))
      && (IsHeld(l, id) && id !in l.settled ==> Is(Step(c, r, Terminated(spawn)), id, Unavailable))
  {
    var r := Step(c, l, WorkerFails(w));
    assert r == l.(worker := None, terminating := Some(w));
    StepValid(c, l, WorkerFails(w));
    hide Valid, Step;
    if id !in l.settled { StepTells(c, r, Terminated(spawn), id); }
  }
}
