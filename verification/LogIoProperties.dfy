/** What the callers of a log I/O lane can rely on, over every run. */
module LogIoProperties {
  import opened Options
  import opened LogIoProtocol
  import opened LogIoInvariant

  lemma IdleValid(c: Config)
    ensures Valid(c, IDLE)
  {
    assert Held(IDLE) == [];
  }

  /** No accepted call is ever lost: it is settled, or it is held with its deadline timer
    * running, or - only on an interruptible lane - it waits for its worker to end. */
  lemma NeverLost(c: Config, events: seq<Event>, id: nat)
    requires var l := Run(c, IDLE, events); 1 <= id <= l.nextId
    ensures var l := Run(c, IDLE, events);
      id in l.settled || (id in HeldIds(l) && (id in l.timers || (c.interruptible && l.terminating.Some?)))
  {
    IdleValid(c);
    RunValid(c, IDLE, events);
    var l := Run(c, IDLE, events);
    assert id in l.settled || id in HeldIds(l);
  }

  /** Requests are posted in the order of their ids, and before one is posted every earlier
    * one has been settled. */
  lemma OneInFlight(c: Config, events: seq<Event>, i: nat, k: nat)
    requires var l := Run(c, IDLE, events); i < k < |l.sent|
    ensures var l := Run(c, IDLE, events); l.sent[i].id < l.sent[k].id && l.sent[i].id in l.settled
  {
    IdleValid(c);
    RunValid(c, IDLE, events);
    var l := Run(c, IDLE, events);
    IdsAbove(l.queued, LastSent(l), l.nextId);
    assert l.sent[i].id < l.sent[k].id;
    assert k == |l.sent| - 1 || l.sent[k].id < l.sent[|l.sent| - 1].id;
    assert 1 <= l.sent[i].id <= l.nextId;
    assert l.sent[i].id !in HeldIds(l);
  }

  /** At most one more request was posted, with an id above everything posted before. */
  ghost predicate Posts(sent: seq<Sent>, last: nat, after: seq<Sent>) {
    after == sent || (|after| == |sent| + 1 && after[..|sent|] == sent && after[|sent|].id > last)
  }

  lemma StartSends(l: Lane, spawn: Spawn)
    requires Ascending(l.queued, LastSent(l), l.nextId)
    ensures Posts(l.sent, LastSent(l), StartNext(l, spawn).sent)
  {
    assert forall m :: RejectPending(m).sent == m.sent;
    hide RejectPending;
  }

  /** One event posts at most one request, with an id above everything posted before. */
  lemma StepSends(c: Config, l: Lane, e: Event)
    requires Valid(c, l)
    ensures Posts(l.sent, LastSent(l), Step(c, l, e).sent)
  {
    hide Posts, StartNext, SettleAll, Settle, Ids, Held, Ascending;
    match e
    case Call(bytes, spawn) =>
      QueueOrder(l, bytes);
      StartSends(Queue(l, bytes), spawn);
      assert Queue(l, bytes).sent == l.sent;
      SameSent(l.sent, LastSent(l));
    case Message(w, id, ok, spawn) =>
      if Awaited(l, w, id) { StartSends(Completed(l, ok), spawn); }
      SameSent(l.sent, LastSent(l));
    case Terminated(spawn) =>
      if l.terminating.Some? { RejectedSends(l, spawn); }
      SameSent(l.sent, LastSent(l));
    case _ =>
      SameSent(l.sent, LastSent(l));
  }

  lemma SameSent(sent: seq<Sent>, last: nat)
    ensures Posts(sent, last, sent)
  {
  }

  lemma RejectedSends(l: Lane, spawn: Spawn)
    requires l.terminating.Some?
    ensures Posts(l.sent, LastSent(l), TerminationDone(l, spawn).sent)
  {
    hide SettleAll, Ids, Held;
  }

  /** The outcome of a call never changes once it is there. */
  lemma {:induction false} SettledOnce(c: Config, l: Lane, events: seq<Event>, id: nat)
    requires id in l.settled
    ensures var r := Run(c, l, events); id in r.settled && r.settled[id] == l.settled[id]
  {
    if events != [] {
      SettledOnce(c, l, events[..|events| - 1], id);
      StepKeepsSettled(c, Run(c, l, events[..|events| - 1]), events[|events| - 1], id);
    }
  }

  lemma StepKeepsSettled(c: Config, l: Lane, e: Event, id: nat)
    requires id in l.settled
    ensures id in Step(c, l, e).settled && Step(c, l, e).settled[id] == l.settled[id]
  {
    match e
    case Call(bytes, spawn) => StartKeepsSettled(Queue(l, bytes), spawn, id);
    case Message(w, other, ok, spawn) => if Awaited(l, w, other) { StartKeepsSettled(Completed(l, ok), spawn, id); }
    case WorkerFails(w) => FailKeepsSettled(l, id);
    case Timer(other) => FailKeepsSettled(l.(timers := l.timers - {other}), id);
    case Terminated(spawn) =>
      RejectKeepsSettled(l, id);
      if l.terminating.Some? {
        StartKeepsSettled(RejectPending(l).(terminating := None, live := l.live - {l.terminating.value}), spawn, id);
      }
    case Close => RejectKeepsSettled(l.(stopped := true), id);
    case Ends(w) =>
  }

  lemma RejectKeepsSettled(l: Lane, id: nat)
    requires id in l.settled
    ensures id in RejectPending(l).settled && RejectPending(l).settled[id] == l.settled[id]
  {
    SettledAll(l.settled, Held(l), Unavailable);
  }

  lemma FailKeepsSettled(l: Lane, id: nat)
    requires id in l.settled
    ensures id in Fail(l).settled && Fail(l).settled[id] == l.settled[id]
  {
    RejectKeepsSettled(l, id);
  }

  lemma StartKeepsSettled(l: Lane, spawn: Spawn, id: nat)
    requires id in l.settled
    ensures id in StartNext(l, spawn).settled && StartNext(l, spawn).settled[id] == l.settled[id]
  {
    if l.queued != [] {
      FailKeepsSettled(Activated(l), id);
      FailKeepsSettled(Started(Activated(l)), id);
    }
  }

  /** When its deadline passes a call is settled, or its worker is being terminated. */
  lemma DeadlineActs(c: Config, l: Lane, id: nat)
    requires Valid(c, l) && id in l.timers
    ensures var r := Expire(c, l, id);
      id !in r.timers && (id in r.settled || (c.interruptible && r.terminating.Some? && id in HeldIds(r)))
  {
    var fired := l.(timers := l.timers - {id});
    assert id in HeldIds(l);
    if l.active.Some? && l.active.value.id == id {
      HeldIs(fired);
      SettledAll(fired.settled, Held(fired), Unavailable);
    } else {
      IdsFind(l.queued, id);
    }
  }

  /** The end of a termination settles every call accepted so far and frees the lane. */
  lemma TerminationSettles(c: Config, l: Lane, spawn: Spawn)
    requires Valid(c, l) && l.terminating.Some?
    ensures var r := TerminationDone(l, spawn);
      && r.live == {} && r.terminating.None? && r.active.None? && r.queued == [] && r.timers == {}
      && r.nextId == l.nextId
      && forall id :: 1 <= id <= l.nextId ==> id in r.settled
  {
    RejectValid(c, l);
    forall id | 1 <= id <= l.nextId
      ensures id in RejectPending(l).settled
    {
    }
  }

  /** Once closed, a lane has settled everything, accepts nothing and posts nothing. */
  lemma {:induction false} ClosedForGood(c: Config, l: Lane, events: seq<Event>)
    requires Valid(c, l)
    ensures var r := Run(c, CloseLane(l), events);
      && r.stopped && r.sent == l.sent && r.nextId == l.nextId && r.live <= l.live && r.timers == {}
      && (forall id {:trigger id in r.settled} :: id in r.settled <==> 1 <= id <= l.nextId)
  {
    CloseValid(c, l);
    if events == [] {
    } else {
      var front := events[..|events| - 1];
      ClosedForGood(c, l, front);
      RunValid(c, CloseLane(l), front);
      StoppedStep(c, Run(c, CloseLane(l), front), events[|events| - 1]);
    }
  }

  lemma StoppedStep(c: Config, l: Lane, e: Event)
    requires Valid(c, l) && l.stopped
    ensures var r := Step(c, l, e);
      && r.stopped && r.sent == l.sent && r.nextId == l.nextId && r.live <= l.live && r.timers <= l.timers
      && r.settled == l.settled
  {
    assert Held(l) == [];
  }

  predicate Frees(e: Event, w: nat, id: nat) {
    (e.Message? && e.w == w && e.id == id) || (e.WorkerFails? && e.w == w) || e.Close?
  }

  /** On a lane that is not interruptible a write that ran out of time keeps its slot and its
    * worker: nothing else is posted before that write answers or the worker fails. */
  lemma {:induction false} SlotKept(c: Config, l: Lane, events: seq<Event>, w: nat, p: Pending)
    requires Valid(c, l) && !c.interruptible && l.worker == Some(w) && l.active == Some(p)
    requires forall e :: e in events ==> !Frees(e, w, p.id)
    ensures var r := Run(c, l, events); r.worker == Some(w) && r.active == Some(p) && r.sent == l.sent
  {
    if events != [] {
      var front, last := events[..|events| - 1], events[|events| - 1];
      assert events == front + [last];
      SlotKept(c, l, front, w, p);
      assert last in events;
      RunValid(c, l, front);
      hide Run;
      SlotStays(c, Run(c, l, front), last, w, p);
      assert Run(c, l, events) == Step(c, Run(c, l, front), last) by { RunSnoc(c, l, front, last); }
    }
  }

  lemma RunSnoc(c: Config, l: Lane, events: seq<Event>, e: Event)
    ensures Run(c, l, events + [e]) == Step(c, Run(c, l, events), e)
  {
    hide Step;
    assert (events + [e])[..|events|] == events;
  }

  lemma SlotStays(c: Config, l: Lane, e: Event, w: nat, p: Pending)
    requires Valid(c, l) && !c.interruptible && l.worker == Some(w) && l.active == Some(p) && !Frees(e, w, p.id)
    ensures var r := Step(c, l, e); r.worker == Some(w) && r.active == Some(p) && r.sent == l.sent
  {
    assert l.terminating.None?;
    hide Valid, Ids, Held, SettleAll, Settle, Refused;
  }

  /** A worker that was given up is never used again, so nothing it still says is heeded. */
  lemma {:induction false} RetiredForGood(c: Config, l: Lane, events: seq<Event>, w: nat)
    requires Valid(c, l) && w < l.spawned && l.worker != Some(w)
    ensures var r := Run(c, l, events); w < r.spawned && r.worker != Some(w)
    ensures forall id, ok, spawn :: Answer(Run(c, l, events), w, id, ok, spawn) == Run(c, l, events)
  {
    if events != [] {
      RetiredForGood(c, l, events[..|events| - 1], w);
      RetiredStep(c, Run(c, l, events[..|events| - 1]), events[|events| - 1], w);
    }
  }

  lemma RetiredStep(c: Config, l: Lane, e: Event, w: nat)
    requires w < l.spawned && l.worker != Some(w)
    ensures w < Step(c, l, e).spawned && Step(c, l, e).worker != Some(w)
  {
  }
}
