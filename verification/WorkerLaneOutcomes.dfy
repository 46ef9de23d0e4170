/** Which event makes a worker-lane request end how, over every run of a lane from the start. */
module WorkerLaneOutcomes {
  import opened Options
  import opened WorkerLaneProtocol

  predicate IsPending(l: Lane, id: nat) { exists i :: 0 <= i < |l.pending| && l.pending[i].id == id }

  predicate Accepts(diagnostic: bool, l: Lane, task: Task, aborted: bool) {
    && !aborted && !l.closing && !l.failed
    && |l.pending| < (if diagnostic then 2 else if task.AppendLogs? then 64 else 256)
    && l.pendingBytes + (if task.AppendLogs? then task.bytes else 0) <= 16777216
  }

  /** The event ends whatever is pending: the worker breaks, or ends while the lane is open, or
    * cannot be ended, or the shutdown deadline passes, or a request cannot be posted. */
  predicate EndsAll(diagnostic: bool, l: Lane, e: Event) {
    || (e.WorkerError? && l.worker == Some(e.w))
    || (e.WorkerExit? && l.worker == Some(e.w) && !l.closing)
    || e.TerminateFails?
    || (e.DrainDeadline? && l.waiters > 0)
    || (e.Dispatch? && !e.posted && Accepts(diagnostic, l, e.task, e.aborted))
  }

  /** The event makes the request end with this outcome. */
  predicate Causes(diagnostic: bool, l: Lane, e: Event, id: nat, o: Outcome) {
    && id !in l.settled
    && match o
       case Answered(ok) =>
         IsPending(l, id) && e.Message? && l.worker == Some(e.w) && !l.failed && e.id == id && e.ok == ok
       case Failed => EndsAll(diagnostic, l, e) && (IsPending(l, id) || (e.Dispatch? && id == l.nextId))
  }

  ghost predicate CausedAt(diagnostic: bool, events: seq<Event>, k: nat, id: nat, o: Outcome) {
    k < |events| && Causes(diagnostic, Run(diagnostic, events[..k]), events[k], id, o)
  }

  ghost predicate Is(l: Lane, id: nat, o: Outcome) { id in l.settled && l.settled[id] == o }

  // ------------------------------------------------------------- one event

  lemma {:induction false} SettledAll(l: Lane, rs: seq<Request>, id: nat, o: Outcome)
    ensures Is(SettleAll(l, rs), id, o) <==> Is(l, id, o) || (id !in l.settled && id in Ids(rs) && o == Failed)
    ensures id in SettleAll(l, rs).settled <==> id in l.settled || id in Ids(rs)
  {
    if rs != [] { SettledAll(l, rs[..|rs| - 1], id, o); }
  }

  lemma {:induction false} SettleAllOnly(l: Lane, rs: seq<Request>)
    ensures var r := SettleAll(l, rs); r == l.(settled := r.settled, closed := r.closed, twice := r.twice)
  {
    if rs != [] { SettleAllOnly(l, rs[..|rs| - 1]); }
  }

  lemma FailedAll(l: Lane, id: nat, o: Outcome)
    ensures Is(FailAll(l), id, o) <==> Is(l, id, o) || (id !in l.settled && IsPending(l, id) && o == Failed)
  {
    SettledAll(l, l.pending, id, o);
    IdAt(l.pending, id);
    hide SettleAll, Ids;
  }

  lemma PendingFound(l: Lane, id: nat)
    requires Valid(l)
    ensures IsPending(l, id) <==> IndexOf(l.pending, id) < |l.pending|
    ensures IsPending(l, id) ==> id !in l.settled && l.pending[IndexOf(l.pending, id)].id == id
  {
    FoundAt(l.pending, id);
    IdAt(l.pending, id);
    hide IndexOf, Ids;
  }

  lemma ReceivedOne(diagnostic: bool, l: Lane, w: nat, other: nat, ok: bool, id: nat, o: Outcome)
    requires Valid(l)
    ensures Is(Receive(l, w, other, ok), id, o) <==>
      Is(l, id, o) || Causes(diagnostic, l, Message(w, other, ok), id, o)
  {
    hide Valid, IsPending, IndexOf, Settle, Without, NotifyDrained;
    PendingFound(l, other);
    if l.worker == Some(w) && !l.failed && IsPending(l, other) { ReceivedSettles(l, IndexOf(l.pending, other), ok); }
  }

  lemma ReceivedSettles(l: Lane, i: nat, ok: bool)
    requires i < |l.pending| && l.pending[i].id !in l.settled
    ensures NotifyDrained(Settle(Without(l, i), l.pending[i], Answered(ok))).settled
         == l.settled[l.pending[i].id := Answered(ok)]
  {
  }

  lemma {:induction false} FoundAt(rs: seq<Request>, id: nat)
    ensures IndexOf(rs, id) < |rs| <==> exists i :: 0 <= i < |rs| && rs[i].id == id
  {
    if rs != [] {
      FoundAt(rs[1..], id);
      assert rs == [rs[0]] + rs[1..];
    }
  }

  lemma AcceptsMeans(diagnostic: bool, l: Lane, task: Task, aborted: bool)
    ensures Accepts(diagnostic, l, task, aborted) <==> !Refused(diagnostic, l, task, aborted)
  {
  }

  lemma DispatchedOne(diagnostic: bool, l: Lane, task: Task, aborted: bool, posted: bool, id: nat, o: Outcome)
    ensures Is(DispatchTask(diagnostic, l, task, aborted, posted), id, o) <==>
      Is(l, id, o) || Causes(diagnostic, l, Dispatch(task, aborted, posted), id, o)
  {
    AcceptsMeans(diagnostic, l, task, aborted);
    hide Accepts, Refused, FailAll, Accept, IsPending, EnsureWorker;
    if Accepts(diagnostic, l, task, aborted) {
      var started := EnsureWorker(l);
      StartedSame(l, id);
      var a := Accept(diagnostic, started, task);
      AcceptedPending(diagnostic, started, task, id);
      FailedAll(a, id, o);
    }
  }

  lemma StartedSame(l: Lane, id: nat)
    ensures var s := EnsureWorker(l);
      && s.worker.Some? && s.settled == l.settled && s.nextId == l.nextId && s.pending == l.pending
      && (l.worker.Some? ==> s == l) && (IsPending(s, id) <==> IsPending(l, id))
  {
  }

  lemma AcceptedPending(diagnostic: bool, l: Lane, task: Task, id: nat)
    requires l.worker.Some?
    ensures var a := Accept(diagnostic, l, task);
      (IsPending(a, id) <==> IsPending(l, id) || id == l.nextId) && a.settled == l.settled
  {
    var a := Accept(diagnostic, l, task);
    assert a.pending[|l.pending|].id == l.nextId;
    assert forall i :: 0 <= i < |l.pending| ==> a.pending[i] == l.pending[i];
  }

  /** One event gives a request an outcome exactly when it is one of the outcome's causes. */
  lemma StepCauses(diagnostic: bool, l: Lane, e: Event, id: nat, o: Outcome)
    requires Valid(l)
    ensures Is(Step(diagnostic, l, e), id, o) <==> Is(l, id, o) || Causes(diagnostic, l, e, id, o)
  {
    hide FailAll, Valid, IsPending, DispatchTask, Receive;
    match e
    case Dispatch(task, aborted, posted) => DispatchedOne(diagnostic, l, task, aborted, posted, id, o);
    case Message(w, other, ok) => ReceivedOne(diagnostic, l, w, other, ok, id, o);
    case WorkerError(w) => FailedAll(l.(failed := true), id, o); SamePending(l, l.(failed := true), id);
    case WorkerExit(w, code) => ExitCauses(diagnostic, l, w, code, id, o);
    case Deadline(other) =>
    case TerminateFails => FailedAll(l, id, o);
    case Close =>
    case DrainDeadline =>
      if l.waiters > 0 {
        FailedAll(l.(waiters := l.waiters - 1), id, o);
        SamePending(l, l.(waiters := l.waiters - 1), id);
      }
  }

  lemma SamePending(l: Lane, r: Lane, id: nat)
    requires r.pending == l.pending
    ensures IsPending(r, id) <==> IsPending(l, id)
  {
  }

  lemma ExitCauses(diagnostic: bool, l: Lane, w: nat, code: int, id: nat, o: Outcome)
    ensures Is(HandleExit(l, w, code), id, o) <==> Is(l, id, o) || Causes(diagnostic, l, WorkerExit(w, code), id, o)
  {
    FailedAll(l.(worker := None, failed := false), id, o);
    hide FailAll;
  }

  // ------------------------------------------------------------- a whole run

  lemma CausedLater(diagnostic: bool, front: seq<Event>, e: Event, id: nat, o: Outcome)
    ensures (exists k: nat :: CausedAt(diagnostic, front + [e], k, id, o)) <==>
      ((exists k: nat :: CausedAt(diagnostic, front, k, id, o)) || Causes(diagnostic, Run(diagnostic, front), e, id, o))
  {
    hide Causes, Run;
    var events := front + [e];
    assert events[..|front|] == front;
    forall k: nat | k < |front|
      ensures CausedAt(diagnostic, events, k, id, o) <==> CausedAt(diagnostic, front, k, id, o)
    {
      assert front[..k] == events[..k];
    }
    assert CausedAt(diagnostic, events, |front|, id, o) <==> Causes(diagnostic, Run(diagnostic, front), e, id, o);
  }

  lemma NothingYet(diagnostic: bool, id: nat, o: Outcome)
    ensures !Is(Run(diagnostic, []), id, o) && forall k: nat :: !CausedAt(diagnostic, [], k, id, o)
  {
    hide Causes;
  }

  lemma RunSnoc(diagnostic: bool, events: seq<Event>, e: Event)
    ensures Run(diagnostic, events + [e]) == Step(diagnostic, Run(diagnostic, events), e)
  {
    hide Step;
    assert (events + [e])[..|events|] == events;
  }

  /** A request ends with an outcome if and only if some event of the run was a cause of it. */
  lemma {:induction false} SettledExactly(diagnostic: bool, events: seq<Event>, id: nat, o: Outcome)
    ensures Is(Run(diagnostic, events), id, o) <==> exists k: nat :: CausedAt(diagnostic, events, k, id, o)
  {
    hide *;
    if events == [] {
      NothingYet(diagnostic, id, o);
    } else {
      var front, e := events[..|events| - 1], events[|events| - 1];
      SettledExactly(diagnostic, front, id, o);
      RunValid(diagnostic, front);
      StepCauses(diagnostic, Run(diagnostic, front), e, id, o);
      CausedLater(diagnostic, front, e, id, o);
      RunSnoc(diagnostic, front, e);
      assert events == front + [e];
    }
  }

  // ------------------------------------------------------------- acceptance and expired reads

  /** A request is accepted exactly when it is not aborted, the lane is neither closing nor
    * recovering, and there is room; it then has the next id and is pending at the current worker, or
    * at a new one where there is none, once it could be posted. A refused one changes nothing. */
  lemma DispatchAccepted(diagnostic: bool, l: Lane, task: Task, aborted: bool, posted: bool)
    requires Valid(l)
    ensures var r := Step(diagnostic, l, Dispatch(task, aborted, posted));
      if Accepts(diagnostic, l, task, aborted) then
        && r.nextId == l.nextId + 1 && (l.worker.Some? ==> r.worker == l.worker && r.spawned == l.spawned)
        && (l.worker.None? ==> r.worker == Some(l.spawned) && r.spawned == l.spawned + 1)
        && (posted ==> |r.pending| == |l.pending| + 1 && r.pending[..|l.pending|] == l.pending
                       && r.pending[|l.pending|].id == l.nextId && r.worker == Some(r.pending[|l.pending|].worker)
                       && (r.pending[|l.pending|].foreground <==> !diagnostic && !task.Background?)
                       && (r.pending[|l.pending|].timed <==> diagnostic))
      else r == l
  {
    AcceptsMeans(diagnostic, l, task, aborted);
    var a := Accept(diagnostic, EnsureWorker(l), task);
    SettleAllOnly(a, a.pending);
    hide SettleAll, Valid, Accepts, Refused, Size;
  }

  /** A read that is still pending when its deadline passes costs the lane its worker: nothing
    * that worker says is heeded and nothing is accepted until it has ended, which is what the
    * pending requests are told. */
  lemma ExpiredGivesUp(diagnostic: bool, l: Lane, i: nat, id: nat, code: int)
    requires Valid(l) && i < |l.pending| && l.pending[i].timed && l.worker == Some(l.pending[i].worker) && !l.failed
    ensures var r, w := Step(diagnostic, l, Deadline(l.pending[i].id)), l.pending[i].worker;
      && r.failed && r.worker == l.worker && r.settled == l.settled && (IsPending(r, id) <==> IsPending(l, id))
      && (forall task, aborted, posted :: Step(diagnostic, r, Dispatch(task, aborted, posted)) == r)
      && (forall other, ok :: Step(diagnostic, r, Message(w, other, ok)) == r)
      && (IsPending(l, id) && id !in l.settled && !l.closing ==>
            Is(Step(diagnostic, r, WorkerExit(w, code)), id, Failed))
  {
    var r := Step(diagnostic, l, Deadline(l.pending[i].id));
    FoundFirst(l.pending, i, l.nextId);
    assert r == l.(pending := l.pending[i := l.pending[i].(timed := false)], failed := true);
    assert forall k :: 0 <= k < |l.pending| ==> r.pending[k].id == l.pending[k].id;
    assert IsPending(r, id) <==> IsPending(l, id);
    ExitCauses(diagnostic, r, l.pending[i].worker, code, id, Failed);
    hide Valid, HandleExit, IsPending, ExpireRead;
  }

  /** A worker that has ended is replaced by the next request; one that broke takes no more of them
    * and is heeded no more; and what any other worker does changes nothing. */
  lemma WorkersReplaced(diagnostic: bool, l: Lane, w: nat, code: int)
    requires Valid(l)
    ensures var exited, broken := Step(diagnostic, l, WorkerExit(w, code)), Step(diagnostic, l, WorkerError(w));
      if l.worker == Some(w) then
        && exited.worker.None? && !exited.failed && exited.spawned == l.spawned && exited.closing == l.closing
        && (exited.pending == if l.closing then l.pending else [])
        && broken.worker == l.worker && broken.failed && broken.pending == []
        && (forall task, aborted, posted :: Step(diagnostic, broken, Dispatch(task, aborted, posted)) == broken)
        && (forall id, ok :: Step(diagnostic, broken, Message(w, id, ok)) == broken)
      else exited == l && broken == l && forall id, ok :: Step(diagnostic, l, Message(w, id, ok)) == l
  {
    SettleAllOnly(l.(worker := None, failed := false), l.pending);
    SettleAllOnly(l.(failed := true), l.pending);
    hide SettleAll, Valid;
  }

  /** Closing settles nothing by itself and is for good: from then on nothing is accepted. One waits
    * for what is pending exactly while there is a worker to answer it. */
  lemma ClosesForGood(diagnostic: bool, l: Lane, e: Event)
    ensures var r := Step(diagnostic, l, Close);
      && r.closing && r.pending == l.pending && r.settled == l.settled && r.worker == l.worker
      && r.waiters == l.waiters + if l.worker.Some? && l.pending != [] then 1 else 0
    ensures l.closing ==> Step(diagnostic, l, e).closing && (e.Dispatch? ==> Step(diagnostic, l, e) == l)
  {
    FailAllCloses();
    hide FailAll;
  }

  lemma FailAllCloses()
    ensures forall l: Lane {:trigger FailAll(l)} :: FailAll(l).closing == l.closing
  {
    forall l: Lane {:trigger FailAll(l)}
      ensures FailAll(l).closing == l.closing
    {
      SettleAllOnly(l, l.pending);
      hide SettleAll;
    }
  }

  lemma {:induction false} FoundFirst(rs: seq<Request>, i: nat, below: nat)
    requires i < |rs| && Ascending(rs, below)
    ensures IndexOf(rs, rs[i].id) == i
  {
    if i > 0 { FoundFirst(rs[1..], i - 1, below); }
  }
}
