/** The worker lane as an object whose handlers change it in place. */
module WorkerLanes {
  import opened Options
  import opened WorkerLaneProtocol

  class WorkerLane {
    const diagnostic: bool
    var worker: Option<nat>
    var workerFailed: bool
    var closing: bool
    var nextRequestId: nat
    var pending: seq<Request>
    var pendingBytes: int
    var drainWaiters: nat
    var spawned: nat
    /** The state of the promises and of the foreground tokens handed out. */
    ghost var settled: map<nat, Outcome>
    ghost var begun: set<nat>
    ghost var finished: set<nat>
    ghost var twice: bool

    ghost function View(): Lane
      reads this
    {
      Lane(worker, workerFailed, closing, nextRequestId, pending, pendingBytes, drainWaiters, settled, begun,
           finished, twice, spawned)
    }

    constructor (diagnostic: bool)
      ensures this.diagnostic == diagnostic && View() == IDLE
    {
      this.diagnostic := diagnostic;
      worker, workerFailed, closing, nextRequestId, pending, pendingBytes, drainWaiters, spawned :=
        None, false, false, 1, [], 0, 0, 0;
      settled, begun, finished, twice := map[], {}, {}, false;
    }

    /** Posts a task to the lane's worker, starting one if there is none. */
    method DispatchTo(task: Task, aborted: bool, posted: bool) returns (accepted: bool)
      requires Valid(View())
      modifies this
      ensures Valid(View()) && View() == DispatchTask(diagnostic, old(View()), task, aborted, posted)
      ensures accepted <==> !Refused(diagnostic, old(View()), task, aborted)
    {
      DispatchValid(diagnostic, View(), task, aborted, posted);
      hide Valid, FailAll, Accept, EnsureWorker;
      if aborted || closing || workerFailed { return false; }
      if |pending| >= Limit(diagnostic, task) || pendingBytes + Size(task) > MAX_QUEUED_LOG_BYTES { return false; }
      StartIfNone();
      AcceptTask(task);
      if !posted { FailPending(); }
      accepted := true;
    }

    method StartIfNone()
      modifies `worker, `spawned
      ensures View() == EnsureWorker(old(View())) && worker.Some?
    {
      if worker.None? { worker, spawned := Some(spawned), spawned + 1; }
    }

    method AcceptTask(task: Task)
      requires worker.Some?
      modifies this
      ensures View() == Accept(diagnostic, old(View()), task)
    {
      var foreground := !diagnostic && !task.Background?;
      pending := pending + [Request(nextRequestId, worker.value, Size(task), foreground, diagnostic)];
      pendingBytes := pendingBytes + Size(task);
      if foreground { begun := begun + {nextRequestId}; }
      nextRequestId := nextRequestId + 1;
    }

    method FinishRequest(request: Request, o: Outcome)
      modifies `settled, `finished, `twice
      ensures View() == Settle(old(View()), request, o)
    {
      twice := twice || request.id in settled || (request.foreground && request.id in finished);
      settled := if request.id in settled then settled else settled[request.id := o];
      finished := if request.foreground then finished + {request.id} else finished;
    }

    method HandleMessage(w: nat, id: nat, ok: bool)
      requires Valid(View())
      modifies this
      ensures Valid(View()) && View() == Receive(old(View()), w, id, ok)
    {
      ReceiveValid(View(), w, id, ok);
      hide Valid, Settle, Without, NotifyDrained;
      if worker != Some(w) || workerFailed { return; }
      var i := FindRequest(id);
      if i >= |pending| { return; }
      var request := pending[i];
      RemoveRequest(i);
      FinishRequest(request, Answered(ok));
      NotifyIfDrained();
    }

    method RemoveRequest(i: nat)
      requires i < |pending|
      modifies `pending, `pendingBytes
      ensures View() == Without(old(View()), i)
    {
      pendingBytes := pendingBytes - pending[i].bytes;
      pending := pending[..i] + pending[i + 1..];
    }

    method NotifyIfDrained()
      modifies `drainWaiters
      ensures View() == NotifyDrained(old(View()))
    {
      if pending == [] { drainWaiters := 0; }
    }

    method FindRequest(id: nat) returns (i: nat)
      ensures i == IndexOf(pending, id)
    {
      i := 0;
      while i < |pending| && pending[i].id != id
        invariant i <= |pending| && IndexOf(pending, id) == i + IndexOf(pending[i..], id)
      {
        assert pending[i..][1..] == pending[i + 1..];
        i := i + 1;
      }
    }

    /** Rejects whatever is pending and tells those who wait for the lane to drain. */
    method FailPending()
      modifies this
      ensures View() == FailAll(old(View()))
    {
      SettlePending();
      pending := [];
      pendingBytes := 0;
      drainWaiters := 0;
    }

    method SettlePending()
      modifies `settled, `finished, `twice
      ensures View() == SettleAll(old(View()), pending)
    {
      var i := 0;
      assert pending[..0] == [];
      while i < |pending|
        invariant i <= |pending| && View() == SettleAll(old(View()), pending[..i])
      {
        assert pending[..i + 1][..i] == pending[..i];
        FinishRequest(pending[i], Failed);
        i := i + 1;
      }
      assert pending[..|pending|] == pending;
    }

    method HandleError(w: nat)
      requires Valid(View())
      modifies this
      ensures Valid(View()) && View() == Step(diagnostic, old(View()), WorkerError(w))
    {
      StepValid(diagnostic, View(), WorkerError(w));
      hide Valid, FailAll;
      if worker != Some(w) { return; }
      workerFailed := true;
      FailPending();
    }

    method HandleExitOf(w: nat, code: int)
      requires Valid(View())
      modifies this
      ensures Valid(View()) && View() == HandleExit(old(View()), w, code)
    {
      StepValid(diagnostic, View(), WorkerExit(w, code));
      hide Valid, FailAll;
      if worker != Some(w) { return; }
      worker, workerFailed := None, false;
      if !closing && (code != 0 || pending != []) { FailPending(); }
    }

    method ExpireDiagnosticRead(id: nat)
      requires Valid(View())
      modifies this
      ensures Valid(View()) && View() == ExpireRead(old(View()), id)
    {
      ExpireValid(View(), id);
      hide Valid;
      var i := FindRequest(id);
      if i >= |pending| || !pending[i].timed { return; }
      var reader := pending[i].worker;
      pending := pending[i := pending[i].(timed := false)];
      if worker != Some(reader) || workerFailed { return; }
      workerFailed := true;
    }

    /** Starts closing; tells whether the caller has to wait for the lane to drain. */
    method StartClosing() returns (waits: bool)
      requires Valid(View())
      modifies this
      ensures Valid(View()) && View() == CloseLane(old(View())) && (waits <==> worker.Some? && pending != [])
    {
      closing := true;
      waits := worker.Some? && pending != [];
      if waits { drainWaiters := drainWaiters + 1; }
    }

    method DrainDeadlinePasses()
      requires Valid(View()) && drainWaiters > 0
      modifies this
      ensures Valid(View()) && View() == DrainExpires(old(View())) && pending == []
    {
      FailValid(View().(waiters := drainWaiters - 1));
      hide Valid, FailAll;
      drainWaiters := drainWaiters - 1;
      FailPending();
    }
  }
}
