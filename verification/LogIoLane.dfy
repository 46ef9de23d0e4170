/** The lane as the object its callers hold, each event handler proved against the state machine. */
module LogIoLanes {
  import opened Options
  import opened LogIoProtocol
  import opened LogIoInvariant

  class LogIoLane {
    const config: Config
    var worker: Option<nat>
    var active: Option<Pending>
    var queued: seq<Pending>
    var nextId: nat
    var stopped: bool
    var pendingBytes: int
    var terminating: Option<nat>
    var spawned: nat
    /** What the promises, timers, posted messages and processes around the lane are at. */
    ghost var settled: map<nat, Outcome>
    ghost var timers: set<nat>
    ghost var sent: seq<Sent>
    ghost var live: set<nat>

    ghost function View(): Lane
      reads this
    {
      Lane(worker, active, queued, nextId, stopped, pendingBytes, terminating, settled, timers, sent, live, spawned)
    }

    constructor (config: Config)
      ensures this.config == config && View() == IDLE
    {
      this.config := config;
      worker, active, queued, nextId, stopped, pendingBytes, terminating, spawned :=
        None, None, [], 0, false, 0, None, 0;
      settled, timers, sent, live := map[], {}, [], {};
    }

    /** Accepts a call unless the lane is recovering, closing or full. */
    method Call(bytes: nat, spawn: Spawn) returns (accepted: bool)
      requires Valid(config, View())
      modifies this
      ensures Valid(config, View()) && View() == CallLane(config, old(View()), bytes, spawn)
      ensures accepted <==> !Refused(config, old(View()), bytes)
    {
      CallValid(config, View(), bytes, spawn);
      HeldIs(View());
      hide Valid, StartNext, Held, Queue;
      if terminating.Some? || stopped { return false; }
      var count := |queued| + if active.Some? then 1 else 0;
      if count >= config.capacity || pendingBytes + bytes > MAX_QUEUED_LOG_BYTES { return false; }
      QueueRequest(bytes);
      StartNextRequest(spawn);
      accepted := true;
    }

    method QueueRequest(bytes: nat)
      modifies this
      ensures View() == Queue(old(View()), bytes)
    {
      nextId := nextId + 1;
      timers := timers + {nextId};
      pendingBytes := pendingBytes + bytes;
      queued := queued + [Pending(nextId, bytes)];
    }

    method StartNextRequest(spawn: Spawn)
      modifies this
      ensures View() == StartNext(old(View()), spawn)
    {
      hide Fail;
      if active.Some? || stopped || terminating.Some? || queued == [] { return; }
      var pending := queued[0];
      queued := queued[1..];
      active := Some(pending);
      if worker.None? {
        if spawn.StartThrows? {
          FailWorker();
          return;
        }
        worker, spawned, live := Some(spawned), spawned + 1, live + {spawned};
      }
      if spawn.PostThrows? {
        FailWorker();
      } else {
        sent := sent + [Sent(worker.value, pending.id)];
      }
    }

    /** A response; stale ones, from another worker or to another request, are ignored. */
    method HandleMessage(w: nat, id: nat, ok: bool, spawn: Spawn)
      requires Valid(config, View())
      modifies this
      ensures Valid(config, View()) && View() == Answer(old(View()), w, id, ok, spawn)
    {
      AnswerValid(config, View(), w, id, ok, spawn);
      hide Valid, StartNext, Completed;
      if worker != Some(w) || active.None? || active.value.id != id { return; }
      CompleteActive(ok);
      StartNextRequest(spawn);
    }

    method CompleteActive(ok: bool)
      requires active.Some?
      modifies this
      ensures View() == Completed(old(View()), ok)
    {
      var pending := active.value;
      active := None;
      pendingBytes := pendingBytes - pending.bytes;
      timers := timers - {pending.id};
      settled := Settle(settled, pending.id, Answered(ok));
    }

    /** An error or exit event of worker `w`. */
    method HandleFailure(w: nat)
      requires Valid(config, View())
      modifies this
      ensures Valid(config, View()) && View() == Step(config, old(View()), WorkerFails(w))
    {
      StepValid(config, View(), WorkerFails(w));
      if worker == Some(w) { FailWorker(); }
    }

    /** The deadline timer of request `id` fires. */
    method ExpireRequest(id: nat)
      requires Valid(config, View()) && id in timers
      modifies this
      ensures Valid(config, View()) && View() == Expire(config, old(View()), id)
    {
      hide Valid, Fail, ExpireQueuedCall, Settle;
      ExpireValid(config, View(), id);
      timers := timers - {id};
      if active.Some? && active.value.id == id {
        if config.interruptible {
          FailWorker();
        } else {
          settled := Settle(settled, id, TimedOut);
        }
      } else {
        ExpireQueuedRequest(id);
      }
    }

    method ExpireQueuedRequest(id: nat)
      modifies this
      ensures View() == ExpireQueuedCall(old(View()), id)
    {
      settled := Settle(settled, id, TimedOut);
      var i := FindQueued(id);
      if i < |queued| {
        pendingBytes := pendingBytes - queued[i].bytes;
        queued := queued[..i] + queued[i + 1..];
      }
    }

    method FailWorker()
      modifies this
      ensures View() == Fail(old(View()))
    {
      var failed := worker;
      worker := None;
      if failed.Some? {
        terminating := failed;
      } else {
        RejectHeld();
      }
    }

    method RejectHeld()
      modifies this
      ensures View() == RejectPending(old(View()))
    {
      var held := (if active.Some? then [active.value] else []) + queued;
      assert held == Held(View());
      queued := [];
      SettleHeld(held);
      active := None;
      pendingBytes := 0;
    }

    method SettleHeld(held: seq<Pending>)
      modifies `settled, `timers
      ensures settled == SettleAll(old(settled), held, Unavailable) && timers == old(timers) - Ids(held)
    {
      var i := 0;
      assert held[..0] == [];
      while i < |held|
        invariant i <= |held|
        invariant settled == SettleAll(old(settled), held[..i], Unavailable) && timers == old(timers) - Ids(held[..i])
      {
        assert held[..i + 1][..i] == held[..i];
        timers := timers - {held[i].id};
        settled := Settle(settled, held[i].id, Unavailable);
        i := i + 1;
      }
      assert held[..|held|] == held;
    }

    method FindQueued(id: nat) returns (i: nat)
      ensures i == IndexOf(queued, id)
    {
      i := 0;
      while i < |queued| && queued[i].id != id
        invariant i <= |queued| && IndexOf(queued, id) == i + IndexOf(queued[i..], id)
      {
        assert queued[i..][1..] == queued[i + 1..];
        i := i + 1;
      }
    }

    /** The awaited termination has ended, one way or the other. */
    method HandleTerminated(spawn: Spawn)
      requires Valid(config, View()) && terminating.Some?
      modifies this
      ensures Valid(config, View()) && View() == TerminationDone(old(View()), spawn)
    {
      TerminatedValid(config, View(), spawn);
      hide Valid;
      RejectHeld();
      live := live - {terminating.value};
      terminating := None;
      StartNextRequest(spawn);
    }

    method Close()
      requires Valid(config, View())
      modifies this
      ensures Valid(config, View()) && View() == CloseLane(old(View()))
    {
      hide Valid, RejectPending;
      CloseValid(config, View());
      stopped := true;
      RejectHeld();
      worker := None;
    }
  }
}
