/** The shared stores as one copy worker sees them: between any two of its calls everyone
  * else may do anything. */
module VersionCopyStores {
  import opened VersionCopyProtocol
  import opened VersionCopyInvariant
  import opened VersionCopySafety

  predicate Foreign(e: Event, t: nat) {
    e.Expire? || e.Retry? || e.Cancel? || e.t != t || (e.Act? && e.action.Throw?)
  }

  /** What interference can do to worker `t`: nothing, or make its next call throw. */
  lemma ForeignStep(job: Job, s: State, e: Event, t: nat)
    requires Foreign(e, t)
    ensures t in Step(job, s, e).workers <==> t in s.workers
    ensures t in s.workers ==>
      Step(job, s, e).workers[t] == s.workers[t] || Step(job, s, e).workers[t].pc.Thrown?
  {
    if e.Act? && e.t in s.workers {
      hide WorkerStep;
      StepConfined(job, s, e.t, e.action);
      ThrowMoves(job, s, e.t, e.action);
    }
  }

  lemma ThrowMoves(job: Job, s: State, t: nat, a: Action)
    requires t in s.workers
    ensures a.Throw? ==>
      WorkerStep(job, s, t, a).workers[t] == s.workers[t] || WorkerStep(job, s, t, a).workers[t].pc.Thrown?
  {
  }

  predicate At(s: State, t: nat, p: Progress, pc: Pc) { t in s.workers && s.workers[t] == Worker(Running, p, pc) }

  predicate Threw(s: State, t: nat) { t in s.workers && s.workers[t].pc.Thrown? }

  class Stores {
    const job: Job
    var state: State
    /** What everyone else does at each pause still to come. */
    var agenda: seq<seq<Event>>
    ghost var trace: seq<Event>

    ghost predicate Valid()
      reads this
    {
      job.attempts < job.tables && state == Run(job, trace)
    }

    constructor (job: Job, agenda: seq<seq<Event>>)
      requires job.attempts < job.tables
      ensures Valid() && this.job == job && state == Created(job)
    {
      this.job, this.agenda, state, trace := job, agenda, Created(job), [];
    }

    method Do(e: Event)
      requires Valid()
      modifies `state, `trace
      ensures Valid() && state == Step(job, old(state), e) && trace == old(trace) + [e]
    {
      assert (trace + [e])[..|trace|] == trace;
      state, trace := Step(job, state, e), trace + [e];
    }

    /** Lets the others run until worker `t` is scheduled again. */
    method Pause(t: nat)
      requires Valid()
      modifies `state, `trace, `agenda
      ensures Valid() && (t in state.workers <==> t in old(state).workers)
      ensures t in state.workers ==> state.workers[t] == old(state).workers[t] || state.workers[t].pc.Thrown?
      ensures if old(agenda) == [] then state == old(state) && agenda == [] else |agenda| < |old(agenda)|
    {
      if agenda != [] {
        var events := agenda[0];
        agenda := agenda[1..];
        var i := 0;
        while i < |events|
          invariant i <= |events| && Valid() && (t in state.workers <==> t in old(state).workers)
          invariant t in state.workers ==> state.workers[t] == old(state).workers[t] || state.workers[t].pc.Thrown?
          invariant |agenda| < |old(agenda)|
        {
          if Foreign(events[i], t) {
            ForeignStep(job, state, events[i], t);
            Do(events[i]);
          }
          i := i + 1;
        }
      }
    }

    /** One call of worker `t`, after whatever came before it. */
    method Call(t: nat, a: Action) returns (ok: bool, ghost before: State)
      requires Valid() && t in state.workers && !state.workers[t].pc.Thrown? && !a.Throw?
      modifies `state, `trace, `agenda
      ensures Valid() && t in before.workers && t in state.workers
      ensures ok <==> !state.workers[t].pc.Thrown?
      ensures ok || old(agenda) == [] ==>
        before.workers[t] == old(state).workers[t] && state == WorkerStep(job, before, t, a)
      ensures if old(agenda) == [] then before == old(state) && agenda == [] else |agenda| < |old(agenda)|
      ensures Inv(job, before)
    {
      hide WorkerStep, Run, Inv;
      Pause(t);
      before := state;
      RunKeeps(job, trace);
      if state.workers[t].pc.Thrown? {
        ok := false;
      } else {
        StepConfined(job, state, t, a);
        Do(Act(t, a));
        ok := !state.workers[t].pc.Thrown?;
      }
    }

    /** The worker holds a live lease on a job in this status and nobody else moves any more. */
    predicate Undisturbed(t: nat, status: Status)
      reads this
    {
      agenda == [] && state.db.lease == Lease(t, true) && state.db.status == status &&
        (status.Running? || status.Cancelling?)
    }

    /** The worker holds a live lease on a running job and nobody else moves any more. */
    predicate Alone(t: nat)
      reads this
    {
      agenda == [] && state.db.lease == Lease(t, true) && state.db.status.Running?
    }
  }

  function Smaller(a: int, b: int): int { if a < b then a else b }

  /** A page holds at least one entry, at most 32 and never more than there are; which is up
    * to the byte limit of the reader. */
  method PageLength(left: nat) returns (n: nat)
    requires left > 0
    ensures 1 <= n <= 32 && n <= left
  {
    n :| 1 <= n <= 32 && n <= left;
  }
}
