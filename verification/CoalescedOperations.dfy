/** Concurrent requests for the same work, folded into one running pass and one more pass
  * for whatever is requested while it runs. */
module CoalescedOperations {
  import opened Options

  datatype Event = Request | PassSucceeds(value: int) | PassFails

  datatype Settlement = Pending | Resolved(value: int) | Rejected

  /** `clock` counts events. `starts` holds the time each pass began, `generation` what it
    * had been asked for by then, and `requests` the times of all requests. */
  datatype State = State(requested: nat, completed: nat, generation: nat, settlement: Settlement,
                         clock: nat, starts: seq<nat>, requests: seq<nat>)

  const STARTED := State(1, 0, 1, Pending, 0, [0], [])

  function Finish(s: State, value: int): State {
    if s.generation < s.requested then
      s.(completed := s.generation, generation := s.requested, starts := s.starts + [s.clock])
    else
      s.(completed := s.generation, settlement := Resolved(value))
  }

  function Step(s: State, e: Event): State {
    var t := s.(clock := s.clock + 1);
    match e
    case Request => t.(requested := s.requested + 1, requests := s.requests + [t.clock])
    case PassSucceeds(value) => if s.settlement.Pending? then Finish(t, value) else t
    case PassFails => if s.settlement.Pending? then t.(settlement := Rejected) else t
  }

  function Run(events: seq<Event>): State {
    if events == [] then STARTED else Step(Run(events[..|events| - 1]), events[|events| - 1])
  }

  lemma RunSnoc(events: seq<Event>, e: Event)
    ensures Run(events + [e]) == Step(Run(events), e)
  {
    hide Step;
    assert (events + [e])[..|events|] == events;
  }

  function LastStart(s: State): nat { if s.starts == [] then 0 else s.starts[|s.starts| - 1] }

  /** Requests that came after `time`. */
  function Since(requests: seq<nat>, time: nat): nat {
    if requests == [] then 0
    else Since(requests[..|requests| - 1], time) + if requests[|requests| - 1] > time then 1 else 0
  }

  lemma {:induction false} SinceBound(requests: seq<nat>, time: nat)
    requires forall r :: r in requests ==> r <= time
    ensures Since(requests, time) == 0
  {
    if requests != [] {
      var front, last := requests[..|requests| - 1], requests[|requests| - 1];
      forall r | r in front
        ensures r <= time
      {
        assert r in requests;
      }
      assert last in requests;
      SinceBound(front, time);
    }
  }

  lemma {:induction false} SinceNone(requests: seq<nat>, time: nat)
    requires Since(requests, time) == 0
    ensures forall r :: r in requests ==> r <= time
  {
    if requests != [] {
      SinceNone(requests[..|requests| - 1], time);
      assert requests == requests[..|requests| - 1] + [requests[|requests| - 1]];
    }
  }

  /** While a pass runs, the counter is ahead of it by exactly the requests made since it began. */
  ghost predicate Valid(s: State) {
    && s.starts != [] && LastStart(s) <= s.clock
    && (forall r :: r in s.requests ==> 0 < r <= s.clock)
    && (s.settlement.Pending? ==> s.requested == s.generation + Since(s.requests, LastStart(s)))
  }

  lemma StepValid(s: State, e: Event)
    requires Valid(s)
    ensures Valid(Step(s, e))
  {
    var t := Step(s, e);
    if e.Request? {
      assert t.requests[..|s.requests|] == s.requests;
    } else {
      SinceBound(s.requests, s.clock + 1);
    }
  }

  lemma {:induction false} RunValid(events: seq<Event>)
    ensures Valid(Run(events)) && Run(events).clock == |events|
  {
    if events != [] {
      RunValid(events[..|events| - 1]);
      StepValid(Run(events[..|events| - 1]), events[|events| - 1]);
    }
  }

  /** The pass that settles the result began after every request made before it settled. */
  lemma SettlesAfterRequests(events: seq<Event>, value: int)
    requires Run(events).settlement.Pending?
    requires Step(Run(events), PassSucceeds(value)).settlement == Resolved(value)
    ensures forall r :: r in Run(events).requests ==> r <= LastStart(Run(events))
  {
    RunValid(events);
    SinceNone(Run(events).requests, LastStart(Run(events)));
  }

  /** A pass is followed by exactly one more when something was requested while it ran, no
    * matter how often, and by none when nothing was. */
  lemma OneMorePass(events: seq<Event>, value: int)
    requires Run(events).settlement.Pending?
    ensures var s := Run(events); var t := Step(s, PassSucceeds(value));
      if Since(s.requests, LastStart(s)) > 0
      then |t.starts| == |s.starts| + 1 && t.settlement.Pending? && LastStart(t) == |events| + 1 &&
        Since(t.requests, LastStart(t)) == 0
      else t.starts == s.starts && t.settlement == Resolved(value)
  {
    RunValid(events);
    var s := Run(events);
    SinceBound(s.requests, s.clock + 1);
  }

  /** A failing pass rejects the shared result, whatever was requested meanwhile, and no other pass
    * starts; once the result is there, the end of a pass can no longer change anything. */
  lemma FailureRejects(events: seq<Event>)
    ensures var s, t := Run(events), Step(Run(events), PassFails);
      t.starts == s.starts && t.settlement == if s.settlement.Pending? then Rejected else s.settlement
  {
  }

  ghost predicate NoneAfter(requests: seq<nat>, time: nat) { forall r :: r in requests ==> r <= time }

  /** The moment the result is settled: a pass fails, or one succeeds after whose start nothing was
    * requested, and it is that pass's value. */
  ghost predicate SettlesAt(events: seq<Event>, k: nat, to: Settlement) {
    && k < |events| && Run(events[..k]).settlement.Pending?
    && match to
       case Pending => false
       case Rejected => events[k].PassFails?
       case Resolved(value) =>
         events[k] == PassSucceeds(value) && NoneAfter(Run(events[..k]).requests, LastStart(Run(events[..k])))
  }

  lemma NothingSince(requests: seq<nat>, time: nat)
    ensures Since(requests, time) == 0 <==> NoneAfter(requests, time)
  {
    if Since(requests, time) == 0 {
      SinceNone(requests, time);
    } else if NoneAfter(requests, time) {
      SinceBound(requests, time);
    }
  }

  predicate Settles(s: State, e: Event, to: Settlement) {
    && s.settlement.Pending?
    && match to
       case Pending => false
       case Rejected => e.PassFails?
       case Resolved(value) => e == PassSucceeds(value) && s.generation >= s.requested
  }

  lemma StepSettles(s: State, e: Event, to: Settlement)
    requires !to.Pending?
    ensures Step(s, e).settlement == to <==> s.settlement == to || Settles(s, e, to)
  {
  }

  lemma LastSettles(events: seq<Event>, to: Settlement)
    requires events != [] && !to.Pending?
    ensures var s := Run(events[..|events| - 1]);
      Run(events).settlement == to <==> s.settlement == to || SettlesAt(events, |events| - 1, to)
  {
    hide Run, Step, Since, LastStart, NoneAfter;
    var front, e := events[..|events| - 1], events[|events| - 1];
    var s := Run(front);
    RunValid(front);
    assert s.settlement.Pending? ==> s.requested == s.generation + Since(s.requests, LastStart(s));
    hide Valid;
    NothingSince(s.requests, LastStart(s));
    assert events == front + [e];
    RunSnoc(front, e);
    StepSettles(s, e, to);
  }

  /** The result is what it is if and only if some event settled it so. */
  lemma {:induction false} SettledBecause(events: seq<Event>, to: Settlement)
    requires !to.Pending?
    ensures Run(events).settlement == to <==> exists k: nat :: SettlesAt(events, k, to)
  {
    if events != [] {
      var front, n := events[..|events| - 1], |events| - 1;
      SettledBecause(front, to);
      LastSettles(events, to);
      hide Run, LastStart, NoneAfter;
      forall k: nat | k < n
        ensures SettlesAt(events, k, to) <==> SettlesAt(front, k, to)
      {
        assert front[..k] == events[..k];
      }
    }
  }

  lemma {:induction false} SettledStays(events: seq<Event>, more: seq<Event>)
    requires !Run(events).settlement.Pending?
    ensures Run(events + more).settlement == Run(events).settlement && Run(events + more).starts == Run(events).starts
  {
    if more == [] {
      ConcatNone(events);
    } else {
      SettledStays(events, more[..|more| - 1]);
      FrontOfConcat(events, more);
    }
  }

  lemma RefusedLate(events: seq<Event>, k: nat)
    requires k < |events| && !Run(events[..k]).settlement.Pending?
    ensures LastStart(Run(events)) <= k
  {
    hide Step;
    RunValid(events[..k]);
    assert events == events[..k] + events[k..];
    SettledStays(events[..k], events[k..]);
  }

  /** In a run that ends with a result, a request is served by a pass that starts after it if
    * and only if it was made before the loop's last check. */
  lemma ServedExactly(events: seq<Event>, k: nat)
    requires k < |events| && events[k].Request? && Run(events).settlement.Resolved?
    ensures k + 1 <= LastStart(Run(events)) <==> Run(events[..k]).settlement.Pending?
  {
    hide Run, LastStart;
    if Run(events[..k]).settlement.Pending? { ResolvedLate(events, k); } else { RefusedLate(events, k); }
  }

  /** A request right after the only pass resolved: nothing starts after it any more. */
  lemma LateRequest()
    ensures var s := Run([PassSucceeds(1), Request]);
      s.settlement == Resolved(1) && s.requests == [2] && s.starts == [0] && LastStart(s) < 2
  {
    assert [PassSucceeds(1), Request][..1] == [PassSucceeds(1)] && [PassSucceeds(1)][..0] == [];
    assert Run([PassSucceeds(1)]) == Step(Run([]), PassSucceeds(1));
  }

  lemma {:induction false} RequestLogged(events: seq<Event>, k: nat)
    requires k < |events| && events[k].Request?
    ensures k + 1 in Run(events).requests
  {
    var front := events[..|events| - 1];
    RunValid(front);
    if k < |front| {
      RequestLogged(front, k);
    } else {
      assert Run(events).requests[|Run(front).requests|] == k + 1;
    }
  }

  /** Every request before the settlement came no later than the last start. */
  lemma {:induction false} ResolvedLate(events: seq<Event>, k: nat)
    requires k < |events| && events[k].Request?
    requires Run(events[..k]).settlement.Pending? && Run(events).settlement.Resolved?
    ensures k + 1 <= LastStart(Run(events))
  {
    var front := events[..|events| - 1];
    var s := Run(front);
    RunValid(front);
    assert events[..|front|] == front;
    if k < |front| {
      assert front[..k] == events[..k] && front[k] == events[k];
      if s.settlement.Pending? {
        RequestLogged(front, k);
        SinceNone(s.requests, LastStart(s));
      } else {
        ResolvedLate(front, k);
      }
    }
  }

  // ------------------------------------------------------------- the object

  class CoalescedOperation {
    var requestedGeneration: nat
    var completedGeneration: nat
    var generation: nat
    var result: Settlement
    ghost var events: seq<Event>

    ghost predicate Follows()
      reads this
    {
      var s := Run(events);
      requestedGeneration == s.requested && completedGeneration == s.completed && generation == s.generation &&
        result == s.settlement
    }

    constructor ()
      ensures Follows() && events == []
    {
      requestedGeneration, completedGeneration, generation, result, events := 1, 0, 1, Pending, [];
    }

    method RequestAnotherPass()
      requires Follows()
      modifies this
      ensures Follows() && events == old(events) + [Request]
    {
      requestedGeneration := requestedGeneration + 1;
      events := events + [Request];
      RunSnoc(old(events), events[|events| - 1]);
    }

    /** The running pass resolves; tells whether another one starts. */
    method PassResolved(value: int) returns (again: bool)
      requires Follows() && result.Pending?
      modifies this
      ensures Follows() && events == old(events) + [PassSucceeds(value)]
      ensures again <==> result.Pending?
    {
      hide Run;
      completedGeneration := generation;
      again := completedGeneration < requestedGeneration;
      if again { generation := requestedGeneration; } else { result := Resolved(value); }
      events := events + [PassSucceeds(value)];
      RunSnoc(old(events), events[|events| - 1]);
    }

    method PassRejected()
      requires Follows() && result.Pending?
      modifies this
      ensures Follows() && events == old(events) + [PassFails]
    {
      result := Rejected;
      events := events + [PassFails];
      RunSnoc(old(events), events[|events| - 1]);
    }
  }
}
