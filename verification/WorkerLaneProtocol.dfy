/** One lane of the worker pool: requests in flight to a worker thread, its failure and
  * replacement, the foreground tokens held meanwhile, and draining on shutdown. */
module WorkerLaneProtocol {
  import opened Options

  const MAX_QUEUED_LOG_BYTES := 16777216

  datatype Task = AppendLogs(bytes: nat) | Foreground | Background

  datatype Outcome = Answered(ok: bool) | Failed

  /** `worker` is the worker the request was posted to; `timed` says its deadline is running. */
  datatype Request = Request(id: nat, worker: nat, bytes: nat, foreground: bool, timed: bool)

  /** `begun` and `closed` are foreground tokens by request; `twice` would record a request
    * that is settled again or a token that is closed again. */
  datatype Lane = Lane(worker: Option<nat>, failed: bool, closing: bool, nextId: nat,
                       pending: seq<Request>, pendingBytes: int, waiters: nat, settled: map<nat, Outcome>,
                       begun: set<nat>, closed: set<nat>, twice: bool, spawned: nat)

  /** `TerminateFails`: ending the worker of an expired read was refused; this may be reported at
    * any later time, whatever worker there is by then. */
  datatype Event =
    | Dispatch(task: Task, aborted: bool, posted: bool)
    | Message(w: nat, id: nat, ok: bool)
    | WorkerError(w: nat)
    | WorkerExit(w: nat, code: int)
    | Deadline(id: nat)
    | TerminateFails
    | Close
    | DrainDeadline

  const IDLE := Lane(None, false, false, 1, [], 0, 0, map[], {}, {}, false, 0)

  function Size(task: Task): nat { if task.AppendLogs? then task.bytes else 0 }

  function Limit(diagnostic: bool, task: Task): nat { if diagnostic then 2 else if task.AppendLogs? then 64 else 256 }

  function Bytes(rs: seq<Request>): nat { if rs == [] then 0 else Bytes(rs[..|rs| - 1]) + rs[|rs| - 1].bytes }

  function Ids(rs: seq<Request>): set<nat> { if rs == [] then {} else Ids(rs[..|rs| - 1]) + {rs[|rs| - 1].id} }

  function Tokens(rs: seq<Request>): set<nat> {
    if rs == [] then {} else Tokens(rs[..|rs| - 1]) + if rs[|rs| - 1].foreground then {rs[|rs| - 1].id} else {}
  }

  /** Settling a request gives back its token. */
  function Settle(l: Lane, r: Request, o: Outcome): Lane {
    l.(settled := if r.id in l.settled then l.settled else l.settled[r.id := o],
       closed := if r.foreground then l.closed + {r.id} else l.closed,
       twice := l.twice || r.id in l.settled || (r.foreground && r.id in l.closed))
  }

  function SettleAll(l: Lane, rs: seq<Request>): Lane {
    if rs == [] then l else Settle(SettleAll(l, rs[..|rs| - 1]), rs[|rs| - 1], Failed)
  }

  function NotifyDrained(l: Lane): Lane { if l.pending == [] then l.(waiters := 0) else l }

  function FailAll(l: Lane): Lane {
    NotifyDrained(SettleAll(l, l.pending).(pending := [], pendingBytes := 0))
  }

  function EnsureWorker(l: Lane): Lane {
    if l.worker.Some? then l else l.(worker := Some(l.spawned), spawned := l.spawned + 1)
  }

  predicate Refused(diagnostic: bool, l: Lane, task: Task, aborted: bool) {
    || aborted || l.closing || l.failed
    || |l.pending| >= Limit(diagnostic, task) || l.pendingBytes + Size(task) > MAX_QUEUED_LOG_BYTES
  }

  function Accept(diagnostic: bool, l: Lane, task: Task): Lane
    requires l.worker.Some?
  {
    var foreground := !diagnostic && !task.Background?;
    l.(nextId := l.nextId + 1,
       pending := l.pending + [Request(l.nextId, l.worker.value, Size(task), foreground, diagnostic)],
       pendingBytes := l.pendingBytes + Size(task), begun := if foreground then l.begun + {l.nextId} else l.begun)
  }

  function DispatchTask(diagnostic: bool, l: Lane, task: Task, aborted: bool, posted: bool): Lane {
    if Refused(diagnostic, l, task, aborted) then l
    else
      var accepted := Accept(diagnostic, EnsureWorker(l), task);
      if posted then accepted else FailAll(accepted)
  }

  function IndexOf(rs: seq<Request>, id: nat): (i: nat)
    ensures i <= |rs|
    ensures i < |rs| ==> rs[i].id == id
  {
    if rs == [] || rs[0].id == id then 0 else 1 + IndexOf(rs[1..], id)
  }

  function Without(l: Lane, i: nat): Lane
    requires i < |l.pending|
  {
    l.(pending := l.pending[..i] + l.pending[i + 1..], pendingBytes := l.pendingBytes - l.pending[i].bytes)
  }

  /** A response counts only from the current, unfailed worker and for a pending request. */
  function Receive(l: Lane, w: nat, id: nat, ok: bool): Lane {
    var i := IndexOf(l.pending, id);
    if l.worker != Some(w) || l.failed || i >= |l.pending| then l
    else NotifyDrained(Settle(Without(l, i), l.pending[i], Answered(ok)))
  }

  function HandleExit(l: Lane, w: nat, code: int): Lane {
    if l.worker != Some(w) then l
    else
      var gone := l.(worker := None, failed := false);
      if !l.closing && (code != 0 || l.pending != []) then FailAll(gone) else gone
  }

  /** A diagnostic read ran too long: its worker is given up, and its requests are rejected
    * only when that worker has ended. */
  function ExpireRead(l: Lane, id: nat): Lane {
    var i := IndexOf(l.pending, id);
    if i >= |l.pending| || !l.pending[i].timed then l
    else
      var fired := l.(pending := l.pending[i := l.pending[i].(timed := false)]);
      if l.worker != Some(l.pending[i].worker) || l.failed then fired else fired.(failed := true)
  }

  function CloseLane(l: Lane): Lane {
    var closing := l.(closing := true);
    if l.worker.Some? && l.pending != [] then closing.(waiters := l.waiters + 1) else closing
  }

  /** The shutdown deadline of one waiter: what is still pending is rejected. */
  function DrainExpires(l: Lane): Lane {
    if l.waiters == 0 then l else FailAll(l.(waiters := l.waiters - 1))
  }

  function Step(diagnostic: bool, l: Lane, e: Event): Lane {
    match e
    case Dispatch(task, aborted, posted) => DispatchTask(diagnostic, l, task, aborted, posted)
    case Message(w, id, ok) => Receive(l, w, id, ok)
    case WorkerError(w) => if l.worker == Some(w) then FailAll(l.(failed := true)) else l
    case WorkerExit(w, code) => HandleExit(l, w, code)
    case Deadline(id) => ExpireRead(l, id)
    case TerminateFails => FailAll(l)
    case Close => CloseLane(l)
    case DrainDeadline => DrainExpires(l)
  }

  function Run(diagnostic: bool, events: seq<Event>): Lane {
    if events == [] then IDLE else Step(diagnostic, Run(diagnostic, events[..|events| - 1]), events[|events| - 1])
  }

  // ------------------------------------------------------------- the invariant

  ghost predicate Ascending(rs: seq<Request>, below: nat) {
    && (forall i {:trigger rs[i]} :: 0 <= i < |rs| ==> 1 <= rs[i].id < below)
    && (forall i, k {:trigger rs[i], rs[k]} :: 0 <= i < k < |rs| ==> rs[i].id < rs[k].id)
  }

  /** Every accepted request is either pending or settled, never both and never twice, and
    * its token is open exactly while it is pending. */
  ghost predicate Exact(l: Lane) {
    && !l.twice && l.nextId >= 1
    && (forall id {:trigger id in l.settled} :: 1 <= id < l.nextId <==> id in l.settled || id in Ids(l.pending))
    && Ids(l.pending) !! l.settled.Keys
    && l.begun == l.closed + Tokens(l.pending) && l.closed !! Tokens(l.pending) && l.closed <= l.settled.Keys
  }

  ghost predicate Bounded(l: Lane) {
    l.pendingBytes == Bytes(l.pending) <= MAX_QUEUED_LOG_BYTES && |l.pending| <= 256
  }

  ghost predicate Shaped(l: Lane) {
    && (l.waiters > 0 ==> l.pending != [] && l.closing)
    && (l.pending != [] ==> l.worker.Some? || l.closing)
    && (l.failed ==> l.worker.Some?)
  }

  ghost predicate Valid(l: Lane) { Ascending(l.pending, l.nextId) && Exact(l) && Bounded(l) && Shaped(l) }

  // ------------------------------------------------------------- lists of requests

  lemma {:induction false} SumsConcat(a: seq<Request>, b: seq<Request>)
    ensures Bytes(a + b) == Bytes(a) + Bytes(b) && Ids(a + b) == Ids(a) + Ids(b) &&
      Tokens(a + b) == Tokens(a) + Tokens(b)
  {
    if b == [] {
      ConcatNone(a);
    } else {
      SumsConcat(a, b[..|b| - 1]);
      FrontOfConcat(a, b);
    }
  }

  lemma SumsOne(r: Request)
    ensures Bytes([r]) == r.bytes && Ids([r]) == {r.id} && Tokens([r]) == if r.foreground then {r.id} else {}
  {
    assert [r][..0] == [];
  }

  lemma SumsSplit(rs: seq<Request>, i: nat)
    requires i < |rs|
    ensures var rest := rs[..i] + rs[i + 1..];
      && Bytes(rs) == Bytes(rest) + rs[i].bytes && Ids(rs) == Ids(rest) + {rs[i].id}
      && Tokens(rs) == Tokens(rest) + if rs[i].foreground then {rs[i].id} else {}
  {
    AroundAt(rs, i);
    SumsConcat(rs[..i], [rs[i]] + rs[i + 1..]);
    SumsConcat([rs[i]], rs[i + 1..]);
    SumsConcat(rs[..i], rs[i + 1..]);
    SumsOne(rs[i]);
  }

  lemma {:induction false} IdsBelow(rs: seq<Request>, below: nat)
    requires Ascending(rs, below)
    ensures forall id :: id in Ids(rs) ==> 1 <= id < below
    ensures Tokens(rs) <= Ids(rs)
  {
    if rs != [] { IdsBelow(rs[..|rs| - 1], below); }
  }

  lemma {:induction false} IdAt(rs: seq<Request>, id: nat)
    ensures id in Ids(rs) <==> exists i :: 0 <= i < |rs| && rs[i].id == id
  {
    if rs != [] { IdAt(rs[..|rs| - 1], id); }
  }

  lemma SplitAscending(rs: seq<Request>, i: nat, below: nat)
    requires i < |rs| && Ascending(rs, below)
    ensures Ascending(rs[..i] + rs[i + 1..], below) && rs[i].id !in Ids(rs[..i] + rs[i + 1..])
  {
    IdAt(rs[..i] + rs[i + 1..], rs[i].id);
  }

  // ------------------------------------------------------------- failing everything

  lemma SettleIs(l: Lane, r: Request)
    requires r.id !in l.settled && (r.foreground ==> r.id !in l.closed) && !l.twice
    ensures var s := Settle(l, r, Failed);
      && s == l.(settled := s.settled, closed := l.closed + if r.foreground then {r.id} else {})
      && s.settled.Keys == l.settled.Keys + {r.id}
  {
  }

  lemma {:induction false} SettleAllIs(l: Lane, rs: seq<Request>)
    requires Ascending(rs, l.nextId) && Ids(rs) !! l.settled.Keys && Tokens(rs) !! l.closed && !l.twice
    ensures var r := SettleAll(l, rs);
      && r == l.(settled := r.settled, closed := l.closed + Tokens(rs))
      && r.settled.Keys == l.settled.Keys + Ids(rs)
  {
    if rs != [] {
      var front, last := rs[..|rs| - 1], rs[|rs| - 1];
      IdsBelow(front, last.id);
      assert Ascending(front, l.nextId) && Ids(rs) == Ids(front) + {last.id};
      assert Tokens(rs) == Tokens(front) + if last.foreground then {last.id} else {};
      assert last.id !in Ids(front) && last.id !in Tokens(front);
      hide Ids, Tokens, Ascending, Settle;
      SettleAllIs(l, front);
      SettleIs(SettleAll(l, front), last);
    }
  }

  lemma FailValid(l: Lane)
    requires Ascending(l.pending, l.nextId) && Exact(l) && (l.failed ==> l.worker.Some?)
    ensures Valid(FailAll(l)) && FailAll(l).pending == []
    ensures FailAll(l).settled.Keys == l.settled.Keys + Ids(l.pending) && FailAll(l).closed == l.begun
  {
    hide SettleAll, Ascending;
    SettleAllIs(l, l.pending);
    IdsBelow(l.pending, l.nextId);
    NothingLeft(l.nextId);
    assert FailAll(l).pending == [];
  }

  lemma NothingLeft(below: nat)
    ensures Bytes([]) == 0 && Ids([]) == {} && Tokens([]) == {} && Ascending([], below)
  {
  }

  lemma DispatchValid(diagnostic: bool, l: Lane, task: Task, aborted: bool, posted: bool)
    requires Valid(l)
    ensures Valid(DispatchTask(diagnostic, l, task, aborted, posted))
  {
    if !Refused(diagnostic, l, task, aborted) {
      AcceptValid(diagnostic, EnsureWorker(l), task);
      if !posted { FailValid(Accept(diagnostic, EnsureWorker(l), task)); }
    }
  }

  lemma AcceptValid(diagnostic: bool, l: Lane, task: Task)
    requires Valid(l) && l.worker.Some? && |l.pending| < 256 && l.pendingBytes + Size(task) <= MAX_QUEUED_LOG_BYTES
    ensures Valid(Accept(diagnostic, l, task))
  {
    var a := Accept(diagnostic, l, task);
    var r := a.pending[|l.pending|];
    SumsConcat(l.pending, [r]);
    SumsOne(r);
    IdsBelow(l.pending, l.nextId);
    AscendingSnoc(l.pending, l.nextId, r);
    hide Ascending, Ids, Tokens, Bytes, Exact;
    AcceptExact(l, a);
  }

  /** One more pending request under a new id, its token open. */
  lemma AcceptExact(l: Lane, a: Lane)
    requires Exact(l) && l.nextId !in Ids(l.pending) && Tokens(l.pending) <= Ids(l.pending)
    requires a.nextId == l.nextId + 1 && a.settled == l.settled && a.closed == l.closed && a.twice == l.twice
    requires Ids(a.pending) == Ids(l.pending) + {l.nextId}
    requires Tokens(a.pending) - Tokens(l.pending) == a.begun - l.begun <= {l.nextId}
    requires Tokens(l.pending) <= Tokens(a.pending) && l.begun <= a.begun
    ensures Exact(a)
  {
    hide Ids, Tokens;
    assert l.nextId !in l.settled && l.nextId !in l.closed && l.nextId !in l.begun;
    assert a.begun == l.begun + (a.begun - l.begun);
    assert Tokens(a.pending) == Tokens(l.pending) + (Tokens(a.pending) - Tokens(l.pending));
  }

  lemma AscendingSnoc(rs: seq<Request>, below: nat, r: Request)
    requires Ascending(rs, below) && r.id == below && below >= 1
    ensures Ascending(rs + [r], below + 1)
  {
  }

  lemma ReceiveValid(l: Lane, w: nat, id: nat, ok: bool)
    requires Valid(l)
    ensures Valid(Receive(l, w, id, ok))
  {
    var i := IndexOf(l.pending, id);
    if l.worker == Some(w) && !l.failed && i < |l.pending| {
      TakenOut(l, i);
      hide Ascending, Exact, Bounded;
      ReceivedExact(l, i, ok);
    }
  }

  lemma TakenOut(l: Lane, i: nat)
    requires i < |l.pending| && Ascending(l.pending, l.nextId)
    ensures Ascending(Without(l, i).pending, l.nextId) && (Bounded(l) ==> Bounded(Without(l, i)))
    ensures var rest, r := Without(l, i).pending, l.pending[i];
      && Ids(l.pending) == Ids(rest) + {r.id} && r.id !in Ids(rest) && Tokens(rest) <= Ids(rest)
      && Tokens(l.pending) == Tokens(rest) + if r.foreground then {r.id} else {}
  {
    hide Ascending;
    SumsSplit(l.pending, i);
    SplitAscending(l.pending, i, l.nextId);
    IdsBelow(Without(l, i).pending, l.nextId);
  }

  lemma ReceivedExact(l: Lane, i: nat, ok: bool)
    requires Exact(l) && i < |l.pending|
    requires var rest, r := Without(l, i).pending, l.pending[i];
      && Ids(l.pending) == Ids(rest) + {r.id} && r.id !in Ids(rest) && Tokens(rest) <= Ids(rest)
      && Tokens(l.pending) == Tokens(rest) + if r.foreground then {r.id} else {}
    ensures Exact(NotifyDrained(Settle(Without(l, i), l.pending[i], Answered(ok))))
  {
    hide Ids, Tokens, Bytes;
    var r, rest := l.pending[i], Without(l, i).pending;
    assert r.id in Ids(l.pending) && r.id !in l.settled;
    assert r.foreground ==> r.id in Tokens(l.pending) && r.id !in l.closed && r.id !in Tokens(rest);
  }

  lemma ExpireIs(l: Lane, id: nat)
    requires IndexOf(l.pending, id) < |l.pending|
    ensures var i, r := IndexOf(l.pending, id), ExpireRead(l, id);
      || r == l
      || (r == l.(pending := l.pending[i := l.pending[i].(timed := false)], failed := r.failed)
          && (r.failed ==> l.failed || l.worker.Some?))
  {
    hide IndexOf;
  }

  lemma ExpireValid(l: Lane, id: nat)
    requires Valid(l)
    ensures Valid(ExpireRead(l, id))
  {
    var i := IndexOf(l.pending, id);
    if i < |l.pending| {
      hide Ascending, IndexOf, Ids, Tokens, Bytes, Exact;
      MarkedSame(l.pending, i, l.nextId);
      ExpireIs(l, id);
      hide ExpireRead;
      SameExact(l, ExpireRead(l, id));
    }
  }

  lemma SameExact(l: Lane, r: Lane)
    requires Exact(l) && Ids(r.pending) == Ids(l.pending) && Tokens(r.pending) == Tokens(l.pending)
    requires r.nextId == l.nextId && r.settled == l.settled && r.begun == l.begun && r.closed == l.closed
    requires r.twice == l.twice
    ensures Exact(r)
  {
    hide Ids, Tokens;
  }

  lemma MarkedSame(rs: seq<Request>, i: nat, below: nat)
    requires i < |rs|
    ensures var marked := rs[i := rs[i].(timed := false)];
      && Bytes(marked) == Bytes(rs) && Ids(marked) == Ids(rs) && Tokens(marked) == Tokens(rs)
      && (Ascending(rs, below) ==> Ascending(marked, below))
  {
    var marked := rs[i := rs[i].(timed := false)];
    SumsSplit(rs, i);
    SumsSplit(marked, i);
    assert marked[..i] + marked[i + 1..] == rs[..i] + rs[i + 1..];
  }

  lemma StepValid(diagnostic: bool, l: Lane, e: Event)
    requires Valid(l)
    ensures Valid(Step(diagnostic, l, e))
  {
    hide Ids, Tokens, Bytes, FailAll, Receive, ExpireRead, DispatchTask, Ascending;
    match e
    case Dispatch(task, aborted, posted) => DispatchValid(diagnostic, l, task, aborted, posted);
    case Message(w, id, ok) => ReceiveValid(l, w, id, ok);
    case WorkerError(w) => if l.worker == Some(w) { FailValid(l.(failed := true)); }
    case WorkerExit(w, code) => if l.worker == Some(w) { FailValid(l.(worker := None, failed := false)); }
    case Deadline(id) => ExpireValid(l, id);
    case TerminateFails => FailValid(l);
    case Close =>
    case DrainDeadline => if l.waiters > 0 { FailValid(l.(waiters := l.waiters - 1)); }
  }

  /** Every reachable state is valid. */
  lemma {:induction false} RunValid(diagnostic: bool, events: seq<Event>)
    ensures Valid(Run(diagnostic, events))
  {
    hide Valid, Step;
    if events == [] {
      IdleValid();
    } else {
      RunValid(diagnostic, events[..|events| - 1]);
      StepValid(diagnostic, Run(diagnostic, events[..|events| - 1]), events[|events| - 1]);
    }
  }

  lemma IdleValid()
    ensures Valid(IDLE)
  {
  }

  // ------------------------------------------------------------- what follows

  /** A response to a request that was settled before changes nothing at all. */
  lemma LateResponse(diagnostic: bool, events: seq<Event>, w: nat, id: nat, ok: bool)
    requires id in Run(diagnostic, events).settled
    ensures Receive(Run(diagnostic, events), w, id, ok) == Run(diagnostic, events)
  {
    RunValid(diagnostic, events);
    var l := Run(diagnostic, events);
    IdAt(l.pending, id);
    assert id !in Ids(l.pending);
  }

  /** Whoever waits for the lane to drain waits only while something is pending, and both
    * ways out leave nothing pending: an empty lane or the deadline. */
  lemma WaitersReleased(diagnostic: bool, events: seq<Event>)
    requires Run(diagnostic, events).waiters > 0
    ensures var l := Run(diagnostic, events);
      && l.pending != []
      && DrainExpires(l).pending == [] && DrainExpires(l).waiters == 0
      && (forall id :: 1 <= id < l.nextId ==> id in DrainExpires(l).settled)
  {
    RunValid(diagnostic, events);
    var l := Run(diagnostic, events);
    FailValid(l.(waiters := l.waiters - 1));
    assert forall id :: 1 <= id < l.nextId ==> id in l.settled || id in Ids(l.pending);
  }

  /** Nothing else releases one: an event after which fewer wait has left nothing pending. */
  lemma ReleasedOnlyDrained(diagnostic: bool, l: Lane, e: Event)
    requires Valid(l) && Step(diagnostic, l, e).waiters < l.waiters
    ensures Step(diagnostic, l, e).pending == []
  {
  }

  /** With nothing pending every accepted request is settled and every token given back. */
  lemma DrainedIsClean(diagnostic: bool, events: seq<Event>, id: nat)
    requires Run(diagnostic, events).pending == []
    ensures var l := Run(diagnostic, events);
      l.begun == l.closed && l.pendingBytes == 0 && l.waiters == 0 && (1 <= id < l.nextId <==> id in l.settled)
  {
    RunValid(diagnostic, events);
  }
}
