/** One lane of the log I/O pool as a state machine: a bounded queue in front of one worker,
  * with deadlines, worker failure, restart and shutdown. */
module LogIoProtocol {
  import opened Options

  const MAX_QUEUED_LOG_BYTES := 16777216

  datatype Outcome = Answered(ok: bool) | TimedOut | Unavailable

  datatype Pending = Pending(id: nat, bytes: nat)

  datatype Sent = Sent(worker: nat, id: nat)

  datatype Config = Config(capacity: nat, interruptible: bool)

  /** `terminating` is the worker whose termination is awaited. The fields from `settled` on
    * are what the lane's surroundings see: settled promises, running timers, posted
    * requests and the workers that have not ended yet. */
  datatype Lane = Lane(worker: Option<nat>, active: Option<Pending>, queued: seq<Pending>, nextId: nat, stopped: bool,
                       pendingBytes: int, terminating: Option<nat>,
                       settled: map<nat, Outcome>, timers: set<nat>, sent: seq<Sent>, live: set<nat>, spawned: nat)

  /** How an attempt to hand the next request to a worker goes. */
  datatype Spawn = Runs | StartThrows | PostThrows

  datatype Event =
    | Call(bytes: nat, spawn: Spawn)
    | Message(w: nat, id: nat, ok: bool, spawn: Spawn)
    | WorkerFails(w: nat)
    | Timer(id: nat)
    | Terminated(spawn: Spawn)
    | Close
    | Ends(w: nat)

  const IDLE := Lane(None, None, [], 0, false, 0, None, map[], {}, [], {}, 0)

  function Held(l: Lane): seq<Pending> {
    (if l.active.Some? then [l.active.value] else []) + l.queued
  }

  function Bytes(ps: seq<Pending>): nat {
    if ps == [] then 0 else Bytes(ps[..|ps| - 1]) + ps[|ps| - 1].bytes
  }

  function PendingCount(l: Lane): nat { |Held(l)| }

  function Settle(settled: map<nat, Outcome>, id: nat, o: Outcome): map<nat, Outcome> {
    if id in settled then settled else settled[id := o]
  }

  function SettleAll(settled: map<nat, Outcome>, ps: seq<Pending>, o: Outcome): map<nat, Outcome> {
    if ps == [] then settled else Settle(SettleAll(settled, ps[..|ps| - 1], o), ps[|ps| - 1].id, o)
  }

  function Ids(ps: seq<Pending>): set<nat> {
    if ps == [] then {} else Ids(ps[..|ps| - 1]) + {ps[|ps| - 1].id}
  }

  function RejectPending(l: Lane): Lane {
    l.(active := None, queued := [], pendingBytes := 0,
       settled := SettleAll(l.settled, Held(l), Unavailable), timers := l.timers - Ids(Held(l)))
  }

  function Fail(l: Lane): Lane {
    if l.worker.Some? then l.(worker := None, terminating := l.worker) else RejectPending(l)
  }

  function StartNext(l: Lane, spawn: Spawn): Lane {
    if l.active.Some? || l.stopped || l.terminating.Some? || l.queued == [] then l
    else Post(l.(active := Some(l.queued[0]), queued := l.queued[1..]), l.queued[0], spawn)
  }

  function Post(l: Lane, p: Pending, spawn: Spawn): Lane {
    if l.worker.None? && spawn.StartThrows? then Fail(l)
    else
      var w := if l.worker.Some? then l.worker.value else l.spawned;
      var started := if l.worker.Some? then l else l.(worker := Some(w), live := l.live + {w}, spawned := w + 1);
      if spawn.PostThrows? then Fail(started) else started.(sent := l.sent + [Sent(w, p.id)])
  }

  predicate Refused(c: Config, l: Lane, bytes: nat) {
    || l.terminating.Some? || l.stopped
    || PendingCount(l) >= c.capacity || l.pendingBytes + bytes > MAX_QUEUED_LOG_BYTES
  }

  function Queue(l: Lane, bytes: nat): Lane {
    var id := l.nextId + 1;
    l.(nextId := id, pendingBytes := l.pendingBytes + bytes,
       queued := l.queued + [Pending(id, bytes)], timers := l.timers + {id})
  }

  function CallLane(c: Config, l: Lane, bytes: nat, spawn: Spawn): Lane {
    if Refused(c, l, bytes) then l else StartNext(Queue(l, bytes), spawn)
  }

  predicate Awaited(l: Lane, w: nat, id: nat) {
    l.worker == Some(w) && l.active.Some? && l.active.value.id == id
  }

  function Completed(l: Lane, ok: bool): Lane
    requires l.active.Some?
  {
    var p := l.active.value;
    l.(active := None, pendingBytes := l.pendingBytes - p.bytes, timers := l.timers - {p.id},
       settled := Settle(l.settled, p.id, Answered(ok)))
  }

  function Answer(l: Lane, w: nat, id: nat, ok: bool, spawn: Spawn): Lane {
    if Awaited(l, w, id) then StartNext(Completed(l, ok), spawn) else l
  }

  /** The position of the first request with this id, or the length. */
  function IndexOf(ps: seq<Pending>, id: nat): (i: nat)
    ensures i <= |ps|
    ensures i < |ps| ==> ps[i].id == id
  {
    if ps == [] || ps[0].id == id then 0 else 1 + IndexOf(ps[1..], id)
  }

  /** The deadline of a request that is not active: it leaves the queue. */
  function ExpireQueuedCall(l: Lane, id: nat): Lane {
    var i := IndexOf(l.queued, id);
    var rejected := l.(settled := Settle(l.settled, id, TimedOut));
    if i < |l.queued| then
      rejected.(queued := l.queued[..i] + l.queued[i + 1..], pendingBytes := l.pendingBytes - l.queued[i].bytes)
    else rejected
  }

  /** A write that ran out of time may still commit, so its slot stays taken; only an
    * interruptible worker is given up. */
  function Expire(c: Config, l: Lane, id: nat): Lane {
    if id !in l.timers then l
    else
      var fired := l.(timers := l.timers - {id});
      if l.active.Some? && l.active.value.id == id then
        if c.interruptible then Fail(fired) else fired.(settled := Settle(l.settled, id, TimedOut))
      else ExpireQueuedCall(fired, id)
  }

  function TerminationDone(l: Lane, spawn: Spawn): Lane {
    if l.terminating.None? then l
    else StartNext(RejectPending(l).(terminating := None, live := l.live - {l.terminating.value}), spawn)
  }

  function CloseLane(l: Lane): Lane { RejectPending(l.(stopped := true)).(worker := None) }

  /** A worker the lane no longer uses has ended. */
  function WorkerEnds(l: Lane, w: nat): Lane {
    if l.worker == Some(w) || l.terminating == Some(w) then l else l.(live := l.live - {w})
  }

  function Step(c: Config, l: Lane, e: Event): Lane {
    match e
    case Call(bytes, spawn) => CallLane(c, l, bytes, spawn)
    case Message(w, id, ok, spawn) => Answer(l, w, id, ok, spawn)
    case WorkerFails(w) => if l.worker == Some(w) then Fail(l) else l
    case Timer(id) => Expire(c, l, id)
    case Terminated(spawn) => TerminationDone(l, spawn)
    case Close => CloseLane(l)
    case Ends(w) => WorkerEnds(l, w)
  }

  function Run(c: Config, l: Lane, events: seq<Event>): Lane {
    if events == [] then l else Step(c, Run(c, l, events[..|events| - 1]), events[|events| - 1])
  }

  // ------------------------------------------------------------- the invariant

  ghost predicate Ascending(ps: seq<Pending>, above: nat, upTo: nat) {
    && (forall i {:trigger ps[i]} :: 0 <= i < |ps| ==> above < ps[i].id <= upTo)
    && (forall i, k {:trigger ps[i], ps[k]} :: 0 <= i < k < |ps| ==> ps[i].id < ps[k].id)
  }

  function LastSent(l: Lane): nat { if l.sent == [] then 0 else l.sent[|l.sent| - 1].id }

  ghost predicate Rising(sent: seq<Sent>) {
    && (forall i {:trigger sent[i]} :: 0 <= i < |sent| ==> 1 <= sent[i].id)
    && (forall i, k {:trigger sent[i], sent[k]} :: 0 <= i < k < |sent| ==> sent[i].id < sent[k].id)
  }

  ghost predicate SentInOrder(l: Lane) {
    && Rising(l.sent)
    && Ascending(l.queued, LastSent(l), l.nextId) && LastSent(l) <= l.nextId
    && (l.active.Some? ==>
         LastSent(l) <= l.active.value.id <= l.nextId && Ascending(l.queued, l.active.value.id, l.nextId))
  }

  ghost predicate Bounded(c: Config, l: Lane) {
    && l.pendingBytes == Bytes(Held(l)) <= MAX_QUEUED_LOG_BYTES
    && PendingCount(l) <= c.capacity
  }

  /** At most one worker is alive, and a second one is never started beside it. */
  ghost predicate OneWorker(l: Lane) {
    && (forall w :: w in l.live ==> w < l.spawned)
    && (l.worker.Some? ==> l.terminating.None? && l.live == {l.worker.value})
    && (l.terminating.Some? ==> l.live == {l.terminating.value})
    && (forall w, v :: w in l.live && v in l.live ==> w == v)
    && (l.stopped ==> l.worker.None? && l.active.None? && l.queued == [])
    && (l.worker.None? && l.terminating.None? && !l.stopped ==> l.live == {})
  }

  /** Nothing waits in front of an idle lane, and what is active was the last request posted
    * to the current worker. */
  ghost predicate Busy(l: Lane) {
    && (l.active.Some? && l.terminating.None? ==>
          l.worker.Some? && l.sent != [] && l.sent[|l.sent| - 1] == Sent(l.worker.value, l.active.value.id))
    && (l.active.None? && l.terminating.None? ==> l.queued == [])
  }

  function HeldIds(l: Lane): set<nat> {
    (if l.active.Some? then {l.active.value.id} else {}) + Ids(l.queued)
  }

  /** A settled request keeps its slot only as a write that ran out of time. */
  ghost predicate ActiveOk(c: Config, l: Lane, p: Pending) {
    if p.id in l.settled then !c.interruptible && p.id !in l.timers && l.settled[p.id] == TimedOut
    else p.id in l.timers || (c.interruptible && l.terminating.Some?)
  }

  /** The accepted calls are exactly those settled or held; a queued one is open and has a
    * running timer, and no timer runs for anything else. */
  ghost predicate Kept(c: Config, l: Lane) {
    && Ids(l.queued) <= l.timers <= HeldIds(l)
    && Ids(l.queued) !! l.settled.Keys
    && (l.active.Some? ==> ActiveOk(c, l, l.active.value))
    && forall id {:trigger id in l.settled} :: 1 <= id <= l.nextId <==> id in l.settled || id in HeldIds(l)
  }

  ghost predicate Core(c: Config, l: Lane) { SentInOrder(l) && Bounded(c, l) && OneWorker(l) && Kept(c, l) }

  ghost predicate Valid(c: Config, l: Lane) { Core(c, l) && Busy(l) }
}
