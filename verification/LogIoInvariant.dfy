/** Every reachable lane state is valid, and what follows from that for the callers. Each handler is
  * taken apart into the steps it shares with others, and each of those keeps the validity of the lane
  * or of what is held in it. */
module LogIoInvariant {
  import opened Options
  import opened LogIoProtocol

  lemma {:induction false} BytesConcat(a: seq<Pending>, b: seq<Pending>)
    ensures Bytes(a + b) == Bytes(a) + Bytes(b)
  {
    if b == [] {
      ConcatNone(a);
    } else {
      BytesConcat(a, b[..|b| - 1]);
      FrontOfConcat(a, b);
    }
  }

  lemma BytesOne(p: Pending)
    ensures Bytes([p]) == p.bytes
  {
    assert [p][..0] == [];
  }

  lemma BytesWithout(ps: seq<Pending>, i: nat)
    requires i < |ps|
    ensures Bytes(ps) == Bytes(ps[..i] + ps[i + 1..]) + ps[i].bytes
  {
    AroundAt(ps, i);
    BytesConcat(ps[..i], [ps[i]] + ps[i + 1..]);
    BytesConcat([ps[i]], ps[i + 1..]);
    BytesConcat(ps[..i], ps[i + 1..]);
    BytesOne(ps[i]);
  }

  lemma {:induction false} IdsConcat(a: seq<Pending>, b: seq<Pending>)
    ensures Ids(a + b) == Ids(a) + Ids(b)
  {
    if b == [] {
      ConcatNone(a);
    } else {
      IdsConcat(a, b[..|b| - 1]);
      FrontOfConcat(a, b);
    }
  }

  lemma IdsOne(p: Pending)
    ensures Ids([p]) == {p.id}
  {
    assert [p][..0] == [];
  }

  lemma IdsSplit(ps: seq<Pending>, i: nat)
    requires i < |ps|
    ensures Ids(ps) == Ids(ps[..i] + ps[i + 1..]) + {ps[i].id}
  {
    AroundAt(ps, i);
    IdsConcat(ps[..i], [ps[i]] + ps[i + 1..]);
    IdsConcat([ps[i]], ps[i + 1..]);
    IdsConcat(ps[..i], ps[i + 1..]);
    IdsOne(ps[i]);
  }

  lemma {:induction false} IdsAbove(ps: seq<Pending>, above: nat, upTo: nat)
    requires Ascending(ps, above, upTo)
    ensures forall id :: id in Ids(ps) ==> above < id <= upTo
  {
    if ps != [] { IdsAbove(ps[..|ps| - 1], above, upTo); }
  }

  lemma AscendingTail(ps: seq<Pending>, above: nat, upTo: nat)
    requires Ascending(ps, above, upTo) && ps != []
    ensures above < ps[0].id <= upTo && Ascending(ps[1..], ps[0].id, upTo)
    ensures Ids(ps) == {ps[0].id} + Ids(ps[1..]) && ps[0].id !in Ids(ps[1..])
  {
    hide Ids;
    TailAscends(ps, above, upTo);
    hide Ascending;
    IdsAbove(ps[1..], ps[0].id, upTo);
    IdsSplit(ps, 0);
    assert ps[..0] + ps[1..] == ps[1..];
  }

  lemma TailAscends(ps: seq<Pending>, above: nat, upTo: nat)
    requires Ascending(ps, above, upTo) && ps != []
    ensures above < ps[0].id <= upTo && Ascending(ps[1..], ps[0].id, upTo)
  {
    var tail := ps[1..];
    forall i {:trigger tail[i]} | 0 <= i < |tail|
      ensures ps[0].id < tail[i].id <= upTo
    {
      assert tail[i] == ps[i + 1];
    }
    forall i, k {:trigger tail[i], tail[k]} | 0 <= i < k < |tail|
      ensures tail[i].id < tail[k].id
    {
      assert tail[i] == ps[i + 1] && tail[k] == ps[k + 1];
    }
  }

  lemma AscendingSnoc(ps: seq<Pending>, above: nat, upTo: nat, p: Pending)
    requires Ascending(ps, above, upTo) && above <= upTo && p.id == upTo + 1
    ensures Ascending(ps + [p], above, upTo + 1)
    ensures Ids(ps + [p]) == Ids(ps) + {p.id} && p.id !in Ids(ps)
  {
    hide Ids;
    LastAscends(ps, above, upTo, p);
    IdsAbove(ps, above, upTo);
    hide Ascending;
    IdsConcat(ps, [p]);
    IdsOne(p);
  }

  lemma LastAscends(ps: seq<Pending>, above: nat, upTo: nat, p: Pending)
    requires Ascending(ps, above, upTo) && above <= upTo && p.id == upTo + 1
    ensures Ascending(ps + [p], above, upTo + 1)
  {
    var all := ps + [p];
    forall i {:trigger all[i]} | 0 <= i < |all|
      ensures above < all[i].id <= upTo + 1
    {
      if i < |ps| { assert all[i] == ps[i]; }
    }
    forall i, k {:trigger all[i], all[k]} | 0 <= i < k < |all|
      ensures all[i].id < all[k].id
    {
      assert all[i] == ps[i] && (k < |ps| ==> all[k] == ps[k]);
    }
  }

  lemma {:induction false} IdsFind(ps: seq<Pending>, id: nat)
    ensures id in Ids(ps) <==> IndexOf(ps, id) < |ps|
  {
    if ps != [] && ps[0].id != id { IdsFind(ps[1..], id); }
    if ps != [] {
      IdsSplit(ps, 0);
      assert ps[..0] + ps[1..] == ps[1..];
    }
  }

  lemma {:induction false} SettledAll(settled: map<nat, Outcome>, ps: seq<Pending>, o: Outcome)
    ensures SettleAll(settled, ps, o).Keys == settled.Keys + Ids(ps)
    ensures forall id :: id in SettleAll(settled, ps, o) ==>
      SettleAll(settled, ps, o)[id] == if id in settled then settled[id] else o
  {
    if ps != [] { SettledAll(settled, ps[..|ps| - 1], o); }
  }

  lemma HeldIs(l: Lane)
    ensures Ids(Held(l)) == HeldIds(l)
    ensures Bytes(Held(l)) == (if l.active.Some? then l.active.value.bytes else 0) + Bytes(l.queued)
    ensures |Held(l)| == |l.queued| + if l.active.Some? then 1 else 0
  {
    if l.active.Some? {
      BytesConcat([l.active.value], l.queued);
      BytesOne(l.active.value);
      IdsConcat([l.active.value], l.queued);
      IdsOne(l.active.value);
    } else {
      assert Held(l) == l.queued;
    }
  }

  /** A lane that holds nothing is valid as soon as every accepted call is settled. */
  lemma EmptiedValid(c: Config, l: Lane)
    requires Rising(l.sent) && LastSent(l) <= l.nextId && OneWorker(l)
    requires l.active.None? && l.queued == [] && l.pendingBytes == 0 && l.timers == {}
    requires forall id {:trigger id in l.settled} :: id in l.settled <==> 1 <= id <= l.nextId
    ensures Valid(c, l)
  {
    hide Rising, OneWorker, LastSent;
    assert Held(l) == [];
  }

  /** Rejecting everything settles every call that was still held. */
  lemma RejectValid(c: Config, l: Lane)
    requires SentInOrder(l) && OneWorker(l) && l.timers <= HeldIds(l)
    requires forall id {:trigger id in l.settled} :: 1 <= id <= l.nextId <==> id in l.settled || id in HeldIds(l)
    ensures Valid(c, RejectPending(l)) && RejectPending(l).timers == {}
    ensures forall id {:trigger id in RejectPending(l).settled} ::
      id in RejectPending(l).settled <==> 1 <= id <= l.nextId
  {
    hide SettleAll, Ids, Rising, Ascending, Held, HeldIds;
    HeldIs(l);
    SettledAll(l.settled, Held(l), Unavailable);
    var r := RejectPending(l);
    assert r.timers == {} && LastSent(r) == LastSent(l);
    EmptiedValid(c, r);
  }

  lemma FailValid(c: Config, l: Lane)
    requires SentInOrder(l) && Bounded(c, l) && OneWorker(l) && l.timers <= HeldIds(l) && Ids(l.queued) <= l.timers
    requires Ids(l.queued) !! l.settled.Keys
    requires forall id {:trigger id in l.settled} :: 1 <= id <= l.nextId <==> id in l.settled || id in HeldIds(l)
    requires l.active.Some? ==> ActiveOk(c, l, l.active.value) || (c.interruptible && l.active.value.id !in l.settled)
    ensures Valid(c, Fail(l))
  {
    if l.worker.None? {
      RejectValid(c, l);
      hide Valid;
    } else {
      hide SentInOrder, Bounded, OneWorker, Kept, Ids, HeldIds, ActiveOk;
      SameOrder(l, Fail(l));
      SameBounds(c, l, Fail(l));
      GivenUpWorkers(l);
      GivenUpKept(c, l);
    }
  }

  lemma SameOrder(l: Lane, r: Lane)
    requires SentInOrder(l) && r.sent == l.sent && r.queued == l.queued && r.active == l.active && r.nextId == l.nextId
    ensures SentInOrder(r)
  {
    hide Ascending, Rising;
    assert LastSent(r) == LastSent(l);
  }

  lemma SameBounds(c: Config, l: Lane, r: Lane)
    requires Bounded(c, l) && r.queued == l.queued && r.active == l.active && r.pendingBytes == l.pendingBytes
    ensures Bounded(c, r)
  {
    assert Held(r) == Held(l);
  }

  lemma GivenUpWorkers(l: Lane)
    requires OneWorker(l) && l.worker.Some?
    ensures OneWorker(Fail(l))
  {
  }

  lemma GivenUpKept(c: Config, l: Lane)
    requires l.worker.Some? && Ids(l.queued) <= l.timers <= HeldIds(l) && Ids(l.queued) !! l.settled.Keys
    requires forall id {:trigger id in l.settled} :: 1 <= id <= l.nextId <==> id in l.settled || id in HeldIds(l)
    requires l.active.Some? ==> ActiveOk(c, l, l.active.value) || (c.interruptible && l.active.value.id !in l.settled)
    ensures Kept(c, Fail(l))
  {
    assert HeldIds(Fail(l)) == HeldIds(l);
    hide Ids, HeldIds;
  }

  lemma StartValid(c: Config, l: Lane, spawn: Spawn)
    requires Core(c, l) && (l.active.Some? ==> Busy(l))
    ensures Valid(c, StartNext(l, spawn))
  {
    if l.active.None? && !l.stopped && l.terminating.None? && l.queued != [] {
      ActivateCore(c, l);
      PostValid(c, Activated(l), spawn);
    }
    hide Post, Ascending, Rising, HeldIds, Ids, Kept;
  }

  function Activated(l: Lane): Lane
    requires l.queued != []
  {
    l.(active := Some(l.queued[0]), queued := l.queued[1..])
  }

  lemma ActivateCore(c: Config, l: Lane)
    requires Core(c, l) && l.active.None? && l.queued != []
    ensures Core(c, Activated(l)) && LastSent(l) < l.queued[0].id
  {
    hide Ascending, Rising, Kept, Ids;
    AscendingTail(l.queued, LastSent(l), l.nextId);
    LooserAscending(l.queued[1..], l.queued[0].id, LastSent(l), l.nextId);
    assert Held(Activated(l)) == Held(l);
    assert LastSent(Activated(l)) == LastSent(l);
    hide Held, LastSent;
    ActivateKept(c, l);
  }

  lemma ActivateKept(c: Config, l: Lane)
    requires Kept(c, l) && l.active.None? && l.queued != []
    requires Ids(l.queued) == {l.queued[0].id} + Ids(l.queued[1..]) && l.queued[0].id !in Ids(l.queued[1..])
    ensures Kept(c, Activated(l))
  {
    hide Ids;
    assert HeldIds(Activated(l)) == HeldIds(l);
  }

  lemma LooserAscending(ps: seq<Pending>, above: nat, lower: nat, upTo: nat)
    requires Ascending(ps, above, upTo) && lower <= above
    ensures Ascending(ps, lower, upTo)
  {
  }

  lemma PostIs(l: Lane, spawn: Spawn)
    requires l.active.Some?
    ensures Post(l, l.active.value, spawn) ==
      if l.worker.None? && spawn.StartThrows? then Fail(l)
      else if spawn.PostThrows? then Fail(Started(l))
      else Started(l).(sent := l.sent + [Sent(Started(l).worker.value, l.active.value.id)])
  {
    hide RejectPending;
  }

  lemma StartedSame(l: Lane)
    ensures Started(l).worker.Some? && Started(l).active == l.active && Started(l).sent == l.sent
    ensures LastSent(Started(l)) == LastSent(l)
  {
  }

  lemma PostValid(c: Config, l: Lane, spawn: Spawn)
    requires Core(c, l) && l.active.Some? && l.terminating.None? && !l.stopped
    requires LastSent(l) < l.active.value.id
    ensures Valid(c, Post(l, l.active.value, spawn))
  {
    PostIs(l, spawn);
    hide Post, Core, Valid, LastSent;
    if l.worker.None? && spawn.StartThrows? {
      CoreFails(c, l);
    } else {
      StartedCore(c, l);
      StartedSame(l);
      hide Started, Fail;
      if spawn.PostThrows? { CoreFails(c, Started(l)); } else { SentValid(c, Started(l)); }
    }
  }

  lemma CoreFails(c: Config, l: Lane)
    requires Core(c, l)
    ensures Valid(c, Fail(l))
  {
    hide Ascending, Rising;
    FailValid(c, l);
  }

  function Started(l: Lane): Lane {
    if l.worker.Some? then l else l.(worker := Some(l.spawned), live := l.live + {l.spawned}, spawned := l.spawned + 1)
  }

  lemma StartedCore(c: Config, l: Lane)
    requires Core(c, l) && l.terminating.None? && !l.stopped
    ensures Core(c, Started(l))
  {
    hide SentInOrder, Bounded;
    SameOrder(l, Started(l));
    SameBounds(c, l, Started(l));
    assert HeldIds(Started(l)) == HeldIds(l);
    hide Ids, HeldIds;
  }

  lemma SentValid(c: Config, l: Lane)
    requires Core(c, l) && l.active.Some? && l.worker.Some? && LastSent(l) < l.active.value.id
    ensures Valid(c, l.(sent := l.sent + [Sent(l.worker.value, l.active.value.id)]))
  {
    var r := l.(sent := l.sent + [Sent(l.worker.value, l.active.value.id)]);
    assert Held(r) == Held(l);
    assert SentInOrder(r) by {
      hide Kept, Bounded, OneWorker, Ascending, Rising;
      SentSnoc(l.sent, r.sent[|l.sent|]);
    }
  }

  lemma SentSnoc(sent: seq<Sent>, next: Sent)
    requires Rising(sent) && 1 <= next.id && (sent != [] ==> sent[|sent| - 1].id < next.id)
    ensures Rising(sent + [next])
  {
    var more := sent + [next];
    forall i, k {:trigger more[i], more[k]} | 0 <= i < k < |more|
      ensures more[i].id < more[k].id
    {
      if k == |sent| && i < |sent| - 1 { assert sent[i].id < sent[|sent| - 1].id; }
    }
  }

  lemma CallValid(c: Config, l: Lane, bytes: nat, spawn: Spawn)
    requires Valid(c, l)
    ensures Valid(c, CallLane(c, l, bytes, spawn))
  {
    if !Refused(c, l, bytes) {
      QueueCore(c, l, bytes);
      StartValid(c, Queue(l, bytes), spawn);
    }
  }

  lemma QueueCore(c: Config, l: Lane, bytes: nat)
    requires Valid(c, l) && !Refused(c, l, bytes)
    ensures Core(c, Queue(l, bytes)) && (l.active.Some? ==> Busy(Queue(l, bytes)))
  {
    hide SentInOrder, Bounded, Kept, OneWorker;
    QueueOrder(l, bytes);
    QueueBounded(c, l, bytes);
    QueueKept(c, l, bytes);
    QueueOneWorker(l, bytes);
  }

  lemma QueueOrder(l: Lane, bytes: nat)
    requires SentInOrder(l)
    ensures SentInOrder(Queue(l, bytes)) && l.nextId + 1 !in Ids(l.queued)
  {
    hide Ascending, Rising, Ids;
    var p, q := Pending(l.nextId + 1, bytes), Queue(l, bytes);
    assert q.sent == l.sent && q.active == l.active && q.nextId == l.nextId + 1 && q.queued == l.queued + [p];
    assert LastSent(q) == LastSent(l);
    hide Queue, LastSent;
    AscendingSnoc(l.queued, LastSent(l), l.nextId, p);
    if l.active.Some? { AscendingSnoc(l.queued, l.active.value.id, l.nextId, p); }
  }

  lemma QueueBounded(c: Config, l: Lane, bytes: nat)
    requires Bounded(c, l) && !Refused(c, l, bytes)
    ensures Bounded(c, Queue(l, bytes))
  {
    HeldIs(l);
    HeldIs(Queue(l, bytes));
    BytesConcat(l.queued, [Pending(l.nextId + 1, bytes)]);
    BytesOne(Pending(l.nextId + 1, bytes));
  }

  lemma QueueKept(c: Config, l: Lane, bytes: nat)
    requires Kept(c, l)
    ensures Kept(c, Queue(l, bytes))
  {
    var q := Queue(l, bytes);
    IdsConcat(l.queued, [Pending(l.nextId + 1, bytes)]);
    IdsOne(Pending(l.nextId + 1, bytes));
    assert HeldIds(q) == HeldIds(l) + {l.nextId + 1};
    assert l.nextId + 1 !in l.settled && l.nextId + 1 !in HeldIds(l);
  }

  lemma QueueOneWorker(l: Lane, bytes: nat)
    requires OneWorker(l) && !l.stopped
    ensures OneWorker(Queue(l, bytes))
  {
  }

  lemma AnswerValid(c: Config, l: Lane, w: nat, id: nat, ok: bool, spawn: Spawn)
    requires Valid(c, l)
    ensures Valid(c, Answer(l, w, id, ok, spawn))
  {
    hide Valid, Core, Completed, StartNext;
    if Awaited(l, w, id) {
      CompletedCore(c, l, ok);
      StartValid(c, Completed(l, ok), spawn);
    }
  }

  lemma CompletedCore(c: Config, l: Lane, ok: bool)
    requires Valid(c, l) && l.active.Some?
    ensures Core(c, Completed(l, ok)) && Completed(l, ok).active.None?
  {
    hide Bounded, Kept, Ids;
    IdsAbove(l.queued, l.active.value.id, l.nextId);
    hide Ascending, Rising;
    assert LastSent(Completed(l, ok)) == LastSent(l);
    CompletedBounded(c, l, ok);
    CompletedKept(c, l, ok);
  }

  lemma CompletedBounded(c: Config, l: Lane, ok: bool)
    requires Bounded(c, l) && l.active.Some?
    ensures Bounded(c, Completed(l, ok))
  {
    HeldIs(l);
    HeldIs(Completed(l, ok));
    hide Held, Bytes, Settle;
  }

  lemma CompletedKept(c: Config, l: Lane, ok: bool)
    requires Kept(c, l) && l.active.Some? && l.active.value.id !in Ids(l.queued)
    ensures Kept(c, Completed(l, ok))
  {
    hide Ids, ActiveOk;
    var r := Completed(l, ok);
    assert HeldIds(l) == HeldIds(r) + {l.active.value.id};
  }

  lemma ExpireValid(c: Config, l: Lane, id: nat)
    requires Valid(c, l)
    ensures Valid(c, Expire(c, l, id))
  {
    if id in l.timers {
      hide Valid, Expire;
      if l.active.Some? && l.active.value.id == id {
        ExpireActive(c, l, id);
      } else {
        ExpireQueued(c, l, id);
      }
    }
  }

  lemma ExpireActive(c: Config, l: Lane, id: nat)
    requires Valid(c, l) && id in l.timers && l.active.Some? && l.active.value.id == id
    ensures Valid(c, Expire(c, l, id))
  {
    var fired := l.(timers := l.timers - {id});
    IdsAbove(l.queued, id, l.nextId);
    hide Ids, Ascending, Rising;
    if c.interruptible {
      assert HeldIds(fired) == HeldIds(l) && Held(fired) == Held(l);
      hide HeldIds, Held;
      FailValid(c, fired);
    } else {
      var r := Expire(c, l, id);
      assert HeldIds(r) == HeldIds(l) && Held(r) == Held(l);
      hide HeldIds, Held;
    }
  }

  function Dropped(l: Lane, i: nat): Lane
    requires i < |l.queued|
  {
    l.(timers := l.timers - {l.queued[i].id}, settled := Settle(l.settled, l.queued[i].id, TimedOut),
       queued := l.queued[..i] + l.queued[i + 1..], pendingBytes := l.pendingBytes - l.queued[i].bytes)
  }

  lemma ExpireDrops(c: Config, l: Lane, id: nat)
    requires id in l.timers && !(l.active.Some? && l.active.value.id == id) && IndexOf(l.queued, id) < |l.queued|
    ensures Expire(c, l, id) == Dropped(l, IndexOf(l.queued, id))
  {
    hide IndexOf, Settle;
  }

  lemma ExpireQueued(c: Config, l: Lane, id: nat)
    requires Valid(c, l) && id in l.timers && !(l.active.Some? && l.active.value.id == id)
    ensures Valid(c, Expire(c, l, id))
  {
    assert id in Ids(l.queued);
    hide Valid, Ids, HeldIds;
    var i := IndexOf(l.queued, id);
    IdsFind(l.queued, id);
    hide IndexOf;
    ExpireDrops(c, l, id);
    hide Expire, Dropped;
    DropValid(c, l, i);
  }

  lemma DropValid(c: Config, l: Lane, i: nat)
    requires Valid(c, l) && i < |l.queued|
    ensures Valid(c, Dropped(l, i))
  {
    hide SentInOrder, Bounded, Kept, Busy, OneWorker;
    DropOrder(l, i);
    DropBounded(c, l, i);
    DropKept(c, l, i);
    DropWorkers(l, i);
  }

  lemma DropOrder(l: Lane, i: nat)
    requires SentInOrder(l) && i < |l.queued|
    ensures SentInOrder(Dropped(l, i)) && l.queued[i].id !in Ids(l.queued[..i] + l.queued[i + 1..])
    ensures l.active.Some? ==> l.active.value.id != l.queued[i].id
  {
    assert l.active.Some? ==> l.active.value.id < l.queued[i].id;
    WithoutAscending(l.queued, i, LastSent(l), l.nextId);
    if l.active.Some? { WithoutAscending(l.queued, i, l.active.value.id, l.nextId); }
    hide Ascending, Rising;
  }

  lemma DropBounded(c: Config, l: Lane, i: nat)
    requires Bounded(c, l) && i < |l.queued|
    ensures Bounded(c, Dropped(l, i))
  {
    HeldIs(l);
    HeldIs(Dropped(l, i));
    BytesWithout(l.queued, i);
  }

  lemma DropKept(c: Config, l: Lane, i: nat)
    requires Kept(c, l) && i < |l.queued| && l.queued[i].id !in Ids(l.queued[..i] + l.queued[i + 1..])
    requires l.active.Some? ==> l.active.value.id != l.queued[i].id
    ensures Kept(c, Dropped(l, i))
  {
    IdsSplit(l.queued, i);
    assert HeldIds(l) == HeldIds(Dropped(l, i)) + {l.queued[i].id};
  }

  lemma DropWorkers(l: Lane, i: nat)
    requires OneWorker(l) && Busy(l) && i < |l.queued|
    ensures OneWorker(Dropped(l, i)) && Busy(Dropped(l, i))
  {
  }

  lemma WithoutAscending(ps: seq<Pending>, i: nat, above: nat, upTo: nat)
    requires i < |ps| && Ascending(ps, above, upTo)
    ensures Ascending(ps[..i] + ps[i + 1..], above, upTo)
    ensures ps[i].id !in Ids(ps[..i] + ps[i + 1..])
  {
    var rest := ps[..i] + ps[i + 1..];
    IdsFind(rest, ps[i].id);
  }

  lemma FreedWorkers(l: Lane, r: Lane)
    requires OneWorker(l) && l.terminating.Some? && r.live == l.live - {l.terminating.value}
    requires r.worker == l.worker && r.terminating.None? && r.spawned == l.spawned && r.active.None? && r.queued == []
    ensures OneWorker(r)
  {
  }

  lemma TerminatedValid(c: Config, l: Lane, spawn: Spawn)
    requires Valid(c, l)
    ensures Valid(c, TerminationDone(l, spawn))
  {
    if l.terminating.Some? {
      RejectValid(c, l);
      var r := RejectPending(l).(terminating := None, live := l.live - {l.terminating.value});
      assert StartNext(r, spawn) == r && LastSent(r) == LastSent(l) && r.timers == {};
      assert TerminationDone(l, spawn) == r;
      hide RejectPending, StartNext, TerminationDone, Rising, LastSent, Kept, Busy, Bounded, OneWorker;
      FreedWorkers(l, r);
      EmptiedValid(c, r);
    }
  }

  lemma CloseValid(c: Config, l: Lane)
    requires Valid(c, l)
    ensures Valid(c, CloseLane(l)) && CloseLane(l).timers == {}
    ensures forall id {:trigger id in CloseLane(l).settled} :: id in CloseLane(l).settled <==> 1 <= id <= l.nextId
  {
    RejectValid(c, l);
    var r := CloseLane(l);
    assert r == RejectPending(l).(stopped := true, worker := None);
    assert LastSent(r) == LastSent(l);
    hide CloseLane, RejectPending, Rising, LastSent, Kept, Busy, Bounded;
    EmptiedValid(c, r);
  }

  lemma EndsValid(c: Config, l: Lane, w: nat)
    requires Valid(c, l)
    ensures Valid(c, WorkerEnds(l, w))
  {
    hide SentInOrder, Bounded, Kept, Busy, OneWorker;
    var r := WorkerEnds(l, w);
    assert OneWorker(r) by { EndsOneWorker(l, w); }
    SameRest(c, l, r);
  }

  lemma EndsOneWorker(l: Lane, w: nat)
    requires OneWorker(l)
    ensures OneWorker(WorkerEnds(l, w))
  {
  }

  /** Everything but the workers stays as it is. */
  lemma SameRest(c: Config, l: Lane, r: Lane)
    requires SentInOrder(l) && Bounded(c, l) && Kept(c, l) && Busy(l)
    requires r == l.(live := r.live)
    ensures SentInOrder(r) && Bounded(c, r) && Kept(c, r) && Busy(r)
  {
    hide Ascending, Rising, SentInOrder, Bounded;
    SameOrder(l, r);
    SameBounds(c, l, r);
    assert HeldIds(r) == HeldIds(l);
    hide Ids, HeldIds;
  }

  lemma StepValid(c: Config, l: Lane, e: Event)
    requires Valid(c, l)
    ensures Valid(c, Step(c, l, e))
  {
    match e
    case WorkerFails(w) => if l.worker == Some(w) { FailValid(c, l); }
    case _ => OtherStepValid(c, l, e);
  }

  lemma OtherStepValid(c: Config, l: Lane, e: Event)
    requires Valid(c, l) && !e.WorkerFails?
    ensures Valid(c, Step(c, l, e))
  {
    hide Valid;
    match e
    case Call(bytes, spawn) => CallValid(c, l, bytes, spawn);
    case Message(w, id, ok, spawn) => AnswerValid(c, l, w, id, ok, spawn);
    case Timer(id) => ExpireValid(c, l, id);
    case Terminated(spawn) => TerminatedValid(c, l, spawn);
    case Close => CloseValid(c, l);
    case Ends(w) => EndsValid(c, l, w);
  }

  lemma {:induction false} RunValid(c: Config, l: Lane, events: seq<Event>)
    requires Valid(c, l)
    ensures Valid(c, Run(c, l, events))
  {
    if events != [] {
      RunValid(c, l, events[..|events| - 1]);
      StepValid(c, Run(c, l, events[..|events| - 1]), events[|events| - 1]);
    }
  }
}
