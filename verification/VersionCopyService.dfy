/** One execution of the copy worker: claim, copy or clean up, and settle what went wrong. Whatever
  * the others do meanwhile, a published copy is whole and a cleaned-up one has empty tables; left
  * alone, a worker finishes what an earlier one began. */
module VersionCopyService {
  import opened Options
  import opened VersionCopyProtocol
  import opened VersionCopyInvariant
  import opened VersionCopySafety
  import opened VersionCopyControl
  import opened VersionCopyLogs
  import opened VersionCopyStores
  import opened VersionCopyPhases

  // ------------------------------------------------------------- cleaning up

  predicate Stands(s: State, t: nat, w: Worker) { t in s.workers && s.workers[t] == w }

  lemma RemoveLogsDoes(job: Job, s: State, t: nat, w: Worker, batch: Row)
    requires Stands(s, t, w) && w.pc.Cleaning?
    ensures var s' := WorkerStep(job, s, t, RemoveLogs(batch.key));
      Stands(s', t, w) && s'.db == s.db && s'.logs == LogsBeyond(job, s.logs, [batch])
  {
    BeyondOne(job, s.logs, batch);
  }

  lemma RemovePageDoes(job: Job, s: State, t: nat, w: Worker, n: nat, total: nat)
    requires Inv(job, s) && Stands(s, t, w) && w.pc.Cleaning? && w.progress.snapshot.Some?
    requires 1 <= w.pc.left <= job.tables
    requires WellFormed(job, w.progress.snapshot.value)
    requires total == |w.progress.snapshot.value.collections[w.pc.left - 1]|
    requires 1 <= n <= 32 && w.pc.removed + n <= total
    ensures var s' := WorkerStep(job, s, t, RemovePage(n));
      && (Threw(s', t) || Stands(s', t, w.(pc := Cleaning(w.pc.left, w.pc.removed + n))))
      && s'.db == s.db && s'.logs == s.logs && (Owned(s.db, t, true) ==> !Threw(s', t))
  {
    assert |s.rows| == job.tables;
    hide Inv, Without;
  }

  lemma EndRemovalDoes(job: Job, s: State, t: nat, w: Worker, total: nat)
    requires Stands(s, t, w) && w.pc.Cleaning? && w.progress.snapshot.Some? && 1 <= w.pc.left <= job.tables
    requires WellFormed(job, w.progress.snapshot.value)
    requires total == |w.progress.snapshot.value.collections[w.pc.left - 1]|
    requires w.pc.removed >= total
    ensures var s' := WorkerStep(job, s, t, EndRemoval);
      Stands(s', t, w.(pc := Cleaning(w.pc.left - 1, 0))) && s'.db == s.db && s'.logs == s.logs
  {
  }

  lemma ForgetDoes(job: Job, s: State, t: nat, w: Worker)
    requires Stands(s, t, w) && w.pc.Cleaning? && (w.progress.snapshot.Some? ==> w.pc.left == 0)
    ensures var s' := WorkerStep(job, s, t, Forget);
      && (Threw(s', t) || Stands(s', t, Worker(w.status, w.progress.(snapshot := None, phase := Cleanup), Emptied)))
      && s'.logs == s.logs && s'.db.lease == s.db.lease && s'.db.status == s.db.status
      && (s.db.lease == Lease(t, true) && s.db.status == w.status ==> !Threw(s', t))
  {
  }

  lemma DeleteDoes(job: Job, s: State, t: nat, w: Worker, key: string)
    requires Stands(s, t, w) && w.pc.Emptied?
    ensures var s' := WorkerStep(job, s, t, DeleteObject(key));
      Stands(s', t, w) && s' == s.(objects := s.objects - {key})
  {
  }

  lemma RemoveTargetDoes(job: Job, s: State, t: nat, w: Worker)
    requires Stands(s, t, w) && w.pc.Emptied?
    ensures var s' := WorkerStep(job, s, t, RemoveTarget);
      && (Threw(s', t) || s'.db.status.Cancelled?)
      && s'.logs == s.logs && s'.objects == s.objects && (Owned(s.db, t, true) ==> !Threw(s', t))
  {
  }

  /** Removes the log stores of the batches on one page. */
  method RemoveBatches(stores: Stores, t: nat, w: Worker, page: seq<Row>) returns (ok: bool)
    requires stores.Valid() && Stands(stores.state, t, w) && w.pc.Cleaning?
    modifies stores
    ensures stores.Valid()
    ensures ok ==> Stands(stores.state, t, w)
    ensures !ok ==> Threw(stores.state, t)
    ensures old(stores.Undisturbed(t, w.status)) ==>
      ok && stores.Undisturbed(t, w.status) && stores.state.logs == LogsBeyond(stores.job, old(stores.state.logs), page)
  {
    hide WorkerStep, Step, Run, Inv, LogsBeyond;
    ok := true;
    ghost var before;
    BeyondNone(stores.job, stores.state.logs);
    var i := 0;
    while i < |page|
      invariant i <= |page| && ok && stores.Valid() && Stands(stores.state, t, w)
      invariant old(stores.Undisturbed(t, w.status)) ==>
        stores.Undisturbed(t, w.status) &&
          stores.state.logs == LogsBeyond(stores.job, old(stores.state.logs), page[..i])
    {
      ghost var quiet := stores.agenda == [];
      ok, before := stores.Call(t, RemoveLogs(page[i].key));
      if ok || quiet { RemoveLogsDoes(stores.job, before, t, w, page[i]); }
      if !ok { return; }
      BeyondJoins(stores.job, old(stores.state.logs), page[..i], [page[i]]);
      assert page[..i] + [page[i]] == page[..i + 1];
      i := i + 1;
    }
    assert page[..i] == page;
  }

  /** The logs that are left when these rows of a table have been dealt with. */
  function Cleared(job: Job, logs: LogStore, table: nat, rows: seq<Row>): LogStore {
    if table == job.batches then LogsBeyond(job, logs, rows) else logs
  }

  lemma ClearedJoins(job: Job, logs: LogStore, table: nat, source: seq<Row>, removed: nat, n: nat)
    requires removed + n <= |source|
    ensures Cleared(job, Cleared(job, logs, table, source[..removed]), table, source[removed..removed + n])
         == Cleared(job, logs, table, source[..removed + n])
    ensures Cleared(job, logs, table, []) == logs
  {
    hide LogsBeyond;
    BeyondNone(job, logs);
    BeyondJoins(job, logs, source[..removed], source[removed..removed + n]);
    assert source[..removed] + source[removed..removed + n] == source[..removed + n];
  }

  /** One page of the table at hand: first the log stores of its batches, if it is the table
    * of batches, and then the copies of its rows. */
  method RemoveRowsOf(stores: Stores, t: nat, w: Worker, n: nat, page: seq<Row>) returns (ok: bool, w': Worker)
    requires stores.Valid() && Stands(stores.state, t, w) && w.pc.Cleaning? && 1 <= n <= 32
    requires w.progress.snapshot.Some? && 1 <= w.pc.left <= stores.job.tables
    requires WellFormed(stores.job, w.progress.snapshot.value)
    requires w.pc.removed + n <= |w.progress.snapshot.value.collections[w.pc.left - 1]|
    requires page == w.progress.snapshot.value.collections[w.pc.left - 1][w.pc.removed..w.pc.removed + n]
    modifies stores
    ensures stores.Valid()
    ensures ok ==> Stands(stores.state, t, w') && w' == w.(pc := Cleaning(w.pc.left, w.pc.removed + n))
    ensures !ok ==> Threw(stores.state, t)
    ensures old(stores.Undisturbed(t, w.status)) ==>
      ok && stores.Undisturbed(t, w.status) &&
        stores.state.logs == Cleared(stores.job, old(stores.state.logs), w.pc.left - 1, page)
  {
    hide WorkerStep, Step, Run, Inv, LogsBeyond;
    w' := w;
    if w.pc.left - 1 == stores.job.batches {
      ok := RemoveBatches(stores, t, w, page);
      if !ok { return; }
    }
    ghost var quiet := stores.agenda == [];
    ghost var before;
    ok, before := stores.Call(t, RemovePage(n));
    if ok || quiet {
      RemovePageDoes(stores.job, before, t, w, n, |w.progress.snapshot.value.collections[w.pc.left - 1]|);
    }
    w' := w.(pc := Cleaning(w.pc.left, w.pc.removed + n));
  }

  method RemoveTable(stores: Stores, t: nat, start: Worker, source: seq<Row>) returns (ok: bool, w: Worker)
    requires stores.Valid() && Stands(stores.state, t, start) && start.pc.Cleaning? && start.pc.removed == 0
    requires start.progress.snapshot.Some? && 1 <= start.pc.left <= stores.job.tables
    requires WellFormed(stores.job, start.progress.snapshot.value)
    requires source == start.progress.snapshot.value.collections[start.pc.left - 1]
    modifies stores
    ensures stores.Valid()
    ensures ok ==> Stands(stores.state, t, w) && w == start.(pc := Cleaning(start.pc.left - 1, 0))
    ensures !ok ==> Threw(stores.state, t)
    ensures old(stores.Undisturbed(t, start.status)) ==>
      && ok && stores.Undisturbed(t, start.status)
      && stores.state.logs == Cleared(stores.job, old(stores.state.logs), start.pc.left - 1, source)
  {
    hide WorkerStep, Step, Run, Inv, Cleared;
    w := start;
    ClearedJoins(stores.job, stores.state.logs, start.pc.left - 1, source, 0, 0);
    while w.pc.removed < |source|
      invariant stores.Valid() && Stands(stores.state, t, w)
      invariant w.pc.Cleaning? && w == start.(pc := Cleaning(start.pc.left, w.pc.removed)) && w.pc.removed <= |source|
      invariant old(stores.Undisturbed(t, start.status)) ==>
        && stores.Undisturbed(t, start.status)
        && stores.state.logs == Cleared(stores.job, old(stores.state.logs), start.pc.left - 1, source[..w.pc.removed])
      decreases |source| - w.pc.removed
    {
      var n := PageLength(|source| - w.pc.removed);
      ClearedJoins(stores.job, old(stores.state.logs), start.pc.left - 1, source, w.pc.removed, n);
      ok, w := RemoveRowsOf(stores, t, w, n, source[w.pc.removed..w.pc.removed + n]);
      if !ok { return; }
    }
    assert source[..w.pc.removed] == source;
    ghost var quiet := stores.agenda == [];
    ghost var before;
    ok, before := stores.Call(t, EndRemoval);
    if ok || quiet { EndRemovalDoes(stores.job, before, t, w, |source|); }
    w := w.(pc := Cleaning(w.pc.left - 1, 0));
  }

  /** The logs a clean-up leaves: those of attempts in other batches than the snapshot's. */
  function Survivors(job: Job, logs: LogStore, snapshot: Option<Snapshot>): LogStore
  {
    if snapshot.Some? && job.batches < |snapshot.value.collections| then
      LogsBeyond(job, logs, snapshot.value.collections[job.batches])
    else logs
  }

  /** Empties the tables from the last to the first and removes the logs on the way. */
  method RemoveTables(stores: Stores, t: nat, start: Worker) returns (ok: bool, w: Worker)
    requires stores.Valid() && Stands(stores.state, t, start) && start.pc == Cleaning(stores.job.tables, 0)
    requires start.progress.snapshot.Some? && WellFormed(stores.job, start.progress.snapshot.value)
    modifies stores
    ensures stores.Valid()
    ensures ok ==> Stands(stores.state, t, w) && w == start.(pc := Cleaning(0, 0))
    ensures !ok ==> Threw(stores.state, t)
    ensures old(stores.Undisturbed(t, start.status)) ==>
      && ok && stores.Undisturbed(t, start.status)
      && stores.state.logs == Survivors(stores.job, old(stores.state.logs), start.progress.snapshot)
  {
    hide WorkerStep, Step, Run, Inv, LogsBeyond;
    w := start;
    ok := true;
    while w.pc.left > 0
      invariant ok && stores.Valid() && Stands(stores.state, t, w)
      invariant w.pc.Cleaning? && w == start.(pc := Cleaning(w.pc.left, 0)) && w.pc.left <= stores.job.tables
      invariant old(stores.Undisturbed(t, start.status)) ==>
        && stores.Undisturbed(t, start.status)
        && stores.state.logs == if w.pc.left <= stores.job.batches
                                then Survivors(stores.job, old(stores.state.logs), start.progress.snapshot)
                                else old(stores.state.logs)
      decreases w.pc.left
    {
      ok, w := RemoveTable(stores, t, w, w.progress.snapshot.value.collections[w.pc.left - 1]);
      if !ok { return; }
    }
  }

  /** Deletes what the listing of the job's objects shows until it shows nothing. Only the
    * uploads of workers that lost their lease can make it longer meanwhile. */
  method DeleteObjects(stores: Stores, t: nat, w: Worker) returns (ok: bool)
    requires stores.Valid() && Stands(stores.state, t, w) && w.pc.Emptied?
    modifies stores
    ensures stores.Valid()
    ensures ok ==> Stands(stores.state, t, w) && stores.state.objects == {}
    ensures !ok ==> Threw(stores.state, t)
    ensures old(stores.Undisturbed(t, w.status)) ==>
      ok && stores.Undisturbed(t, w.status) && stores.state.logs == old(stores.state.logs)
  {
    hide WorkerStep, Step, Run, Inv;
    ok := true;
    ghost var before;
    while stores.state.objects != {}
      invariant ok && stores.Valid() && Stands(stores.state, t, w)
      invariant old(stores.Undisturbed(t, w.status)) ==>
        stores.Undisturbed(t, w.status) && stores.state.logs == old(stores.state.logs)
      decreases |stores.agenda|, |stores.state.objects|
    {
      var key :| key in stores.state.objects;
      ghost var quiet := stores.agenda == [];
      ok, before := stores.Call(t, DeleteObject(key));
      if ok || quiet { DeleteDoes(stores.job, before, t, w, key); }
      if !ok { return; }
    }
  }

  /** Removes rows and logs, then the objects, then the target. Left alone it succeeds and
    * leaves no object and no log of the snapshot's batches. */
  method CleanUp(stores: Stores, t: nat, start: Worker) returns (ok: bool)
    requires stores.Valid() && Stands(stores.state, t, start) && start.pc == Cleaning(stores.job.tables, 0)
    requires start.progress.snapshot.Some? ==> WellFormed(stores.job, start.progress.snapshot.value)
    modifies stores
    ensures stores.Valid()
    ensures ok ==> stores.state.db.status.Cancelled?
    ensures !ok ==> Threw(stores.state, t)
    ensures old(stores.Undisturbed(t, start.status)) ==>
      && ok && stores.state.objects == {}
      && stores.state.logs == Survivors(stores.job, old(stores.state.logs), start.progress.snapshot)
  {
    hide WorkerStep, Step, Run, Inv, LogsBeyond;
    var w := start;
    ghost var before;
    if w.progress.snapshot.Some? {
      ok, w := RemoveTables(stores, t, start);
      if !ok { return; }
    }
    ghost var quiet := stores.agenda == [];
    ok, before := stores.Call(t, Forget);
    if ok || quiet { ForgetDoes(stores.job, before, t, w); }
    if !ok { return; }
    w := Worker(w.status, w.progress.(snapshot := None, phase := Cleanup), Emptied);
    ok := DeleteObjects(stores, t, w);
    if !ok { return; }
    quiet := stores.agenda == [];
    ok, before := stores.Call(t, RemoveTarget);
    if ok || quiet { RemoveTargetDoes(stores.job, before, t, w); }
  }

  // ------------------------------------------------------------- one execution

  datatype Outcome = NotClaimed | Interrupted | Published | CleanedUp | Released | Failed | LeftAlone

  lemma OpenDoes(job: Job, s: State, t: nat, w: Worker)
    requires Stands(s, t, w) && w.pc.Opening?
    ensures ToClean(w) ==> WorkerStep(job, s, t, Open) == With(s, t, w.(pc := Cleaning(job.tables, 0)))
    ensures !ToClean(w) && w.progress.snapshot.Some? ==>
      Stands(WorkerStep(job, s, t, Open), t, w.(pc := Copying)) && WorkerStep(job, s, t, Open).db == s.db
  {
  }

  lemma CaptureDoes(job: Job, s: State, t: nat, w: Worker, snapshot: Snapshot)
    requires Stands(s, t, w) && w.pc.Opening? && !ToClean(w) && w.progress.snapshot.None? && WellFormed(job, snapshot)
    ensures WorkerStep(job, s, t, Capture(snapshot))
      == Save(s, t, Worker(w.status, Captured(job, w.progress, snapshot), Copying))
  {
  }

  lemma CapturedCounted(job: Job, p: Progress, snapshot: Snapshot)
    requires Counters(job, p) && p.phase.Capturing? && WellFormed(job, snapshot)
    ensures Counters(job, Captured(job, p, snapshot))
  {
    PercentGrows(10, 30, 0, 0, |snapshot.objects|);
  }

  /** Captures the source unless an earlier worker has done so. */
  method Begin(stores: Stores, t: nat, start: Progress, source: Snapshot) returns (ok: bool, p: Progress)
    requires stores.Valid() && At(stores.state, t, start, Opening) && Counters(stores.job, start)
    requires WellFormed(stores.job, source) && !start.phase.Cleanup? && !start.phase.Done?
    modifies stores
    ensures stores.Valid()
    ensures ok ==> At(stores.state, t, p, Copying) && Counters(stores.job, p) && p.snapshot.Some?
    ensures ok ==> p == (if start.snapshot.Some? then start else Captured(stores.job, start, source))
    ensures !ok ==> Threw(stores.state, t)
    ensures old(stores.Alone(t)) ==> ok && stores.Alone(t)
  {
    assert start.snapshot.None? ==> start.phase.Capturing?;
    hide WorkerStep, Step, Run, Inv, Counters;
    p := start;
    ghost var before;
    if start.snapshot.None? {
      ok, before := stores.Call(t, Capture(source));
      if ok || old(stores.agenda) == [] {
        CaptureDoes(stores.job, before, t, Worker(Running, start, Opening), source);
        SaveDoes(before, t, Worker(Running, Captured(stores.job, start, source), Copying));
      }
      CapturedCounted(stores.job, start, source);
      p := Captured(stores.job, start, source);
    } else {
      ok, before := stores.Call(t, Open);
      if ok || old(stores.agenda) == [] { OpenDoes(stores.job, before, t, Worker(Running, start, Opening)); }
    }
  }

  /** Every phase the persisted job has not passed yet, in order. */
  method CopyPhases(stores: Stores, t: nat, start: Progress) returns (ok: bool)
    requires stores.Valid() && At(stores.state, t, start, Copying) && Counters(stores.job, start)
    requires start.phase.Files? || start.phase.Records? || start.phase.Logs? || start.phase.Verify?
    modifies stores
    ensures stores.Valid()
    ensures ok ==> stores.state.db.status.Completed?
    ensures !ok ==> Threw(stores.state, t)
    ensures old(stores.Alone(t)) && WholeLogs(stores.job) ==> ok
  {
    hide WorkerStep, Step, Run, Inv, Counters, WholeLogs;
    var p := start;
    if p.phase.Files? {
      ok, p := CopyObjects(stores, t, p);
      if !ok { return; }
    }
    if p.phase.Records? {
      ok, p := CopyRecords(stores, t, p);
      if !ok { return; }
    }
    if p.phase.Logs? {
      ok, p := CopyLogs(stores, t, p);
      if !ok { return; }
    }
    ok := CheckObjects(stores, t, p);
    if !ok { return; }
    ok := PublishCopy(stores, t, p);
  }

  lemma RecoverDoes(job: Job, s: State, t: nat)
    requires Inv(job, s) && t in s.workers && s.workers[t].pc == Thrown(false) && Holds(s.db, t)
    requires s.db.status.Cancelling?
    ensures Step(job, s, Act(t, Recover)) == With(s, t, Worker(s.db.status, s.db.progress, Cleaning(job.tables, 0)))
    ensures s.db.progress.snapshot.Some? ==> WellFormed(job, s.db.progress.snapshot.value)
  {
  }

  /** How the job row is left when an error of worker `t` has been settled. */
  ghost predicate SettledAs(before: JobRow, after: JobRow, t: nat, outcome: Outcome) {
    match outcome
    case LeftAlone => !Holds(before, t) && after == before
    case Released =>
      if Holds(before, t) then
        && after.lease.NoLease? && after.status == before.status && after.progress == before.progress
        && Claimable(after)
      else after == before
    case Failed =>
      if Holds(before, t) then
        && after.status.Failed? && after.lease.NoLease?
        && after.progress == before.progress && (before.status.Cancelling? ==> after.progress.phase.Cleanup?)
      else after == before
    case CleanedUp => after.status.Cancelled?
    case _ => false
  }

  lemma FailDoes(job: Job, s: State, t: nat)
    requires Inv(job, s) && Threw(s, t)
    ensures SettledAs(s.db, Step(job, s, Act(t, Fail)).db, t, Outcome.Failed)
  {
  }

  lemma ReleaseDoes(job: Job, s: State, t: nat)
    requires Inv(job, s) && Threw(s, t)
    ensures SettledAs(s.db, Step(job, s, Act(t, Release)).db, t, Released)
  {
  }

  lemma GiveUpDoes(job: Job, s: State, t: nat)
    requires Threw(s, t) && !Holds(s.db, t)
    ensures SettledAs(s.db, Step(job, s, Act(t, GiveUp)).db, t, LeftAlone)
  {
  }

  /** The error came while a job that is being cancelled was copied, so it is cleaned up now. */
  predicate CleansNext(s: State, t: nat) {
    t in s.workers && s.workers[t].pc == Thrown(false) && Holds(s.db, t) && s.db.status.Cancelling?
  }

  /** After an error: nothing when another worker has the lease, a release on shutdown, a
    * clean-up when a cancellation was the reason, otherwise the job fails. An error of that
    * clean-up releases the job if the shutdown has come by then, and else fails it. `last` is
    * the state in which the deciding error was read. */
  method Settle(stores: Stores, t: nat, shutdown: bool, later: bool) returns (outcome: Outcome, ghost last: State)
    requires stores.Valid() && Threw(stores.state, t)
    modifies stores
    ensures stores.Valid() && Inv(stores.job, last) && SettledAs(last.db, stores.state.db, t, outcome)
    ensures !old(Holds(stores.state.db, t)) <==> outcome.LeftAlone?
    ensures old(Holds(stores.state.db, t)) && shutdown ==> outcome.Released?
    ensures old(Holds(stores.state.db, t) && !CleansNext(stores.state, t)) && !shutdown ==> outcome.Failed?
    ensures outcome.CleanedUp? ==> old(CleansNext(stores.state, t)) && !shutdown
    ensures outcome.Failed? ==> !shutdown && !(old(CleansNext(stores.state, t)) && later)
    ensures outcome.Released? ==> if shutdown then Holds(last.db, t) else old(CleansNext(stores.state, t)) && later
    ensures shutdown || !old(CleansNext(stores.state, t)) ==> last == old(stores.state)
    ensures old(stores.Undisturbed(t, Cancelling)) && old(stores.state).workers[t].pc == Thrown(false) && !shutdown ==>
      && outcome.CleanedUp? && stores.state.objects == {}
      && stores.state.logs == Survivors(stores.job, old(stores.state.logs), old(stores.state.db.progress.snapshot))
  {
    hide WorkerStep, Step, Run, Inv;
    RunKeeps(stores.job, stores.trace);
    last := stores.state;
    if !Holds(stores.state.db, t) {
      GiveUpDoes(stores.job, stores.state, t);
      stores.Do(Act(t, GiveUp));
      return LeftAlone, last;
    }
    if shutdown {
      ReleaseDoes(stores.job, stores.state, t);
      stores.Do(Act(t, Release));
      return Released, last;
    }
    if stores.state.db.status.Cancelling? && stores.state.workers[t].pc == Thrown(false) {
      RecoverDoes(stores.job, stores.state, t);
      var w := Worker(stores.state.db.status, stores.state.db.progress, Cleaning(stores.job.tables, 0));
      stores.Do(Act(t, Recover));
      var ok := CleanUp(stores, t, w);
      if ok { return CleanedUp, last; }
      RunKeeps(stores.job, stores.trace);
      last := stores.state;
      if later {
        ReleaseDoes(stores.job, stores.state, t);
        stores.Do(Act(t, Release));
        return Released, last;
      }
    }
    FailDoes(stores.job, stores.state, t);
    stores.Do(Act(t, Fail));
    return Outcome.Failed, last;
  }

  lemma ClaimDoes(job: Job, s: State, t: nat)
    requires Inv(job, s) && t !in s.workers && Claimable(s.db)
    ensures var s' := Step(job, s, Claim(t));
      && t in s'.workers
      && s'.workers[t] == Worker(if s.db.status.Cancelling? then Cancelling else Running, s.db.progress, Opening)
      && s'.db == JobRow(s'.workers[t].status, s.db.progress, Lease(t, true)) && s'.logs == s.logs
    ensures Counters(job, s.db.progress) && !s.db.progress.phase.Done?
    ensures s.db.progress.snapshot.Some? ==> WellFormed(job, s.db.progress.snapshot.value)
  {
  }

  method CleanClaimed(stores: Stores, t: nat, w: Worker) returns (ok: bool)
    requires stores.Valid() && Stands(stores.state, t, w) && w.pc.Opening? && ToClean(w)
    requires w.progress.snapshot.Some? ==> WellFormed(stores.job, w.progress.snapshot.value)
    modifies stores
    ensures stores.Valid()
    ensures ok ==> stores.state.db.status.Cancelled?
    ensures !ok ==> Threw(stores.state, t)
    ensures old(stores.Undisturbed(t, w.status)) ==>
      && ok && stores.state.objects == {}
      && stores.state.logs == Survivors(stores.job, old(stores.state.logs), w.progress.snapshot)
  {
    hide WorkerStep, Step, Run, Inv, LogsBeyond;
    ghost var quiet := stores.agenda == [];
    ghost var before;
    ok, before := stores.Call(t, Open);
    if ok || quiet { OpenDoes(stores.job, before, t, w); }
    if !ok { return; }
    ok := CleanUp(stores, t, w.(pc := Cleaning(stores.job.tables, 0)));
  }

  method CopyClaimed(stores: Stores, t: nat, start: Progress, source: Snapshot) returns (ok: bool)
    requires stores.Valid() && At(stores.state, t, start, Opening) && Counters(stores.job, start)
    requires WellFormed(stores.job, source) && !start.phase.Cleanup? && !start.phase.Done?
    modifies stores
    ensures stores.Valid()
    ensures ok ==> stores.state.db.status.Completed?
    ensures !ok ==> Threw(stores.state, t)
    ensures old(stores.Alone(t)) && WholeLogs(stores.job) ==> ok
  {
    assert start.phase.Capturing? <==> start.snapshot.None?;
    hide WorkerStep, Step, Run, Inv, Counters, WholeLogs;
    var p;
    ok, p := Begin(stores, t, start, source);
    if !ok { return; }
    ok := CopyPhases(stores, t, p);
  }

  /** Nobody else is running, and the job is to be copied and free to be claimed. */
  predicate Resumable(stores: Stores)
    reads stores
  {
    && stores.agenda == [] && Claimable(stores.state.db)
    && !stores.state.db.status.Cancelling? && !stores.state.db.progress.phase.Cleanup?
  }

  /** Nobody else is running, and the job is to be cleaned up and free to be claimed. */
  predicate Cleanable(stores: Stores)
    reads stores
  {
    && stores.agenda == [] && Claimable(stores.state.db)
    && (stores.state.db.status.Cancelling? || stores.state.db.progress.phase.Cleanup?)
  }

  /** Waits while another worker's lease is alive: until the job can be claimed or has ended, or
    * until the shutdown signal comes, which is after `patience` waits. */
  method AwaitLease(stores: Stores, t: nat, patience: nat) returns (free: bool)
    requires stores.Valid() && t !in stores.state.workers
    modifies stores
    ensures stores.Valid() && t !in stores.state.workers && (free <==> Claimable(stores.state.db))
    ensures old(Claimable(stores.state.db)) ==> stores.state == old(stores.state) && stores.agenda == old(stores.agenda)
    ensures !free && Unfinished(stores.state.db.status) && patience >= |old(stores.agenda)| ==> stores.agenda == []
  {
    hide Step, Run;
    var waits := 0;
    while !Claimable(stores.state.db)
      invariant stores.Valid() && t !in stores.state.workers && waits <= patience
      invariant stores.agenda == [] || |stores.agenda| + waits <= |old(stores.agenda)|
      invariant waits == 0 ==> stores.state == old(stores.state) && stores.agenda == old(stores.agenda)
      invariant waits > 0 ==> !old(Claimable(stores.state.db))
      decreases patience - waits
    {
      if !Unfinished(stores.state.db.status) || waits == patience {
        return false;
      }
      stores.Pause(t);
      waits := waits + 1;
    }
    free := true;
  }

  /** Waits until the job can be claimed, carries it as far as it gets, and settles what went
    * wrong. It turns away only from a job that has ended, or on shutdown while another worker
    * holds a live lease. Whatever the others do, a published copy is complete and a cleaned-up
    * one left no rows. Left alone, a worker finishes from any state at which an earlier worker
    * may have died: it publishes if the source's logs are whole, or it cleans up rows, objects
    * and logs. */
  method Execute(stores: Stores, t: nat, source: Snapshot, patience: nat, shutdown: bool, later: bool)
    returns (outcome: Outcome, ghost last: State)
    requires stores.Valid() && t !in stores.state.workers && WellFormed(stores.job, source)
    modifies stores
    ensures stores.Valid()
    ensures old(Claimable(stores.state.db)) ==> !outcome.NotClaimed? && !outcome.Interrupted?
    ensures outcome.NotClaimed? ==> !Unfinished(stores.state.db.status)
    ensures outcome.Interrupted? ==>
      && Unfinished(stores.state.db.status) && stores.state.db.lease.Lease? && stores.state.db.lease.live
      && (patience >= |old(stores.agenda)| ==> stores.agenda == [])
    ensures outcome.Published? ==>
      && stores.state.db.status.Completed? && stores.state.db.progress.snapshot.Some?
      && WellFormed(stores.job, stores.state.db.progress.snapshot.value)
      && HoldsCopy(stores.job, stores.state, stores.state.db.progress.snapshot.value)
    ensures outcome.CleanedUp? ==>
      stores.state.db.status.Cancelled? && forall c :: 0 <= c < |stores.state.rows| ==> stores.state.rows[c] == []
    ensures outcome.LeftAlone? || outcome.Released? || outcome.Failed? ==>
      Inv(stores.job, last) && SettledAs(last.db, stores.state.db, t, outcome)
    ensures shutdown ==> !outcome.Failed? && (outcome.Released? ==> Holds(last.db, t))
    ensures !shutdown && !later ==> !outcome.Released?
    ensures WholeLogs(stores.job) && old(Resumable(stores)) ==> outcome.Published?
    ensures old(Cleanable(stores)) ==>
      && outcome.CleanedUp? && stores.state.objects == {}
      && stores.state.logs == Survivors(stores.job, old(stores.state.logs), old(stores.state.db.progress.snapshot))
  {
    hide WorkerStep, Step, Run, Inv, HoldsCopy, WholeLogs, Counters, Survivors;
    last := stores.state;
    var free := AwaitLease(stores, t, patience);
    if !free {
      return if Unfinished(stores.state.db.status) then Interrupted else NotClaimed, last;
    }
    RunKeeps(stores.job, stores.trace);
    ClaimDoes(stores.job, stores.state, t);
    stores.Do(Claim(t));
    var w := stores.state.workers[t];
    var ok;
    if ToClean(w) {
      ok := CleanClaimed(stores, t, w);
      outcome := CleanedUp;
    } else {
      ok := CopyClaimed(stores, t, w.progress, source);
      outcome := Published;
    }
    if !ok {
      outcome, last := Settle(stores, t, shutdown, later);
    }
    Outcomes(stores.job, stores.trace);
  }

  lemma Outcomes(job: Job, trace: seq<Event>)
    requires job.attempts < job.tables
    ensures var s := Run(job, trace); s.db.status.Completed? ==>
      s.db.progress.snapshot.Some? && WellFormed(job, s.db.progress.snapshot.value) &&
        HoldsCopy(job, s, s.db.progress.snapshot.value)
    ensures var s := Run(job, trace); s.db.status.Cancelled? ==> forall c :: 0 <= c < |s.rows| ==> s.rows[c] == []
  {
    var s := Run(job, trace);
    if s.db.status.Completed? { CompletedHolds(job, trace); }
    if s.db.status.Cancelled? {
      forall c | 0 <= c < |s.rows|
        ensures s.rows[c] == []
      {
        RunKeeps(job, trace);
        CancelledLeavesNoRows(job, trace, c);
      }
    }
  }
}
