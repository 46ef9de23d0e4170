/** Persisted progress only moves forward, a worker without the lease writes nothing that
  * is guarded by it, and a requested cancellation is final. */
module VersionCopyProgress {
  import opened VersionCopyProtocol
  import opened VersionCopyInvariant
  import opened VersionCopySteps
  import opened VersionCopySafety

  function Rank(phase: Phase): nat {
    match phase
    case Capturing => 0
    case Files => 1
    case Records => 2
    case Logs => 3
    case Verify => 4
    case Done => 5
    case Cleanup => 6
  }

  /** What the percentage must be at this point: between the ends of two phases the share that
    * is copied, and before the first row or attempt what the phase before ended with. */
  function Shown(p: Progress): nat {
    match p.phase
    case Capturing => 0
    case Files => Percent(10, 30, p.copiedObjects, p.totalObjects)
    case Records => if p.copiedRows == 0 then FilesEnd(p) else Percent(40, 30, p.copiedRows, p.totalRows)
    case Logs => if p.copiedAttempts == 0 then RecordsEnd(p) else Percent(70, 28, p.copiedAttempts, p.totalAttempts)
    case Verify => 99
    case Done => 100
    case Cleanup => p.percent
  }

  function FilesEnd(p: Progress): nat { if p.totalObjects == 0 then 10 else 40 }

  function RecordsEnd(p: Progress): nat { if p.totalRows == 0 then FilesEnd(p) else 70 }

  /** Lexicographically by phase, table and cursor, with every counter at least as large. The
    * snapshot is chosen once and only given up by a clean-up, and a percentage that says what
    * it must goes on to do so. */
  predicate Ahead(p: Progress, p': Progress) {
    && (Rank(p.phase) < Rank(p'.phase)
        || (p.phase == p'.phase
            && (p.collectionIndex < p'.collectionIndex ||
                 (p.collectionIndex == p'.collectionIndex && p.cursor <= p'.cursor))))
    && p.copiedRows <= p'.copiedRows && p.copiedObjects <= p'.copiedObjects && p.copiedAttempts <= p'.copiedAttempts
    && p.percent <= p'.percent
    && (p'.snapshot == p.snapshot || p.phase.Capturing? || (p'.phase.Cleanup? && p'.snapshot.None?))
    && (p.percent == Shown(p) ==> p'.percent == Shown(p'))
  }

  lemma AheadTransitive(p: Progress, q: Progress, r: Progress)
    requires Ahead(p, q) && Ahead(q, r)
    ensures Ahead(p, r)
  {
  }

  lemma SaveAhead(job: Job, s: State, t: nat, p: Progress)
    requires Inv(job, s) && t in s.workers && Copier(s.workers[t])
    requires Holds(s.db, t) && s.db.status.Running? ==> Ahead(s.db.progress, p)
    ensures Ahead(s.db.progress, Save(s, t, Worker(s.workers[t].status, p, Copying)).db.progress)
  {
    assert WorkerOk(job, s, t);
  }

  lemma OwnerProgress(job: Job, s: State, t: nat)
    requires Inv(job, s) && t in s.workers
    ensures Copier(s.workers[t]) && Holds(s.db, t) && s.db.status.Running? ==>
      s.workers[t].progress == s.db.progress && Counters(job, s.db.progress)
  {
    assert WorkerOk(job, s, t);
  }

  lemma ObjectAhead(job: Job, p: Progress)
    requires Counters(job, p) && p.phase.Files? && p.cursor + 1 < p.totalObjects
    ensures Ahead(p, ObjectDone(p))
  {
    PercentGrows(10, 30, p.copiedObjects, p.copiedObjects + 1, p.totalObjects);
  }

  lemma PageAhead(job: Job, p: Progress, n: nat)
    requires Counters(job, p) && p.phase.Records? && p.collectionIndex < job.tables && n > 0
    requires p.cursor + 1 + n <= |p.snapshot.value.collections[p.collectionIndex]|
    ensures Ahead(p, PageDone(p, n))
  {
    InsertCounters(job, p, n);
    PercentGrows(40, 30, p.copiedRows, p.copiedRows + n, p.totalRows);
  }

  lemma AttemptAhead(job: Job, p: Progress)
    requires Counters(job, p) && p.phase.Logs? && p.cursor + 1 < p.totalAttempts
    ensures Ahead(p, AttemptDone(p))
  {
    PercentGrows(70, 28, p.copiedAttempts, p.copiedAttempts + 1, p.totalAttempts);
  }

  lemma FilesEndAhead(job: Job, p: Progress)
    requires Counters(job, p) && p.phase.Files? && p.cursor + 1 >= p.totalObjects
    ensures Ahead(p, p.(phase := Records, cursor := -1))
  {
    PercentIs(10, 30, p.copiedObjects, p.totalObjects);
    hide Totals, Percent;
  }

  lemma RecordsEndAhead(job: Job, p: Progress)
    requires Counters(job, p) && p.phase.Records? && p.collectionIndex >= job.tables
    ensures Ahead(p, p.(phase := Logs, cursor := -1))
  {
    assert p.copiedRows == p.totalRows by {
      assert p.snapshot.value.collections[..p.collectionIndex] == p.snapshot.value.collections;
    }
    PercentIs(40, 30, p.copiedRows, p.totalRows);
    hide Totals, Percent, RowTotal;
  }

  lemma VerifyAhead(job: Job, p: Progress)
    requires Counters(job, p) && p.phase.Logs?
    ensures Ahead(p, p.(phase := Verify, percent := 99))
  {
    PercentGrows(70, 28, p.copiedAttempts, p.copiedAttempts, p.totalAttempts);
  }

  lemma CaptureAhead(job: Job, s: State, t: nat, snapshot: Snapshot)
    requires Inv(job, s) && t in s.workers
    ensures Ahead(s.db.progress, CaptureSource(job, s, t, snapshot).db.progress)
  {
    var w := s.workers[t];
    if w.pc.Opening? && !ToClean(w) && w.progress.snapshot.None? && WellFormed(job, snapshot) {
      OwnerProgress(job, s, t);
      SaveAhead(job, s, t, Captured(job, w.progress, snapshot));
    }
  }

  lemma StoredAhead(job: Job, s: State, t: nat)
    requires Inv(job, s) && t in s.workers
    ensures Ahead(s.db.progress, SaveStored(s, t).db.progress)
  {
    var w := s.workers[t];
    AheadSelf(s.db.progress);
    if w.pc.Stored? {
      assert WorkerOk(job, s, t);
      OwnerProgress(job, s, t);
      if Holds(s.db, t) && s.db.status.Running? { ObjectAhead(job, w.progress); }
      hide Ahead, Inv, Save, Counters, ObjectDone;
      SaveAhead(job, s, t, ObjectDone(w.progress));
    } else {
      hide Ahead, Inv;
    }
  }

  lemma FilesAhead(job: Job, s: State, t: nat)
    requires Inv(job, s) && t in s.workers
    ensures Ahead(s.db.progress, FilesToRecords(s, t).db.progress)
  {
    var w := s.workers[t];
    AheadSelf(s.db.progress);
    OwnerProgress(job, s, t);
    if In(w, Files) && w.progress.cursor + 1 >= |w.progress.snapshot.value.objects| {
      if Holds(s.db, t) && s.db.status.Running? { FilesEndAhead(job, w.progress); }
      hide Ahead, Inv, Save, Counters;
      SaveAhead(job, s, t, w.progress.(phase := Records, cursor := -1));
    } else {
      hide Ahead, Inv;
    }
  }

  lemma InsertAhead(job: Job, s: State, t: nat, n: nat)
    requires Inv(job, s) && t in s.workers
    ensures Ahead(s.db.progress, InsertRows(job, s, t, n).db.progress)
  {
    AheadSelf(s.db.progress);
    if InsertRows(job, s, t, n).db != s.db {
      assert WorkerOk(job, s, t);
      OwnerProgress(job, s, t);
      PageAhead(job, s.workers[t].progress, n);
      hide Ahead, Inv, Counters, PageDone, Copied;
    } else {
      hide Ahead, Inv, InsertRows;
    }
  }

  lemma CollectionAhead(job: Job, s: State, t: nat)
    requires Inv(job, s) && t in s.workers
    ensures Ahead(s.db.progress, NextCollection(s, t).db.progress)
  {
    var w := s.workers[t];
    AheadSelf(s.db.progress);
    OwnerProgress(job, s, t);
    hide Inv, Save, Counters;
    if In(w, Records) { SaveAhead(job, s, t, CollectionDone(w.progress)); }
  }

  lemma RecordsAhead(job: Job, s: State, t: nat)
    requires Inv(job, s) && t in s.workers
    ensures Ahead(s.db.progress, RecordsToLogs(s, t).db.progress)
  {
    var w := s.workers[t];
    AheadSelf(s.db.progress);
    OwnerProgress(job, s, t);
    if In(w, Records) && w.progress.collectionIndex >= |w.progress.snapshot.value.collections| {
      if Holds(s.db, t) && s.db.status.Running? { RecordsEndAhead(job, w.progress); }
      hide Ahead, Inv, Save, Counters;
      SaveAhead(job, s, t, w.progress.(phase := Logs, cursor := -1));
    } else {
      hide Ahead, Inv;
    }
  }

  lemma StreamedAhead(job: Job, s: State, t: nat)
    requires Inv(job, s) && t in s.workers
    ensures Ahead(s.db.progress, SaveStreamed(s, t).db.progress)
  {
    var w := s.workers[t];
    AheadSelf(s.db.progress);
    if w.pc.Streaming? {
      assert WorkerOk(job, s, t);
      OwnerProgress(job, s, t);
      if Holds(s.db, t) && s.db.status.Running? { AttemptAhead(job, w.progress); }
      hide Ahead, Inv, Save, Counters, AttemptDone;
      SaveAhead(job, s, t, AttemptDone(w.progress));
    } else {
      hide Ahead, Inv;
    }
  }

  lemma LogsAhead(job: Job, s: State, t: nat)
    requires Inv(job, s) && t in s.workers
    ensures Ahead(s.db.progress, LogsToVerify(job, s, t).db.progress)
  {
    var w := s.workers[t];
    AheadSelf(s.db.progress);
    OwnerProgress(job, s, t);
    if In(w, Logs) {
      if Holds(s.db, t) && s.db.status.Running? { VerifyAhead(job, w.progress); }
      hide Ahead, Inv, Save, Counters;
      SaveAhead(job, s, t, w.progress.(phase := Verify, percent := 99));
    } else {
      hide Ahead, Inv;
    }
  }

  lemma PublishAhead(job: Job, s: State, t: nat)
    requires Inv(job, s) && t in s.workers
    ensures Ahead(s.db.progress, Publish(s, t).db.progress)
  {
    AheadSelf(s.db.progress);
    if Publish(s, t).db != s.db {
      OwnerProgress(job, s, t);
      assert WorkerOk(job, s, t);
      PercentBound(job, s.db.progress);
      hide Inv, Counters, WorkerOk;
    } else {
      hide Publish, Inv;
    }
  }

  lemma ForgetAhead(job: Job, s: State, t: nat)
    requires Inv(job, s) && t in s.workers
    ensures Ahead(s.db.progress, ForgetSnapshot(s, t).db.progress)
  {
    AheadSelf(s.db.progress);
    assert WorkerOk(job, s, t);
    hide Inv, CleanerAt;
  }

  lemma FailAhead(job: Job, s: State, t: nat)
    requires Inv(job, s) && t in s.workers
    ensures Ahead(s.db.progress, FailJob(s, t).db.progress)
  {
    assert s.db.status.Cancelling? ==> s.db.progress.phase.Cleanup?;
    hide Inv;
  }

  lemma StepAhead(job: Job, s: State, e: Event)
    requires Inv(job, s)
    ensures Ahead(s.db.progress, Step(job, s, e).db.progress)
  {
    hide Inv, Ahead;
    AheadSelf(s.db.progress);
    if !e.Act? || e.t !in s.workers {
      if e.Cancel? { CancelAhead(job, s); }
    } else {
      WorkerAhead(job, s, e.t, e.action);
    }
  }

  lemma AheadSelf(p: Progress)
    ensures Ahead(p, p)
  {
  }

  lemma CancelAhead(job: Job, s: State)
    requires Inv(job, s)
    ensures Ahead(s.db.progress, CancelJob(s).db.progress)
  {
  }

  predicate WritesProgress(a: Action) {
    || a.Capture? || a.SaveObject? || a.EndFiles? || a.InsertPage? || a.EndCollection? || a.EndRecords?
    || a.SaveAttempt? || a.EndLogs? || a.Finish? || a.Forget? || a.Fail?
  }

  /** No other step of a worker touches the persisted progress. */
  lemma QuietStep(job: Job, s: State, t: nat, a: Action)
    requires t in s.workers && !WritesProgress(a)
    ensures WorkerStep(job, s, t, a).db.progress == s.db.progress
  {
    if Copies(a) {
      hide StreamStep, PublishStep, CleanStep, EndStep;
    } else if Streams(a) {
      hide CopyStep, PublishStep, CleanStep, EndStep;
    } else if Publishes(a) {
      hide CopyStep, StreamStep, CleanStep, EndStep;
    } else if Cleans(a) {
      hide CopyStep, StreamStep, PublishStep, EndStep;
    } else {
      hide CopyStep, StreamStep, PublishStep, CleanStep;
    }
  }

  lemma WorkerAhead(job: Job, s: State, t: nat, a: Action)
    requires Inv(job, s) && t in s.workers
    ensures Ahead(s.db.progress, WorkerStep(job, s, t, a).db.progress)
  {
    hide Inv, Ahead, WorkerStep;
    if a.Finish? || a.Forget? || a.Fail? {
      EndingAhead(job, s, t, a);
    } else if WritesProgress(a) {
      SavingAhead(job, s, t, a);
    } else {
      QuietStep(job, s, t, a);
      AheadSelf(s.db.progress);
    }
  }

  lemma EndingAhead(job: Job, s: State, t: nat, a: Action)
    requires Inv(job, s) && t in s.workers && (a.Finish? || a.Forget? || a.Fail?)
    ensures Ahead(s.db.progress, WorkerStep(job, s, t, a).db.progress)
  {
    hide Inv, Ahead, CopyStep, StreamStep, Publish, ForgetSnapshot, FailJob;
    match a
    case Finish => PublishAhead(job, s, t);
    case Forget => ForgetAhead(job, s, t);
    case Fail => FailAhead(job, s, t);
  }

  lemma SavingAhead(job: Job, s: State, t: nat, a: Action)
    requires Inv(job, s) && t in s.workers
    requires WritesProgress(a) && !a.Finish? && !a.Forget? && !a.Fail?
    ensures Ahead(s.db.progress, WorkerStep(job, s, t, a).db.progress)
  {
    hide Inv, Ahead, CaptureSource, SaveStored, FilesToRecords, InsertRows, NextCollection, RecordsToLogs,
      SaveStreamed, LogsToVerify, PublishStep, CleanStep, EndStep;
    match a
    case Capture(snapshot) => CaptureAhead(job, s, t, snapshot);
    case SaveObject => StoredAhead(job, s, t);
    case EndFiles => FilesAhead(job, s, t);
    case InsertPage(n) => InsertAhead(job, s, t, n);
    case EndCollection => CollectionAhead(job, s, t);
    case EndRecords => RecordsAhead(job, s, t);
    case SaveAttempt => StreamedAhead(job, s, t);
    case EndLogs => LogsAhead(job, s, t);
  }

  /** Persisted progress never goes back, however a run continues. */
  lemma {:induction false} RunAhead(job: Job, events: seq<Event>, k: nat)
    requires job.attempts < job.tables && k <= |events|
    ensures Ahead(Run(job, events[..k]).db.progress, Run(job, events).db.progress)
    decreases |events|
  {
    if k == |events| {
      assert events[..k] == events;
    } else {
      var before := events[..|events| - 1];
      assert before[..k] == events[..k];
      RunAhead(job, before, k);
      RunKeeps(job, before);
      StepAhead(job, Run(job, before), events[|events| - 1]);
      AheadTransitive(Run(job, events[..k]).db.progress, Run(job, before).db.progress, Run(job, events).db.progress);
    }
  }

  /** The percentage always says exactly how far the copy is. */
  lemma PercentShown(job: Job, events: seq<Event>)
    requires job.attempts < job.tables
    ensures Run(job, events).db.progress.percent == Shown(Run(job, events).db.progress)
  {
    RunAhead(job, events, 0);
    assert events[..0] == [];
  }

  /** A copy that was asked to cancel, or began to clean up, is never published later. */
  lemma CancelIsFinal(job: Job, events: seq<Event>, k: nat)
    requires job.attempts < job.tables && k <= |events|
    requires Run(job, events[..k]).db.status.Cancelling? || Run(job, events[..k]).db.progress.phase.Cleanup?
    ensures !Run(job, events).db.status.Completed?
  {
    RunKeeps(job, events[..k]);
    RunKeeps(job, events);
    RunAhead(job, events, k);
  }

  /** A worker whose lease is gone or has run out changes neither the target rows nor any
    * progress; the most it does to the job row is to fail it while its token still stands. */
  lemma Fenced(job: Job, s: State, t: nat, a: Action)
    requires Inv(job, s)
    requires t in s.workers
    requires s.db.lease != Lease(t, true)
    ensures WorkerStep(job, s, t, a).rows == s.rows
    ensures WorkerStep(job, s, t, a).db.progress == s.db.progress
    ensures !Holds(s.db, t) ==> WorkerStep(job, s, t, a).db == s.db
  {
    hide Inv, CopyStep, StreamStep, PublishStep, CleanStep, EndStep;
    if Copies(a) { FencedCopying(job, s, t, a); }
    else if Streams(a) { FencedStreaming(job, s, t, a); }
    else if Publishes(a) { FencedPublishing(job, s, t, a); }
    else if Cleans(a) { FencedCleaning(job, s, t, a); }
    else { FencedEnding(job, s, t, a); }
  }

  lemma FencedCopying(job: Job, s: State, t: nat, a: Action)
    requires Copies(a) && t in s.workers && s.db.lease != Lease(t, true)
    ensures CopyStep(job, s, t, a).rows == s.rows && CopyStep(job, s, t, a).db == s.db
  {
    forall w: Worker {:trigger Save(s, t, w)}
      ensures Save(s, t, w) == Raised(s, t)
    {
      FencedSaves(s, t, w);
    }
    hide Save, Copied;
  }

  lemma FencedSaves(r: State, t: nat, w: Worker)
    requires t in r.workers && r.db.lease != Lease(t, true)
    ensures Save(r, t, w) == Raised(r, t)
  {
  }

  lemma FencedStreaming(job: Job, s: State, t: nat, a: Action)
    requires Streams(a) && t in s.workers && s.db.lease != Lease(t, true)
    ensures StreamStep(job, s, t, a).rows == s.rows && StreamStep(job, s, t, a).db == s.db
  {
    forall w: Worker {:trigger Save(s, t, w)}
      ensures Save(s, t, w) == Raised(s, t)
    {
      FencedSaves(s, t, w);
    }
    hide Save, Appended, Acknowledged;
  }

  lemma FencedPublishing(job: Job, s: State, t: nat, a: Action)
    requires Publishes(a) && t in s.workers && s.db.lease != Lease(t, true)
    ensures PublishStep(job, s, t, a).rows == s.rows && PublishStep(job, s, t, a).db == s.db
  {
  }

  lemma FencedCleaning(job: Job, s: State, t: nat, a: Action)
    requires Cleans(a) && t in s.workers && s.db.lease != Lease(t, true)
    ensures CleanStep(job, s, t, a).rows == s.rows && CleanStep(job, s, t, a).db == s.db
  {
    forall w: Worker {:trigger Save(s, t, w)}
      ensures Save(s, t, w) == Raised(s, t)
    {
      FencedSaves(s, t, w);
    }
    hide Save, Without;
  }

  lemma FencedEnding(job: Job, s: State, t: nat, a: Action)
    requires Inv(job, s) && Ends(a) && t in s.workers && s.db.lease != Lease(t, true)
    ensures EndStep(job, s, t, a).rows == s.rows && EndStep(job, s, t, a).db.progress == s.db.progress
    ensures !Holds(s.db, t) ==> EndStep(job, s, t, a).db == s.db
  {
    assert s.db.status.Cancelling? ==> s.db.progress.phase.Cleanup?;
    hide Inv;
  }
}
