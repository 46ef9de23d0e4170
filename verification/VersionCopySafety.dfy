/** What holds over every run of a version copy, whatever crashes, expiries, takeovers,
  * cancellations and retries it meets. */
module VersionCopySafety {
  import opened VersionCopyProtocol
  import opened VersionCopyInvariant
  import opened VersionCopySteps

  lemma LeaseStepKeeps(job: Job, s: State, e: Event)
    requires Inv(job, s)
    requires !e.Act?
    ensures Inv(job, Step(job, s, e))
  {
    match e
    case Claim(t) => ClaimKeeps(job, s, t);
    case Expire => ExpireKeeps(job, s);
    case Retry => RetryKeeps(job, s);
    case Cancel => CancelKeeps(job, s);
  }

  lemma EndingKeeps(job: Job, s: State, t: nat, a: Action)
    requires Inv(job, s)
    requires Ends(a) && t in s.workers
    ensures Inv(job, EndStep(job, s, t, a))
  {
    hide FailJob, ReleaseJob, RecoverByCleaning, Raised;
    match a
    case Renew =>
    case Throw => RaiseKeeps(job, s, t);
    case Fail => FailKeeps(job, s, t);
    case Release => ReleaseKeeps(job, s, t);
    case GiveUp => MoveKeeps(job, s, t, Ended);
    case Recover => RecoverKeeps(job, s, t);
  }

  lemma CopyingKeeps(job: Job, s: State, t: nat, a: Action)
    requires Inv(job, s) && Copies(a) && t in s.workers
    ensures Inv(job, CopyStep(job, s, t, a))
  {
    hide Inv, OpenJob, CaptureSource, PutNext, SaveStored, FilesToRecords, InsertRows, NextCollection, RecordsToLogs;
    match a
    case Open => OpenKeeps(job, s, t);
    case Capture(snapshot) => CaptureKeeps(job, s, t, snapshot);
    case PutObject => PutKeeps(job, s, t);
    case SaveObject => SaveObjectKeeps(job, s, t);
    case EndFiles => EndFilesKeeps(job, s, t);
    case InsertPage(n) => InsertKeeps(job, s, t, n);
    case EndCollection => EndCollectionKeeps(job, s, t);
    case EndRecords => EndRecordsKeeps(job, s, t);
  }

  lemma StreamingKeeps(job: Job, s: State, t: nat, a: Action)
    requires Inv(job, s) && Streams(a) && t in s.workers
    ensures Inv(job, StreamStep(job, s, t, a))
  {
    hide Inv, StartAttempt, AppendPage, CloseStream, SaveStreamed, LogsToVerify;
    match a
    case OpenAttempt => OpenAttemptKeeps(job, s, t);
    case AppendChunks(n) => AppendKeeps(job, s, t, n);
    case EndStream => EndStreamKeeps(job, s, t);
    case SaveAttempt => SaveAttemptKeeps(job, s, t);
    case EndLogs => EndLogsKeeps(job, s, t);
  }

  lemma PublishingKeeps(job: Job, s: State, t: nat, a: Action)
    requires Inv(job, s) && Publishes(a) && t in s.workers
    ensures Inv(job, PublishStep(job, s, t, a))
  {
    hide Inv, BeginChecks, CheckNext, BeginCounts, CountNext, Publish;
    match a
    case StartChecks => BeginChecksKeeps(job, s, t);
    case CheckObject => CheckKeeps(job, s, t);
    case StartCounts => BeginCountsKeeps(job, s, t);
    case CountTable => CountKeeps(job, s, t);
    case Finish => FinishKeeps(job, s, t);
  }

  lemma CleaningKeeps(job: Job, s: State, t: nat, a: Action)
    requires Inv(job, s) && Cleans(a) && t in s.workers
    ensures Inv(job, CleanStep(job, s, t, a))
  {
    hide Inv, DropLogs, RemoveRows, NextRemoval, ForgetSnapshot, DeleteStored, DropTarget;
    match a
    case RemoveLogs(batch) => RemoveLogsKeeps(job, s, t, batch);
    case RemovePage(n) => RemovePageKeeps(job, s, t, n);
    case EndRemoval => EndRemovalKeeps(job, s, t);
    case Forget => ForgetKeeps(job, s, t);
    case DeleteObject(key) => DeleteObjectKeeps(job, s, t, key);
    case RemoveTarget => RemoveTargetKeeps(job, s, t);
  }

  /** A step of worker `t` leaves every other worker as it is. */
  ghost predicate Confined(s: State, s': State, t: nat) {
    && s'.workers.Keys == s.workers.Keys
    && forall u {:trigger s'.workers[u]} :: u in s.workers && u != t ==> s'.workers[u] == s.workers[u]
  }

  lemma SavesConfined(s: State, t: nat)
    requires t in s.workers
    ensures forall r: State, w: Worker {:trigger Save(r, t, w)} :: r.workers == s.workers ==>
      Confined(s, Save(r, t, w), t)
  {
  }

  lemma CopyingConfined(job: Job, s: State, t: nat, a: Action)
    requires Copies(a) && t in s.workers
    ensures Confined(s, CopyStep(job, s, t, a), t)
  {
    SavesConfined(s, t);
    hide Save;
  }

  lemma StreamingConfined(job: Job, s: State, t: nat, a: Action)
    requires Streams(a) && t in s.workers
    ensures Confined(s, StreamStep(job, s, t, a), t)
  {
    SavesConfined(s, t);
    hide Save;
  }

  lemma PublishingConfined(job: Job, s: State, t: nat, a: Action)
    requires Publishes(a) && t in s.workers
    ensures Confined(s, PublishStep(job, s, t, a), t)
  {
    SavesConfined(s, t);
    hide Save;
  }

  lemma CleaningConfined(job: Job, s: State, t: nat, a: Action)
    requires Cleans(a) && t in s.workers
    ensures Confined(s, CleanStep(job, s, t, a), t)
  {
    SavesConfined(s, t);
    hide Save;
  }

  lemma EndingConfined(job: Job, s: State, t: nat, a: Action)
    requires Ends(a) && t in s.workers
    ensures Confined(s, EndStep(job, s, t, a), t)
  {
    SavesConfined(s, t);
    hide Save;
  }

  lemma StepConfined(job: Job, s: State, t: nat, a: Action)
    requires t in s.workers
    ensures Confined(s, WorkerStep(job, s, t, a), t)
  {
    hide CopyStep, StreamStep, PublishStep, CleanStep, EndStep;
    if Copies(a) { CopyingConfined(job, s, t, a); }
    else if Streams(a) { StreamingConfined(job, s, t, a); }
    else if Publishes(a) { PublishingConfined(job, s, t, a); }
    else if Cleans(a) { CleaningConfined(job, s, t, a); }
    else { EndingConfined(job, s, t, a); }
  }

  /** Every event keeps the invariant. */
  lemma StepKeeps(job: Job, s: State, e: Event)
    requires Inv(job, s)
    ensures Inv(job, Step(job, s, e))
  {
    if !e.Act? {
      LeaseStepKeeps(job, s, e);
    } else if e.t in s.workers {
      var t, a := e.t, e.action;
      assert Step(job, s, e) == WorkerStep(job, s, t, a);
      hide Inv, CopyStep, StreamStep, PublishStep, CleanStep, EndStep;
      if Copies(a) { CopyingKeeps(job, s, t, a); }
      else if Streams(a) { StreamingKeeps(job, s, t, a); }
      else if Publishes(a) { PublishingKeeps(job, s, t, a); }
      else if Cleans(a) { CleaningKeeps(job, s, t, a); }
      else { EndingKeeps(job, s, t, a); }
    } else {
      assert Step(job, s, e) == s;
    }
  }

  lemma {:induction false} BlankEmpty(n: nat)
    ensures |Blank(n)| == n && EmptyFrom(Blank(n), 0)
  {
    if n > 0 {
      BlankEmpty(n - 1);
      forall c: nat {:trigger EmptyAt(Blank(n), c)} | 0 <= c
        ensures EmptyAt(Blank(n), c)
      {
        assert EmptyAt(Blank(n - 1), c);
      }
    }
  }

  /** Every state a run can reach satisfies the invariant. */
  lemma {:induction false} RunKeeps(job: Job, events: seq<Event>)
    requires job.attempts < job.tables
    ensures Inv(job, Run(job, events))
  {
    if events == [] {
      BlankEmpty(job.tables);
    } else {
      RunKeeps(job, events[..|events| - 1]);
      StepKeeps(job, Run(job, events[..|events| - 1]), events[|events| - 1]);
    }
  }

  // ------------------------------------------------------------- what a completed copy holds

  /** The target holds the image of every snapshot row exactly once and in order, every
    * object, and of every attempt's streams each chunk and the whole acknowledged range. */
  ghost predicate HoldsCopy(job: Job, s: State, snapshot: Snapshot)
    requires WellFormed(job, snapshot)
  {
    && |s.rows| == job.tables
    && (forall c: nat {:trigger s.rows[c]} :: c < job.tables ==> s.rows[c] == Copied(job, c, snapshot.collections[c]))
    && (forall i {:trigger snapshot.objects[i]} :: 0 <= i < |snapshot.objects| ==>
         job.objectKey(snapshot.objects[i]) in s.objects)
    && (forall a {:trigger snapshot.collections[job.attempts][a]} :: 0 <= a < |snapshot.collections[job.attempts]| ==>
          StreamsAt(job, s.logs, snapshot.collections[job.attempts][a].key, 3))
  }

  lemma CompletedHolds(job: Job, events: seq<Event>)
    requires job.attempts < job.tables && Run(job, events).db.status.Completed?
    ensures var s := Run(job, events); var p := s.db.progress;
      && p.phase.Done? && p.percent == 100 && p.snapshot.Some? && WellFormed(job, p.snapshot.value)
      && HoldsCopy(job, s, p.snapshot.value)
      && p.copiedRows == RowTotal(p.snapshot.value.collections)
      && p.copiedObjects == |p.snapshot.value.objects|
      && p.copiedAttempts == |p.snapshot.value.collections[job.attempts]|
  {
    RunKeeps(job, events);
    FullCopy(job, Run(job, events));
  }

  lemma FullCopy(job: Job, s: State)
    requires Persisted(job, s) && (s.db.progress.phase.Verify? || s.db.progress.phase.Done?)
    ensures HoldsCopy(job, s, s.db.progress.snapshot.value)
  {
    var p, snapshot := s.db.progress, s.db.progress.snapshot.value;
    forall c: nat {:trigger s.rows[c]} | c < job.tables
      ensures s.rows[c] == Copied(job, c, snapshot.collections[c])
    {
      assert RowsAt(job, s.rows, p, c);
      assert snapshot.collections[c][..|snapshot.collections[c]|] == snapshot.collections[c];
    }
    forall i {:trigger snapshot.objects[i]} | 0 <= i < |snapshot.objects|
      ensures job.objectKey(snapshot.objects[i]) in s.objects
    {
      assert ObjectAt(job, s.objects, snapshot, i);
    }
    forall a {:trigger snapshot.collections[job.attempts][a]} | 0 <= a < |snapshot.collections[job.attempts]|
      ensures StreamsAt(job, s.logs, snapshot.collections[job.attempts][a].key, 3)
    {
      assert AttemptAt(job, s.logs, snapshot, a);
    }
  }

  /** The checks before publication cannot reject a worker that holds the lease. */
  lemma ChecksPass(job: Job, events: seq<Event>, t: nat)
    requires job.attempts < job.tables
    requires var s := Run(job, events); t in s.workers && Owned(s.db, t, false) && Publishing(s.workers[t])
    ensures var s := Run(job, events); var w := s.workers[t];
      && w.progress.snapshot.Some?
      && (w.pc.Checking? && w.pc.checked < |w.progress.snapshot.value.objects| ==>
            job.objectKey(w.progress.snapshot.value.objects[w.pc.checked]) in s.objects)
      && (w.pc.Counting? && w.pc.counted < |w.progress.snapshot.value.collections| ==> CountAgrees(s, w))
  {
    RunKeeps(job, events);
    var s := Run(job, events);
    var w := s.workers[t];
    OwnerBacked(job, s, t) by { assert WorkerOk(job, s, t); }
    assert WorkerOk(job, s, t);
    FullCopy(job, s);
    if w.pc.Counting? && w.pc.counted < |w.progress.snapshot.value.collections| {
      CopiedLength(job, w.pc.counted, w.progress.snapshot.value.collections[w.pc.counted]);
    }
  }

  /** A cancelled copy leaves no row behind in any target table. */
  lemma CancelledLeavesNoRows(job: Job, events: seq<Event>, c: nat)
    requires job.attempts < job.tables && c < job.tables && Run(job, events).db.status.Cancelled?
    ensures |Run(job, events).rows| == job.tables && Run(job, events).rows[c] == []
  {
    RunKeeps(job, events);
    assert EmptyAt(Run(job, events).rows, c);
  }
}
