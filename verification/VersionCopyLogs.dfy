/** The target log store never disagrees with the source, so no append is ever refused; and what
  * removing the stores of a snapshot's batches leaves of it. */
module VersionCopyLogs {
  import opened VersionCopyProtocol

  /** Within a stream every sequence number is used once. */
  ghost predicate DistinctSequences(job: Job) {
    forall a: string, stream: nat, i: nat, k: nat {:trigger job.source(a, stream)[i], job.source(a, stream)[k]} ::
      i < k < |job.source(a, stream)| ==> job.source(a, stream)[i].sequence != job.source(a, stream)[k].sequence
  }

  ghost predicate AgreesAt(job: Job, logs: LogStore, a: string, stream: nat, i: nat)
    requires i < |job.source(a, stream)|
  {
    var chunk := job.source(a, stream)[i];
    LogKey(a, stream, chunk.sequence) in logs ==> logs[LogKey(a, stream, chunk.sequence)] == chunk.content
  }

  ghost predicate Agrees(job: Job, logs: LogStore) {
    forall a: string, stream: nat, i: nat {:trigger AgreesAt(job, logs, a, stream, i)} ::
      i < |job.source(a, stream)| ==> AgreesAt(job, logs, a, stream, i)
  }

  lemma AgreesOne(job: Job, logs: LogStore, a: string, stream: nat, i: nat)
    requires DistinctSequences(job) && Agrees(job, logs) && i < |job.source(a, stream)|
    ensures Agrees(job, logs[LogKey(a, stream, job.source(a, stream)[i].sequence) := job.source(a, stream)[i].content])
  {
    var chunk := job.source(a, stream)[i];
    var more := logs[LogKey(a, stream, chunk.sequence) := chunk.content];
    forall b: string, other: nat, k: nat {:trigger AgreesAt(job, more, b, other, k)} | k < |job.source(b, other)|
      ensures AgreesAt(job, more, b, other, k)
    {
      assert AgreesAt(job, logs, b, other, k);
      if b == a && other == stream && k != i {
        assert job.source(a, stream)[k].sequence != chunk.sequence;
      }
    }
  }

  /** Appending any run of source chunks is accepted and keeps the agreement. */
  lemma {:induction false} AppendAccepted(job: Job, logs: LogStore, a: string, stream: nat, from: nat, n: nat)
    requires DistinctSequences(job) && Agrees(job, logs) && from + n <= |job.source(a, stream)|
    ensures var page := job.source(a, stream)[from..from + n];
      Appended(logs, a, stream, page).Some? && Agrees(job, Appended(logs, a, stream, page).value)
    decreases n
  {
    var page := job.source(a, stream)[from..from + n];
    if n > 0 {
      var chunk := job.source(a, stream)[from];
      var key := LogKey(a, stream, chunk.sequence);
      assert page[0] == chunk && page[1..] == job.source(a, stream)[from + 1..from + 1 + (n - 1)];
      assert AgreesAt(job, logs, a, stream, from);
      if key !in logs {
        AgreesOne(job, logs, a, stream, from);
        AppendAccepted(job, logs[key := chunk.content], a, stream, from + 1, n - 1);
      } else {
        AppendAccepted(job, logs, a, stream, from + 1, n - 1);
      }
    }
  }

  lemma AppendAgrees(job: Job, s: State, t: nat, n: nat)
    requires DistinctSequences(job) && Agrees(job, s.logs) && t in s.workers
    ensures Agrees(job, AppendPage(job, s, t, n).logs)
  {
    var w := s.workers[t];
    if w.pc.Streaming? && w.pc.stream < STREAMS && HasAttempt(job, w.progress) {
      var attempt := AttemptKey(job, w.progress);
      if w.pc.taken + n <= |job.source(attempt, w.pc.stream)| {
        AppendAccepted(job, s.logs, attempt, w.pc.stream, w.pc.taken, n);
      }
    }
  }

  lemma DropAgrees(job: Job, s: State, t: nat, batch: string)
    requires Agrees(job, s.logs) && t in s.workers
    ensures Agrees(job, DropLogs(job, s, t, batch).logs)
  {
    var less := DropLogs(job, s, t, batch).logs;
    forall b: string, other: nat, k: nat {:trigger AgreesAt(job, less, b, other, k)} | k < |job.source(b, other)|
      ensures AgreesAt(job, less, b, other, k)
    {
      assert AgreesAt(job, s.logs, b, other, k);
    }
  }

  lemma LogsUntouched(job: Job, s: State, t: nat, a: Action)
    requires t in s.workers && !a.AppendChunks? && !a.RemoveLogs?
    ensures WorkerStep(job, s, t, a).logs == s.logs
  {
    hide CopyStep, StreamStep, PublishStep, CleanStep, EndStep;
    if Copies(a) { LogsUntouchedByCopying(job, s, t, a); }
    else if Streams(a) { LogsUntouchedByStreaming(job, s, t, a); }
    else if Publishes(a) { LogsUntouchedByPublishing(job, s, t, a); }
    else if Cleans(a) { LogsUntouchedByCleaning(job, s, t, a); }
    else { LogsUntouchedByEnding(job, s, t, a); }
  }

  lemma SavesKeepLogs(t: nat)
    ensures forall r: State, w: Worker {:trigger Save(r, t, w)} :: t in r.workers ==> Save(r, t, w).logs == r.logs
  {
  }

  lemma LogsUntouchedByCopying(job: Job, s: State, t: nat, a: Action)
    requires Copies(a) && t in s.workers
    ensures CopyStep(job, s, t, a).logs == s.logs
  {
    SavesKeepLogs(t);
    hide Save;
  }

  lemma LogsUntouchedByStreaming(job: Job, s: State, t: nat, a: Action)
    requires Streams(a) && !a.AppendChunks? && t in s.workers
    ensures StreamStep(job, s, t, a).logs == s.logs
  {
    SavesKeepLogs(t);
    hide Save;
  }

  lemma LogsUntouchedByPublishing(job: Job, s: State, t: nat, a: Action)
    requires Publishes(a) && t in s.workers
    ensures PublishStep(job, s, t, a).logs == s.logs
  {
  }

  lemma LogsUntouchedByCleaning(job: Job, s: State, t: nat, a: Action)
    requires Cleans(a) && !a.RemoveLogs? && t in s.workers
    ensures CleanStep(job, s, t, a).logs == s.logs
  {
    SavesKeepLogs(t);
    hide Save, Without;
  }

  lemma LogsUntouchedByEnding(job: Job, s: State, t: nat, a: Action)
    requires Ends(a) && t in s.workers
    ensures EndStep(job, s, t, a).logs == s.logs
  {
  }

  lemma StepAgrees(job: Job, s: State, e: Event)
    requires DistinctSequences(job) && Agrees(job, s.logs)
    ensures Agrees(job, Step(job, s, e).logs)
  {
    hide Agrees, DistinctSequences;
    if e.Act? && e.t in s.workers {
      if e.action.AppendChunks? {
        AppendAgrees(job, s, e.t, e.action.n);
      } else if e.action.RemoveLogs? {
        DropAgrees(job, s, e.t, e.action.batch);
      } else {
        hide WorkerStep;
        LogsUntouched(job, s, e.t, e.action);
      }
    }
  }

  /** In every reachable state a stored chunk says what the source chunk of its number says. */
  lemma {:induction false} RunAgrees(job: Job, events: seq<Event>)
    requires DistinctSequences(job)
    ensures Agrees(job, Run(job, events).logs)
  {
    if events != [] {
      RunAgrees(job, events[..|events| - 1]);
      StepAgrees(job, Run(job, events[..|events| - 1]), events[|events| - 1]);
    }
  }

  // ------------------------------------------------------------- removing batches

  predicate InBatch(job: Job, attempt: string, batches: seq<Row>) {
    exists i {:trigger batches[i]} :: 0 <= i < |batches| && batches[i].key == job.batchOf(attempt)
  }

  /** The logs of all attempts outside these batches. */
  function LogsBeyond(job: Job, logs: LogStore, batches: seq<Row>): LogStore {
    map key | key in logs && !InBatch(job, key.attempt, batches) :: logs[key]
  }

  lemma BeyondNone(job: Job, logs: LogStore)
    ensures LogsBeyond(job, logs, []) == logs
  {
  }

  lemma InBatchSplits(job: Job, attempt: string, a: seq<Row>, b: seq<Row>)
    ensures InBatch(job, attempt, a + b) <==> InBatch(job, attempt, a) || InBatch(job, attempt, b)
  {
    if i :| 0 <= i < |b| && b[i].key == job.batchOf(attempt) {
      assert (a + b)[|a| + i] == b[i];
    }
    if i :| 0 <= i < |a| && a[i].key == job.batchOf(attempt) {
      assert (a + b)[i] == a[i];
    }
  }

  lemma BeyondJoins(job: Job, logs: LogStore, a: seq<Row>, b: seq<Row>)
    ensures LogsBeyond(job, LogsBeyond(job, logs, a), b) == LogsBeyond(job, logs, a + b)
  {
    hide InBatch;
    forall key | key in logs
      ensures InBatch(job, key.attempt, a + b) <==> InBatch(job, key.attempt, a) || InBatch(job, key.attempt, b)
    {
      InBatchSplits(job, key.attempt, a, b);
    }
  }

  lemma BeyondOne(job: Job, logs: LogStore, batch: Row)
    ensures WithoutBatch(job, logs, batch.key) == LogsBeyond(job, logs, [batch])
  {
    assert [batch][0] == batch;
  }

  /** Every attempt of the snapshot was run in a batch of the snapshot. */
  predicate Enclosed(job: Job, snapshot: Snapshot)
    requires WellFormed(job, snapshot)
  {
    forall a {:trigger snapshot.collections[job.attempts][a]} :: 0 <= a < |snapshot.collections[job.attempts]| ==>
      InBatch(job, snapshot.collections[job.attempts][a].key, snapshot.collections[job.batches])
  }

  /** Then removing the snapshot's batches leaves no log of any of its attempts. */
  lemma AttemptLogsGone(job: Job, logs: LogStore, snapshot: Snapshot)
    requires WellFormed(job, snapshot) && Enclosed(job, snapshot)
    ensures
      var left := LogsBeyond(job, logs, snapshot.collections[job.batches]);
      var attempts := snapshot.collections[job.attempts];
      forall key, a {:trigger key in left, attempts[a]} ::
        key in left && 0 <= a < |attempts| ==> key.attempt != attempts[a].key
  {
  }
}
