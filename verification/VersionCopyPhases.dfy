/** The phases of one copy as the loops the worker runs over the shared stores. Each loop resumes at
  * whatever cursor is persisted, ends in the next phase or with the error of one of its calls, and
  * cannot fail while nobody interferes. A lemma ending in `Does` says what a single call achieves
  * in that case. */
module VersionCopyPhases {
  import opened VersionCopyProtocol
  import opened VersionCopyInvariant
  import opened VersionCopySteps
  import opened VersionCopySafety
  import opened VersionCopyLogs
  import opened VersionCopyStores

  // ------------------------------------------------------------- files

  /** Step `e` of a worker standing at `pc` with progress `p` is the save of `p'`. */
  ghost predicate IsSave(job: Job, a: Action, t: nat, p: Progress, pc: Pc, p': Progress) {
    && !a.Throw?
    && forall s {:trigger WorkerStep(job, s, t, a)} :: At(s, t, p, pc) ==>
         WorkerStep(job, s, t, a) == Save(s, t, Worker(Running, p', Copying))
  }

  lemma SaveDoes(s: State, t: nat, w: Worker)
    requires t in s.workers
    ensures t in Save(s, t, w).workers
    ensures Threw(Save(s, t, w), t) || Save(s, t, w).workers[t] == w
    ensures s.db.lease == Lease(t, true) && s.db.status == w.status && !w.pc.Thrown? ==>
      Save(s, t, w).workers[t] == w && Save(s, t, w).db == s.db.(progress := w.progress)
  {
  }

  method SaveProgress(stores: Stores, t: nat, a: Action, ghost p: Progress, pc: Pc, p': Progress) returns (ok: bool)
    requires stores.Valid() && At(stores.state, t, p, pc) && !pc.Thrown? && IsSave(stores.job, a, t, p, pc, p')
    modifies stores
    ensures stores.Valid()
    ensures ok ==> At(stores.state, t, p', Copying)
    ensures !ok ==> Threw(stores.state, t)
    ensures old(stores.Alone(t)) ==> ok && stores.Alone(t)
  {
    hide WorkerStep, Step, Run, Inv, Save;
    ghost var before;
    ok, before := stores.Call(t, a);
    if ok || old(stores.agenda) == [] {
      SaveDoes(before, t, Worker(Running, p', Copying));
    }
  }

  // ------------------------------------------------------------- files

  lemma PutDoes(job: Job, s: State, t: nat, p: Progress)
    requires At(s, t, p, Copying) && p.phase.Files? && Counters(job, p) && p.cursor + 1 < p.totalObjects
    ensures At(WorkerStep(job, s, t, PutObject), t, p, Stored) && WorkerStep(job, s, t, PutObject).db == s.db
  {
  }

  lemma SaveObjectDoes(job: Job, t: nat, p: Progress)
    ensures IsSave(job, SaveObject, t, p, Stored, ObjectDone(p))
  {
  }

  lemma EndFilesDoes(job: Job, t: nat, p: Progress)
    requires p.phase.Files? && Counters(job, p) && p.cursor + 1 >= p.totalObjects
    ensures IsSave(job, EndFiles, t, p, Copying, p.(phase := Records, cursor := -1))
  {
  }

  ghost predicate FilesLeft(job: Job, p: Progress, total: nat) {
    p.phase.Files? && Counters(job, p) && p.totalObjects == total == |p.snapshot.value.objects| &&
      -1 <= p.cursor < total
  }

  lemma ObjectCounted(job: Job, p: Progress, total: nat)
    requires FilesLeft(job, p, total) && p.cursor + 1 < total
    ensures FilesLeft(job, ObjectDone(p), total)
  {
  }

  /** Uploads the object behind the cursor and then records it. */
  method CopyObject(stores: Stores, t: nat, start: Progress) returns (ok: bool, p: Progress)
    requires stores.Valid() && At(stores.state, t, start, Copying)
    requires start.phase.Files? && Counters(stores.job, start) && start.cursor + 1 < start.totalObjects
    modifies stores
    ensures stores.Valid()
    ensures ok ==> At(stores.state, t, p, Copying) && p == ObjectDone(start)
    ensures !ok ==> Threw(stores.state, t)
    ensures old(stores.Alone(t)) ==> ok && stores.Alone(t)
  {
    hide WorkerStep, Step, Run, Inv, Counters, Percent, IsSave;
    p := start;
    ghost var before;
    ok, before := stores.Call(t, PutObject);
    if ok || old(stores.agenda) == [] { PutDoes(stores.job, before, t, start); }
    if !ok { return; }
    p := p.(cursor := p.cursor + 1, copiedObjects := p.copiedObjects + 1,
            percent := Percent(10, 30, p.copiedObjects + 1, p.totalObjects));
    SaveObjectDoes(stores.job, t, start);
    ok := SaveProgress(stores, t, SaveObject, start, Stored, p);
  }

  /** Copies every object behind the cursor, eight to a page, and turns to the records. */
  method CopyObjects(stores: Stores, t: nat, start: Progress) returns (ok: bool, p: Progress)
    requires stores.Valid() && At(stores.state, t, start, Copying)
    requires start.phase.Files? && Counters(stores.job, start)
    modifies stores
    ensures stores.Valid()
    ensures ok ==>
      At(stores.state, t, p, Copying) && p.phase.Records? && Counters(stores.job, p) && p.snapshot == start.snapshot
    ensures !ok ==> Threw(stores.state, t)
    ensures old(stores.Alone(t)) ==> ok && stores.Alone(t)
  {
    p := start;
    var total := |p.snapshot.value.objects|;
    assert FilesLeft(stores.job, p, total);
    hide WorkerStep, Step, Run, Inv, Counters, ObjectDone;
    while p.cursor + 1 < total
      invariant stores.Valid() && At(stores.state, t, p, Copying)
      invariant FilesLeft(stores.job, p, total) && p.snapshot == start.snapshot
      invariant old(stores.Alone(t)) ==> stores.Alone(t)
      decreases total - p.cursor
    {
      var last := p.cursor + Smaller(8, total - (p.cursor + 1));
      ok, p := CopyFilePage(stores, t, p, last, total);
      if !ok { return; }
    }
    FilesCounted(stores.job, p);
    EndFilesDoes(stores.job, t, p);
    ok := SaveProgress(stores, t, EndFiles, p, Copying, p.(phase := Records, cursor := -1));
    p := p.(phase := Records, cursor := -1);
  }

  method CopyFilePage(stores: Stores, t: nat, start: Progress, last: int, total: nat) returns (ok: bool, p: Progress)
    requires stores.Valid() && At(stores.state, t, start, Copying)
    requires FilesLeft(stores.job, start, total) && start.cursor < last < total
    modifies stores
    ensures stores.Valid()
    ensures ok ==>
      At(stores.state, t, p, Copying) && FilesLeft(stores.job, p, total) && p.snapshot == start.snapshot &&
        p.cursor == last
    ensures !ok ==> Threw(stores.state, t)
    ensures old(stores.Alone(t)) ==> ok && stores.Alone(t)
  {
    hide WorkerStep, Step, Run, Inv, Counters;
    ok, p := true, start;
    while p.cursor < last
      invariant stores.Valid() && At(stores.state, t, p, Copying)
      invariant FilesLeft(stores.job, p, total) && p.snapshot == start.snapshot && p.cursor <= last
      invariant ok && (old(stores.Alone(t)) ==> stores.Alone(t))
    {
      ObjectCounted(stores.job, p, total);
      ok, p := CopyObject(stores, t, p);
      if !ok { return; }
    }
  }

  lemma FilesCounted(job: Job, p: Progress)
    requires Counters(job, p) && p.phase.Files? && p.cursor + 1 >= p.totalObjects
    ensures Counters(job, p.(phase := Records, cursor := -1))
  {
    PercentGrows(10, 30, p.copiedObjects, p.copiedObjects, p.totalObjects);
    PercentGrows(40, 30, 0, 0, p.totalRows);
    assert p.snapshot.value.collections[..0] == [];
  }

  // ------------------------------------------------------------- records

  /** The table at hand has `total` rows. */
  ghost predicate TableLeft(job: Job, p: Progress, total: nat) {
    && p.phase.Records? && Counters(job, p) && p.collectionIndex < job.tables
    && p.snapshot.Some? && p.collectionIndex < |p.snapshot.value.collections|
    && total == |p.snapshot.value.collections[p.collectionIndex]| && -1 <= p.cursor < total
  }

  lemma InsertDoes(job: Job, s: State, t: nat, p: Progress, n: nat, total: nat)
    requires Inv(job, s) && At(s, t, p, Copying) && TableLeft(job, p, total)
    requires 1 <= n <= 32 && p.cursor + 1 + n <= total
    ensures var s' := WorkerStep(job, s, t, InsertPage(n));
      && (!Threw(s', t) ==> At(s', t, PageDone(p, n), Copying))
      && (s.db.lease == Lease(t, true) && s.db.status.Running? ==>
           !Threw(s', t) && s'.db.lease == s.db.lease && s'.db.status == s.db.status)
  {
  }

  lemma PageCounted(job: Job, p: Progress, n: nat, total: nat)
    requires TableLeft(job, p, total) && p.cursor + 1 + n <= total
    ensures TableLeft(job, PageDone(p, n), total)
    ensures PageDone(p, n).snapshot == p.snapshot && PageDone(p, n).collectionIndex == p.collectionIndex
    ensures PageDone(p, n).cursor == p.cursor + n
  {
    InsertCounters(job, p, n);
  }

  lemma EndCollectionDoes(job: Job, t: nat, p: Progress, total: nat)
    requires TableLeft(job, p, total) && p.cursor + 1 >= total
    ensures IsSave(job, EndCollection, t, p, Copying, CollectionDone(p))
    ensures Counters(job, CollectionDone(p))
  {
    RowTotalSnoc(p.snapshot.value.collections, p.collectionIndex);
  }

  lemma EndRecordsDoes(job: Job, t: nat, p: Progress)
    requires p.phase.Records? && Counters(job, p) && p.collectionIndex >= job.tables
    ensures IsSave(job, EndRecords, t, p, Copying, p.(phase := Logs, cursor := -1))
    ensures Counters(job, p.(phase := Logs, cursor := -1))
  {
    assert p.snapshot.value.collections[..p.collectionIndex] == p.snapshot.value.collections;
    PercentGrows(40, 30, p.copiedRows, p.copiedRows, p.totalRows);
    PercentGrows(70, 28, 0, 0, p.totalAttempts);
  }

  method InsertRowsOf(stores: Stores, t: nat, start: Progress, n: nat, ghost total: nat) returns (ok: bool, p: Progress)
    requires stores.Valid() && At(stores.state, t, start, Copying) && TableLeft(stores.job, start, total)
    requires 1 <= n <= 32 && start.cursor + 1 + n <= total
    modifies stores
    ensures stores.Valid()
    ensures ok ==> At(stores.state, t, p, Copying) && p == PageDone(start, n)
    ensures !ok ==> Threw(stores.state, t)
    ensures old(stores.Alone(t)) ==> ok && stores.Alone(t)
  {
    hide WorkerStep, Step, Run, Inv, TableLeft;
    p := start.(cursor := start.cursor + n, copiedRows := start.copiedRows + n,
                percent := Percent(40, 30, start.copiedRows + n, start.totalRows));
    ghost var before;
    ok, before := stores.Call(t, InsertPage(n));
    if ok || old(stores.agenda) == [] { InsertDoes(stores.job, before, t, start, n, total); }
  }

  /** Inserts the rows of the current table behind the cursor page by page; how many rows
    * fit into one page is up to the reader's byte limit. */
  method CopyTable(stores: Stores, t: nat, start: Progress, total: nat) returns (ok: bool, p: Progress)
    requires stores.Valid() && At(stores.state, t, start, Copying) && TableLeft(stores.job, start, total)
    modifies stores
    ensures stores.Valid()
    ensures ok ==>
      At(stores.state, t, p, Copying) && p.phase.Records? && Counters(stores.job, p) && p.snapshot == start.snapshot
    ensures ok ==> p.collectionIndex == start.collectionIndex + 1
    ensures !ok ==> Threw(stores.state, t)
    ensures old(stores.Alone(t)) ==> ok && stores.Alone(t)
  {
    hide WorkerStep, Step, Run, Inv, Counters, PageDone;
    p := start;
    while p.cursor + 1 < total
      invariant stores.Valid() && At(stores.state, t, p, Copying) && TableLeft(stores.job, p, total)
      invariant p.snapshot == start.snapshot && p.collectionIndex == start.collectionIndex
      invariant old(stores.Alone(t)) ==> stores.Alone(t)
      decreases total - p.cursor
    {
      var n := PageLength(total - (p.cursor + 1));
      PageCounted(stores.job, p, n, total);
      ok, p := InsertRowsOf(stores, t, p, n, total);
      if !ok { return; }
    }
    EndCollectionDoes(stores.job, t, p, total);
    ok := SaveProgress(stores, t, EndCollection, p, Copying, CollectionDone(p));
    p := p.(cursor := -1, collectionIndex := p.collectionIndex + 1);
  }

  lemma TableStarts(job: Job, p: Progress)
    requires p.phase.Records? && Counters(job, p) && p.collectionIndex < job.tables
    ensures p.snapshot.Some? && |p.snapshot.value.collections| == job.tables
    ensures TableLeft(job, p, |p.snapshot.value.collections[p.collectionIndex]|)
  {
  }

  method CopyRecords(stores: Stores, t: nat, start: Progress) returns (ok: bool, p: Progress)
    requires stores.Valid() && At(stores.state, t, start, Copying)
    requires start.phase.Records? && Counters(stores.job, start)
    modifies stores
    ensures stores.Valid()
    ensures ok ==>
      At(stores.state, t, p, Copying) && p.phase.Logs? && Counters(stores.job, p) && p.snapshot == start.snapshot
    ensures !ok ==> Threw(stores.state, t)
    ensures old(stores.Alone(t)) ==> ok && stores.Alone(t)
  {
    hide WorkerStep, Step, Run, Inv, Counters, TableLeft;
    p := start;
    while p.collectionIndex < stores.job.tables
      invariant stores.Valid() && At(stores.state, t, p, Copying)
      invariant p.phase.Records? && Counters(stores.job, p) && p.snapshot == start.snapshot
      invariant old(stores.Alone(t)) ==> stores.Alone(t)
      decreases stores.job.tables - p.collectionIndex
    {
      TableStarts(stores.job, p);
      ok, p := CopyTable(stores, t, p, |p.snapshot.value.collections[p.collectionIndex]|);
      if !ok { return; }
    }
    EndRecordsDoes(stores.job, t, p);
    ok := SaveProgress(stores, t, EndRecords, p, Copying, p.(phase := Logs, cursor := -1));
    p := p.(phase := Logs, cursor := -1);
  }

  // ------------------------------------------------------------- logs

  /** The source still has what it acknowledged: nothing is missing below the expected
    * sequence number of any stream. */
  ghost predicate WholeStream(job: Job, attempt: string, stream: nat) {
    && LastSequence(job.source(attempt, stream)) >= job.expected(attempt, stream)
    && forall q: nat {:trigger HasSequence(job, attempt, stream, q)} :: q <= job.expected(attempt, stream) ==>
         HasSequence(job, attempt, stream, q)
  }

  ghost predicate HasSequence(job: Job, attempt: string, stream: nat, q: nat) {
    exists i {:trigger job.source(attempt, stream)[i]} ::
      0 <= i < |job.source(attempt, stream)| && job.source(attempt, stream)[i].sequence == q
  }

  ghost predicate WholeLogs(job: Job) {
    && DistinctSequences(job)
    && forall attempt: string, stream: nat {:trigger WholeStream(job, attempt, stream)} :: stream < STREAMS ==>
         WholeStream(job, attempt, stream)
  }

  ghost predicate Streamed(job: Job, p: Progress) { p.phase.Logs? && Counters(job, p) && HasAttempt(job, p) }

  lemma OpenAttemptDoes(job: Job, s: State, t: nat, p: Progress)
    requires At(s, t, p, Copying) && Streamed(job, p)
    ensures At(WorkerStep(job, s, t, OpenAttempt), t, p, Streaming(0, 0)) &&
      WorkerStep(job, s, t, OpenAttempt).db == s.db
  {
  }

  lemma AppendDoes(job: Job, s: State, t: nat, p: Progress, stream: nat, taken: nat, n: nat)
    requires At(s, t, p, Streaming(stream, taken)) && Streamed(job, p) && stream < STREAMS && 1 <= n <= 32
    requires taken + n <= |job.source(AttemptKey(job, p), stream)|
    ensures var s' := WorkerStep(job, s, t, AppendChunks(n));
      && (!Threw(s', t) ==> At(s', t, p, Streaming(stream, taken + n))) && s'.db == s.db
      && (DistinctSequences(job) && Agrees(job, s.logs) ==> !Threw(s', t))
  {
    if DistinctSequences(job) && Agrees(job, s.logs) {
      AppendAccepted(job, s.logs, AttemptKey(job, p), stream, taken, n);
    }
  }

  lemma EndStreamDoes(job: Job, s: State, t: nat, p: Progress, stream: nat, taken: nat)
    requires Inv(job, s) && At(s, t, p, Streaming(stream, taken)) && Streamed(job, p) && stream < STREAMS
    requires taken == |job.source(AttemptKey(job, p), stream)|
    ensures var s' := WorkerStep(job, s, t, EndStream);
      && (!Threw(s', t) ==> At(s', t, p, Streaming(stream + 1, 0))) && s'.db == s.db
      && (s.db.lease == Lease(t, true) && s.db.status.Running? && WholeStream(job, AttemptKey(job, p), stream) ==>
           !Threw(s', t))
  {
    var attempt := AttemptKey(job, p);
    if s.db.lease == Lease(t, true) && s.db.status.Running? && WholeStream(job, attempt, stream) {
      assert WorkerOk(job, s, t);
      WholeAcknowledged(job, s.logs, attempt, stream);
    }
  }

  lemma WholeAcknowledged(job: Job, logs: LogStore, attempt: string, stream: nat)
    requires WholeStream(job, attempt, stream) && ChunksAt(job, logs, attempt, stream, |job.source(attempt, stream)|)
    ensures Acknowledged(logs, attempt, stream, job.expected(attempt, stream))
  {
    forall q: nat {:trigger LogKey(attempt, stream, q)} | 0 <= q <= job.expected(attempt, stream)
      ensures LogKey(attempt, stream, q) in logs
    {
      assert HasSequence(job, attempt, stream, q);
      var i :| 0 <= i < |job.source(attempt, stream)| && job.source(attempt, stream)[i].sequence == q;
      assert ChunkAt(logs, attempt, stream, job.source(attempt, stream)[i]);
    }
  }

  lemma SaveAttemptDoes(job: Job, t: nat, p: Progress)
    requires Streamed(job, p)
    ensures IsSave(job, SaveAttempt, t, p, Streaming(STREAMS, 0), AttemptDone(p))
    ensures Counters(job, AttemptDone(p))
  {
  }

  lemma EndLogsDoes(job: Job, t: nat, p: Progress)
    requires p.phase.Logs? && Counters(job, p) && !HasAttempt(job, p)
    ensures IsSave(job, EndLogs, t, p, Copying, p.(phase := Verify, percent := 99))
    ensures Counters(job, p.(phase := Verify, percent := 99))
  {
  }

  method AppendChunksOf(stores: Stores, t: nat, p: Progress, stream: nat, taken: nat, n: nat) returns (ok: bool)
    requires stores.Valid() && At(stores.state, t, p, Streaming(stream, taken)) && Streamed(stores.job, p)
    requires stream < STREAMS
    requires 1 <= n <= 32 && taken + n <= |stores.job.source(AttemptKey(stores.job, p), stream)|
    modifies stores
    ensures stores.Valid()
    ensures ok ==> At(stores.state, t, p, Streaming(stream, taken + n))
    ensures !ok ==> Threw(stores.state, t)
    ensures old(stores.Alone(t)) && WholeLogs(stores.job) ==> ok && stores.Alone(t)
  {
    hide WorkerStep, Step, Run, Inv, Counters, Streamed, WholeStream;
    AgreesNow(stores.job, stores.trace);
    ghost var before;
    ok, before := stores.Call(t, AppendChunks(n));
    if ok || old(stores.agenda) == [] { AppendDoes(stores.job, before, t, p, stream, taken, n); }
  }

  lemma AgreesNow(job: Job, trace: seq<Event>)
    ensures DistinctSequences(job) ==> Agrees(job, Run(job, trace).logs)
  {
    if DistinctSequences(job) { RunAgrees(job, trace); }
  }

  /** Copies one stream of the attempt page by page and checks that nothing acknowledged is missing. */
  method CopyStream(stores: Stores, t: nat, p: Progress, stream: nat) returns (ok: bool)
    requires stores.Valid() && At(stores.state, t, p, Streaming(stream, 0)) && Streamed(stores.job, p)
    requires stream < STREAMS
    modifies stores
    ensures stores.Valid()
    ensures ok ==> At(stores.state, t, p, Streaming(stream + 1, 0))
    ensures !ok ==> Threw(stores.state, t)
    ensures old(stores.Alone(t)) && WholeLogs(stores.job) ==> ok && stores.Alone(t)
  {
    hide WorkerStep, Step, Run, Inv, Counters;
    var total := |stores.job.source(AttemptKey(stores.job, p), stream)|;
    var taken := 0;
    while taken < total
      invariant taken <= total && stores.Valid() && At(stores.state, t, p, Streaming(stream, taken))
      invariant old(stores.Alone(t)) && WholeLogs(stores.job) ==> stores.Alone(t)
    {
      var n := PageLength(total - taken);
      ok := AppendChunksOf(stores, t, p, stream, taken, n);
      if !ok { return; }
      taken := taken + n;
    }
    ok := CloseStreamOf(stores, t, p, stream, taken);
  }

  method CloseStreamOf(stores: Stores, t: nat, p: Progress, stream: nat, taken: nat) returns (ok: bool)
    requires stores.Valid() && At(stores.state, t, p, Streaming(stream, taken)) && Streamed(stores.job, p)
    requires stream < STREAMS
    requires taken == |stores.job.source(AttemptKey(stores.job, p), stream)|
    modifies stores
    ensures stores.Valid()
    ensures ok ==> At(stores.state, t, p, Streaming(stream + 1, 0))
    ensures !ok ==> Threw(stores.state, t)
    ensures old(stores.Alone(t)) && WholeLogs(stores.job) ==> ok && stores.Alone(t)
  {
    assert HasAttempt(stores.job, p);
    hide WorkerStep, Step, Run, Inv, Counters, Streamed, DistinctSequences;
    assert WholeLogs(stores.job) ==> WholeStream(stores.job, AttemptKey(stores.job, p), stream);
    ghost var before;
    ok, before := stores.Call(t, EndStream);
    if ok || old(stores.agenda) == [] { EndStreamDoes(stores.job, before, t, p, stream, taken); }
  }

  method CopyStreams(stores: Stores, t: nat, p: Progress) returns (ok: bool)
    requires stores.Valid() && At(stores.state, t, p, Streaming(0, 0)) && Streamed(stores.job, p)
    modifies stores
    ensures stores.Valid()
    ensures ok ==> At(stores.state, t, p, Streaming(STREAMS, 0))
    ensures !ok ==> Threw(stores.state, t)
    ensures old(stores.Alone(t)) && WholeLogs(stores.job) ==> ok && stores.Alone(t)
  {
    hide WorkerStep, Step, Run, Inv, Streamed, WholeLogs;
    var stream := 0;
    while stream < STREAMS
      invariant stream <= STREAMS && stores.Valid() && At(stores.state, t, p, Streaming(stream, 0))
      invariant old(stores.Alone(t)) && WholeLogs(stores.job) ==> stores.Alone(t)
    {
      ok := CopyStream(stores, t, p, stream);
      if !ok { return; }
      stream := stream + 1;
    }
    ok := true;
  }

  /** Persists that the attempt is copied, after all its streams. */
  method FinishAttempt(stores: Stores, t: nat, p: Progress) returns (ok: bool, next: Progress)
    requires stores.Valid() && At(stores.state, t, p, Streaming(STREAMS, 0)) && Streamed(stores.job, p)
    modifies stores
    ensures stores.Valid()
    ensures ok ==> At(stores.state, t, next, Copying)
    ensures next == AttemptDone(p) && Counters(stores.job, next)
    ensures !ok ==> Threw(stores.state, t)
    ensures old(stores.Alone(t)) ==> ok && stores.Alone(t)
  {
    hide WorkerStep, Step, Run, Inv, Counters, Streamed, Percent, IsSave;
    SaveAttemptDoes(stores.job, t, p);
    next := p.(cursor := p.cursor + 1, copiedAttempts := p.copiedAttempts + 1,
               percent := Percent(70, 28, p.copiedAttempts + 1, p.totalAttempts));
    ok := SaveProgress(stores, t, SaveAttempt, p, Streaming(STREAMS, 0), next);
  }

  method CopyAttempt(stores: Stores, t: nat, start: Progress) returns (ok: bool, p: Progress)
    requires stores.Valid() && At(stores.state, t, start, Copying) && Streamed(stores.job, start)
    modifies stores
    ensures stores.Valid()
    ensures ok ==>
      At(stores.state, t, p, Copying) && p.phase.Logs? && Counters(stores.job, p) && p.snapshot == start.snapshot
    ensures ok ==> p.cursor == start.cursor + 1
    ensures !ok ==> Threw(stores.state, t)
    ensures old(stores.Alone(t)) && WholeLogs(stores.job) ==> ok && stores.Alone(t)
  {
    assert start.phase.Logs?;
    hide WorkerStep, Step, Run, Inv, Counters, Streamed, WholeLogs, Percent, IsSave;
    p := start;
    ghost var before;
    ok, before := stores.Call(t, OpenAttempt);
    if ok || old(stores.agenda) == [] { OpenAttemptDoes(stores.job, before, t, p); }
    if !ok { return; }
    ok := CopyStreams(stores, t, p);
    if !ok { return; }
    ok, p := FinishAttempt(stores, t, p);
  }

  method CopyLogs(stores: Stores, t: nat, start: Progress) returns (ok: bool, p: Progress)
    requires stores.Valid() && At(stores.state, t, start, Copying)
    requires start.phase.Logs? && Counters(stores.job, start)
    modifies stores
    ensures stores.Valid()
    ensures ok ==>
      At(stores.state, t, p, Copying) && p.phase.Verify? && Counters(stores.job, p) && p.snapshot == start.snapshot
    ensures !ok ==> Threw(stores.state, t)
    ensures old(stores.Alone(t)) && WholeLogs(stores.job) ==> ok && stores.Alone(t)
  {
    p := start;
    var total := |p.snapshot.value.collections[stores.job.attempts]|;
    assert p.snapshot.Some? && WellFormed(stores.job, p.snapshot.value) && 0 <= p.cursor + 1;
    hide WorkerStep, Step, Run, Inv, Counters, WholeLogs;
    while p.cursor + 1 < total
      invariant stores.Valid() && At(stores.state, t, p, Copying)
      invariant p.phase.Logs? && Counters(stores.job, p) && p.snapshot == start.snapshot && 0 <= p.cursor + 1
      invariant old(stores.Alone(t)) && WholeLogs(stores.job) ==> stores.Alone(t)
      decreases total - p.cursor
    {
      ok, p := CopyAttempt(stores, t, p);
      if !ok { return; }
    }
    EndLogsDoes(stores.job, t, p);
    ok := SaveProgress(stores, t, EndLogs, p, Copying, p.(phase := Verify, percent := 99));
    p := p.(phase := Verify, percent := 99);
  }

  // ------------------------------------------------------------- publication

  lemma ChecksDo(job: Job, s: State, t: nat, p: Progress, total: nat, at: nat)
    requires p.phase.Verify? && Counters(job, p) && p.snapshot.Some? && total == |p.snapshot.value.objects|
    ensures At(s, t, p, Copying) ==>
      At(WorkerStep(job, s, t, StartChecks), t, p, Checking(0)) && WorkerStep(job, s, t, StartChecks).db == s.db
    ensures At(s, t, p, Checking(at)) && at < total ==>
      var s' := WorkerStep(job, s, t, CheckObject); s'.db == s.db && (!Threw(s', t) ==> At(s', t, p, Checking(at + 1)))
    ensures At(s, t, p, Checking(at)) && at >= total ==>
      At(WorkerStep(job, s, t, StartCounts), t, p, Counting(0)) && WorkerStep(job, s, t, StartCounts).db == s.db
  {
  }

  lemma CountsDo(job: Job, s: State, t: nat, p: Progress, at: nat)
    requires p.phase.Verify? && Counters(job, p) && p.snapshot.Some?
    ensures At(s, t, p, Counting(at)) && at < job.tables ==>
      var s' := WorkerStep(job, s, t, CountTable); s'.db == s.db && (!Threw(s', t) ==> At(s', t, p, Counting(at + 1)))
    ensures At(s, t, p, Counting(at)) && at >= job.tables ==>
      var s' := WorkerStep(job, s, t, Finish); !Threw(s', t) ==> s'.db.status.Completed?
    ensures At(s, t, p, Counting(at)) && at >= job.tables && Owned(s.db, t, false) ==>
      !Threw(WorkerStep(job, s, t, Finish), t)
  {
  }

  lemma ChecksSucceed(job: Job, s: State, trace: seq<Event>, t: nat, p: Progress)
    requires job.attempts < job.tables && s == Run(job, trace) && Owned(s.db, t, false) && t in s.workers
    requires p.snapshot.Some?
    requires |p.snapshot.value.collections| == job.tables
    ensures forall at: nat {:trigger Checking(at)} :: At(s, t, p, Checking(at)) && at < |p.snapshot.value.objects| ==>
      !Threw(WorkerStep(job, s, t, CheckObject), t)
    ensures forall at: nat {:trigger Counting(at)} :: At(s, t, p, Counting(at)) && at < job.tables ==>
      !Threw(WorkerStep(job, s, t, CountTable), t)
  {
    if s.workers[t].pc.Checking? || s.workers[t].pc.Counting? { ChecksPass(job, trace, t); }
  }

  method CheckOneObject(stores: Stores, t: nat, p: Progress, at: nat) returns (ok: bool)
    requires stores.Valid() && At(stores.state, t, p, Checking(at)) && p.phase.Verify? && Counters(stores.job, p)
    requires p.snapshot.Some? && at < |p.snapshot.value.objects| && |p.snapshot.value.collections| == stores.job.tables
    modifies stores
    ensures stores.Valid()
    ensures ok ==> At(stores.state, t, p, Checking(at + 1))
    ensures !ok ==> Threw(stores.state, t)
    ensures old(stores.Alone(t)) ==> ok && stores.Alone(t)
  {
    hide WorkerStep, Step, Run, Inv, Counters;
    ghost var before;
    if stores.Alone(t) { ChecksSucceed(stores.job, stores.state, stores.trace, t, p); }
    ok, before := stores.Call(t, CheckObject);
    if ok || old(stores.agenda) == [] { ChecksDo(stores.job, before, t, p, |p.snapshot.value.objects|, at); }
  }

  /** A step between the parts of the last checks, which always succeeds under the lease. */
  method TurnTo(stores: Stores, t: nat, p: Progress, pc: Pc, a: Action, next: Pc) returns (ok: bool)
    requires stores.Valid() && At(stores.state, t, p, pc) && !pc.Thrown? && !next.Thrown?
    requires IsMove(stores.job, a, t, p, pc, next)
    modifies stores
    ensures stores.Valid()
    ensures ok ==> At(stores.state, t, p, next)
    ensures !ok ==> Threw(stores.state, t)
    ensures old(stores.Alone(t)) ==> ok && stores.Alone(t)
  {
    hide WorkerStep, Step, Run, Inv;
    ghost var before;
    ok, before := stores.Call(t, a);
    if ok || old(stores.agenda) == [] { assert At(before, t, p, pc); }
  }

  ghost predicate IsMove(job: Job, a: Action, t: nat, p: Progress, pc: Pc, next: Pc) {
    && !a.Throw?
    && forall s {:trigger WorkerStep(job, s, t, a)} :: At(s, t, p, pc) ==>
      At(WorkerStep(job, s, t, a), t, p, next) && WorkerStep(job, s, t, a).db == s.db
  }

  lemma ChecksBegin(job: Job, t: nat, p: Progress)
    requires p.phase.Verify? && p.snapshot.Some?
    ensures IsMove(job, StartChecks, t, p, Copying, Checking(0))
  {
  }

  lemma CountsBegin(job: Job, t: nat, p: Progress)
    requires p.phase.Verify? && p.snapshot.Some?
    ensures IsMove(job, StartCounts, t, p, Checking(|p.snapshot.value.objects|), Counting(0))
  {
  }

  method CheckObjects(stores: Stores, t: nat, p: Progress) returns (ok: bool)
    requires stores.Valid() && At(stores.state, t, p, Copying) && p.phase.Verify? && Counters(stores.job, p)
    modifies stores
    ensures stores.Valid()
    ensures ok ==> At(stores.state, t, p, Counting(0))
    ensures !ok ==> Threw(stores.state, t)
    ensures old(stores.Alone(t)) ==> ok && stores.Alone(t)
  {
    var total := |p.snapshot.value.objects|;
    assert |p.snapshot.value.collections| == stores.job.tables;
    hide WorkerStep, Step, Run, Inv, Counters, IsMove;
    ChecksBegin(stores.job, t, p);
    CountsBegin(stores.job, t, p);
    ok := TurnTo(stores, t, p, Copying, StartChecks, Checking(0));
    if !ok { return; }
    var at := 0;
    while at < total
      invariant at <= total && stores.Valid() && At(stores.state, t, p, Checking(at))
      invariant old(stores.Alone(t)) ==> stores.Alone(t)
    {
      ok := CheckOneObject(stores, t, p, at);
      if !ok { return; }
      at := at + 1;
    }
    ok := TurnTo(stores, t, p, Checking(total), StartCounts, Counting(0));
  }

  method CountOneTable(stores: Stores, t: nat, p: Progress, at: nat) returns (ok: bool)
    requires stores.Valid() && At(stores.state, t, p, Counting(at)) && p.phase.Verify? && Counters(stores.job, p)
    requires p.snapshot.Some? && at < stores.job.tables == |p.snapshot.value.collections|
    modifies stores
    ensures stores.Valid()
    ensures ok ==> At(stores.state, t, p, Counting(at + 1))
    ensures !ok ==> Threw(stores.state, t)
    ensures old(stores.Alone(t)) ==> ok && stores.Alone(t)
  {
    hide WorkerStep, Step, Run, Inv, Counters;
    ghost var before;
    if stores.Alone(t) { ChecksSucceed(stores.job, stores.state, stores.trace, t, p); }
    ok, before := stores.Call(t, CountTable);
    if ok || old(stores.agenda) == [] { CountsDo(stores.job, before, t, p, at); }
  }

  /** Compares every table's row count with the manifest and then publishes. */
  method PublishCopy(stores: Stores, t: nat, p: Progress) returns (ok: bool)
    requires stores.Valid() && At(stores.state, t, p, Counting(0)) && p.phase.Verify? && Counters(stores.job, p)
    modifies stores
    ensures stores.Valid()
    ensures ok ==> stores.state.db.status.Completed?
    ensures !ok ==> Threw(stores.state, t)
    ensures old(stores.Alone(t)) ==> ok
  {
    assert p.snapshot.Some? && |p.snapshot.value.collections| == stores.job.tables;
    hide WorkerStep, Step, Run, Inv, Counters;
    var at := 0;
    while at < stores.job.tables
      invariant at <= stores.job.tables && stores.Valid() && At(stores.state, t, p, Counting(at))
      invariant old(stores.Alone(t)) ==> stores.Alone(t)
    {
      ok := CountOneTable(stores, t, p, at);
      if !ok { return; }
      at := at + 1;
    }
    ghost var quiet := stores.agenda == [];
    ghost var before;
    ok, before := stores.Call(t, Finish);
    if ok || quiet { CountsDo(stores.job, before, t, p, at); }
  }
}
