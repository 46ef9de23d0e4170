/** Each step of a copying or cleaning worker keeps the invariant. The steps are taken one by one:
  * opening and capturing, the file, record and log phases, the checks before publication, and the
  * clean-up. A lemma ending in `Keeps` says that a step keeps the invariant, one ending in
  * `Persisted` why what it writes is backed by the stores. */
module VersionCopySteps {
  import opened Options
  import opened VersionCopyProtocol
  import opened VersionCopyInvariant

  // ------------------------------------------------------------- row counts and copied rows

  lemma {:induction false} CopiedConcat(job: Job, c: nat, a: seq<Row>, b: seq<Row>)
    ensures Copied(job, c, a + b) == Copied(job, c, a) + Copied(job, c, b)
  {
    if b == [] {
      ConcatNone(a);
    } else {
      CopiedConcat(job, c, a, b[..|b| - 1]);
      FrontOfConcat(a, b);
    }
  }

  lemma {:induction false} CopiedLength(job: Job, c: nat, rs: seq<Row>)
    ensures |Copied(job, c, rs)| == |rs|
  {
    if rs != [] { CopiedLength(job, c, rs[..|rs| - 1]); }
  }

  lemma RowTotalSnoc(tables: seq<seq<Row>>, i: nat)
    requires i < |tables|
    ensures RowTotal(tables[..i + 1]) == RowTotal(tables[..i]) + |tables[i]|
  {
    assert tables[..i + 1][..i] == tables[..i];
  }

  lemma {:induction false} RowTotalPrefix(tables: seq<seq<Row>>, i: nat)
    requires i <= |tables|
    ensures RowTotal(tables[..i]) <= RowTotal(tables)
    decreases |tables| - i
  {
    if i < |tables| {
      RowTotalSnoc(tables, i);
      RowTotalPrefix(tables, i + 1);
    } else {
      assert tables[..i] == tables;
    }
  }

  // ------------------------------------------------------------- entering the copy

  lemma BlankFilling(job: Job, p: Progress, rows: seq<seq<Row>>)
    requires Totals(job, p) && p.collectionIndex == 0 && (p.phase.Files? || (p.phase.Records? && p.cursor == -1))
    requires |rows| == job.tables && EmptyFrom(rows, 0)
    ensures Filling(job, p, rows)
  {
    forall c: nat {:trigger RowsAt(job, rows, p, c)} | c < job.tables
      ensures RowsAt(job, rows, p, c)
    {
      assert EmptyAt(rows, c);
    }
  }

  lemma FilesBlank(job: Job, p: Progress, rows: seq<seq<Row>>)
    requires Filling(job, p, rows) && p.phase.Files? && p.collectionIndex == 0
    ensures EmptyFrom(rows, 0)
  {
    forall c: nat {:trigger EmptyAt(rows, c)} | 0 <= c
      ensures EmptyAt(rows, c)
    {
      if c < |rows| { assert RowsAt(job, rows, p, c); }
    }
  }

  lemma OpenKeeps(job: Job, s: State, t: nat)
    requires Inv(job, s) && t in s.workers
    ensures Inv(job, OpenJob(job, s, t))
  {
    var w := s.workers[t];
    assert WorkerOk(job, s, t);
    if w.pc.Opening? && ToClean(w) {
      OpenCleaner(job, s, t);
      MoveKeeps(job, s, t, Cleaning(job.tables, 0));
    } else if w.pc.Opening? && w.progress.snapshot.Some? {
      MoveKeeps(job, s, t, Copying);
    }
  }

  lemma OpenCleaner(job: Job, s: State, t: nat)
    requires Inv(job, s) && t in s.workers && s.workers[t].pc.Opening? && ToClean(s.workers[t])
    ensures WorkerOk(job, Moved(s, t, Cleaning(job.tables, 0)), t)
  {
    assert WorkerOk(job, s, t);
  }

  lemma CaptureKeeps(job: Job, s: State, t: nat, snapshot: Snapshot)
    requires Inv(job, s) && t in s.workers
    ensures Inv(job, CaptureSource(job, s, t, snapshot))
  {
    var w := s.workers[t];
    assert WorkerOk(job, s, t);
    if w.pc.Opening? && !ToClean(w) && w.progress.snapshot.None? && WellFormed(job, snapshot) {
      var p := Captured(job, w.progress, snapshot);
      if Holds(s.db, t) && s.db.status.Running? {
        CapturedPersisted(job, s, p, snapshot);
      }
      SaveKeeps(job, s, t, p);
    }
  }

  lemma CapturedPersisted(job: Job, s: State, p: Progress, snapshot: Snapshot)
    requires Persisted(job, s) && s.db.progress.phase.Capturing? && WellFormed(job, snapshot)
    requires p == Captured(job, s.db.progress, snapshot)
    ensures Backed(job, s, p)
  {
    BlankFilling(job, p, s.rows);
    PercentGrows(10, 30, 0, 0, p.totalObjects);
  }

  // ------------------------------------------------------------- files

  lemma PutKeeps(job: Job, s: State, t: nat)
    requires Inv(job, s) && t in s.workers
    ensures Inv(job, PutNext(job, s, t))
  {
    var s' := PutNext(job, s, t);
    assert WorkerOk(job, s, t);
    if s' != s {
      ShrunkSelf(s.rows);
      PutPersisted(job, s, s');
      Bystanders(job, s, s', t);
    }
  }

  lemma PutPersisted(job: Job, s: State, s': State)
    requires Persisted(job, s) && s.objects <= s'.objects && s'.workers.Keys == s.workers.Keys
    requires s' == s.(objects := s'.objects, workers := s'.workers)
    ensures Persisted(job, s')
  {
    if !s.db.progress.phase.Capturing? && !s.db.progress.phase.Cleanup? {
      GrownStocked(job, s.db.progress, s.objects, s'.objects);
    }
  }

  lemma SaveObjectKeeps(job: Job, s: State, t: nat)
    requires Inv(job, s) && t in s.workers
    ensures Inv(job, SaveStored(s, t))
  {
    var w := s.workers[t];
    assert WorkerOk(job, s, t);
    if w.pc.Stored? {
      if Holds(s.db, t) && s.db.status.Running? {
        OwnerBacked(job, s, t);
        StoredPersisted(job, s, w);
      }
      SaveKeeps(job, s, t, ObjectDone(w.progress));
    }
  }

  lemma StoredPersisted(job: Job, s: State, w: Worker)
    requires Backed(job, s, w.progress) && w.pc.Stored? && StoredAt(job, w, s.objects)
    ensures Backed(job, s, ObjectDone(w.progress))
  {
    var p, p' := w.progress, ObjectDone(w.progress);
    FilesBlank(job, p, s.rows);
    BlankFilling(job, p', s.rows);
    forall i: nat {:trigger ObjectAt(job, s.objects, p'.snapshot.value, i)} | i < p'.copiedObjects
      ensures ObjectAt(job, s.objects, p'.snapshot.value, i)
    {
      if i < p.copiedObjects { assert ObjectAt(job, s.objects, p.snapshot.value, i); }
    }
  }

  lemma EndFilesKeeps(job: Job, s: State, t: nat)
    requires Inv(job, s) && t in s.workers
    ensures Inv(job, FilesToRecords(s, t))
  {
    var w := s.workers[t];
    assert WorkerOk(job, s, t);
    if In(w, Files) && w.progress.cursor + 1 >= |w.progress.snapshot.value.objects| {
      if Holds(s.db, t) && s.db.status.Running? {
        OwnerBacked(job, s, t);
        FilesPersisted(job, s, w.progress);
      }
      SaveKeeps(job, s, t, w.progress.(phase := Records, cursor := -1));
    }
  }

  lemma FilesPersisted(job: Job, s: State, p: Progress)
    requires Backed(job, s, p) && p.phase.Files? && p.cursor + 1 >= p.totalObjects
    ensures Backed(job, s, p.(phase := Records, cursor := -1))
  {
    var p' := p.(phase := Records, cursor := -1);
    FilesBlank(job, p, s.rows);
    BlankFilling(job, p', s.rows);
    PercentGrows(10, 30, p.copiedObjects, p.copiedObjects, p.totalObjects);
    PercentGrows(40, 30, 0, 0, p.totalRows);
    assert p'.snapshot.value.collections[..0] == [];
    SameStocked(job, p, p', s.objects);
    SameLogged(job, p, p', s.logs);
  }

  lemma SameStocked(job: Job, p: Progress, p': Progress, objects: set<string>)
    requires Stocked(job, p, objects) && Totals(job, p')
    requires p'.snapshot == p.snapshot && p'.copiedObjects == p.copiedObjects
    ensures Stocked(job, p', objects)
  {
  }

  lemma SameLogged(job: Job, p: Progress, p': Progress, logs: LogStore)
    requires Logged(job, p, logs) && Totals(job, p')
    requires p'.snapshot == p.snapshot && p'.copiedAttempts == p.copiedAttempts
    ensures Logged(job, p', logs)
  {
  }

  // ------------------------------------------------------------- records

  lemma InsertKeeps(job: Job, s: State, t: nat, n: nat)
    requires Inv(job, s) && t in s.workers
    ensures Inv(job, InsertRows(job, s, t, n))
  {
    var w := s.workers[t];
    var s' := InsertRows(job, s, t, n);
    assert WorkerOk(job, s, t);
    if s' != s {
      if Owned(s.db, t, false) && s.db.status == w.status {
        OwnerBacked(job, s, t);
        InsertPersisted(job, s, s', w.progress, n);
        Bystanders(job, s, s', t);
      } else {
        RaiseKeeps(job, s, t);
      }
    }
  }

  lemma InsertPersisted(job: Job, s: State, s': State, p: Progress, n: nat)
    requires Backed(job, s, p) && p.phase.Records? && p.collectionIndex < job.tables
    requires p.cursor + 1 + n <= |p.snapshot.value.collections[p.collectionIndex]|
    requires p.collectionIndex < |s.rows|
    requires s'.rows == s.rows[p.collectionIndex := s.rows[p.collectionIndex]
        + Copied(job, p.collectionIndex,
                 p.snapshot.value.collections[p.collectionIndex][p.cursor + 1..p.cursor + 1 + n])]
    requires s'.objects == s.objects && s'.logs == s.logs
    ensures Backed(job, s', PageDone(p, n))
  {
    var p', c := PageDone(p, n), p.collectionIndex;
    InsertFilling(job, p, n, s.rows, s'.rows);
    InsertCounters(job, p, n);
    SameStocked(job, p, p', s.objects);
    SameLogged(job, p, p', s.logs);
  }

  lemma InsertCounters(job: Job, p: Progress, n: nat)
    requires Counters(job, p) && p.phase.Records? && p.collectionIndex < job.tables
    requires p.cursor + 1 + n <= |p.snapshot.value.collections[p.collectionIndex]|
    ensures Counters(job, PageDone(p, n))
  {
    RowTotalSnoc(p.snapshot.value.collections, p.collectionIndex);
    RowTotalPrefix(p.snapshot.value.collections, p.collectionIndex + 1);
  }

  lemma InsertFilling(job: Job, p: Progress, n: nat, rows: seq<seq<Row>>, rows': seq<seq<Row>>)
    requires Filling(job, p, rows) && p.phase.Records? && p.collectionIndex < job.tables && 0 <= p.cursor + 1
    requires p.cursor + 1 + n <= |p.snapshot.value.collections[p.collectionIndex]|
    requires rows' == rows[p.collectionIndex := rows[p.collectionIndex]
        + Copied(job, p.collectionIndex,
                 p.snapshot.value.collections[p.collectionIndex][p.cursor + 1..p.cursor + 1 + n])]
    ensures Filling(job, PageDone(p, n), rows')
  {
    var p', c := PageDone(p, n), p.collectionIndex;
    var source, k := p.snapshot.value.collections[c], p.cursor + 1;
    forall d: nat {:trigger RowsAt(job, rows', p', d)} | d < job.tables
      ensures RowsAt(job, rows', p', d)
    {
      assert RowsAt(job, rows, p, d);
      if d == c {
        CopiedConcat(job, c, source[..k], source[k..k + n]);
        assert source[..k] + source[k..k + n] == source[..k + n];
      }
    }
  }

  lemma EndCollectionKeeps(job: Job, s: State, t: nat)
    requires Inv(job, s) && t in s.workers
    ensures Inv(job, NextCollection(s, t))
  {
    var w := s.workers[t];
    assert WorkerOk(job, s, t);
    if In(w, Records) {
      var p, tables := w.progress, w.progress.snapshot.value.collections;
      if p.collectionIndex < |tables| && p.cursor + 1 >= |tables[p.collectionIndex]| {
        if Holds(s.db, t) && s.db.status.Running? {
          OwnerBacked(job, s, t);
          CollectionPersisted(job, s, p);
        }
        SaveKeeps(job, s, t, CollectionDone(p));
      }
    }
  }

  lemma CollectionPersisted(job: Job, s: State, p: Progress)
    requires Backed(job, s, p) && p.phase.Records? && p.collectionIndex < job.tables
    requires p.cursor + 1 >= |p.snapshot.value.collections[p.collectionIndex]|
    ensures Backed(job, s, CollectionDone(p))
  {
    var p' := CollectionDone(p);
    RowTotalSnoc(p.snapshot.value.collections, p.collectionIndex);
    forall d: nat {:trigger RowsAt(job, s.rows, p', d)} | d < job.tables
      ensures RowsAt(job, s.rows, p', d)
    {
      assert RowsAt(job, s.rows, p, d);
    }
    SameStocked(job, p, p', s.objects);
    SameLogged(job, p, p', s.logs);
  }

  lemma EndRecordsKeeps(job: Job, s: State, t: nat)
    requires Inv(job, s) && t in s.workers
    ensures Inv(job, RecordsToLogs(s, t))
  {
    var w := s.workers[t];
    assert WorkerOk(job, s, t);
    if In(w, Records) && w.progress.collectionIndex >= |w.progress.snapshot.value.collections| {
      if Holds(s.db, t) && s.db.status.Running? {
        OwnerBacked(job, s, t);
        RecordsPersisted(job, s, w.progress);
      }
      SaveKeeps(job, s, t, w.progress.(phase := Logs, cursor := -1));
    }
  }

  lemma RecordsPersisted(job: Job, s: State, p: Progress)
    requires Backed(job, s, p) && p.phase.Records? && p.collectionIndex >= job.tables
    ensures Backed(job, s, p.(phase := Logs, cursor := -1))
  {
    var p' := p.(phase := Logs, cursor := -1);
    FullFilling(job, p, p', s.rows);
    assert p.snapshot.value.collections[..p.collectionIndex] == p.snapshot.value.collections;
    PercentGrows(40, 30, p.copiedRows, p.copiedRows, p.totalRows);
    PercentGrows(70, 28, 0, 0, p.totalAttempts);
    SameStocked(job, p, p', s.objects);
    SameLogged(job, p, p', s.logs);
  }

  /** Once every table is done the rows no longer depend on the phase. */
  lemma FullFilling(job: Job, p: Progress, p': Progress, rows: seq<seq<Row>>)
    requires Filling(job, p, rows) && Totals(job, p') && p'.snapshot == p.snapshot
    requires p.collectionIndex >= job.tables && p'.collectionIndex >= job.tables
    requires p'.phase.Records? ==> -1 <= p'.cursor
    ensures Filling(job, p', rows)
  {
    forall d: nat {:trigger RowsAt(job, rows, p', d)} | d < job.tables
      ensures RowsAt(job, rows, p', d)
    {
      assert RowsAt(job, rows, p, d);
    }
  }

  // ------------------------------------------------------------- logs

  lemma OpenAttemptKeeps(job: Job, s: State, t: nat)
    requires Inv(job, s) && t in s.workers
    ensures Inv(job, StartAttempt(job, s, t))
  {
    var w := s.workers[t];
    assert WorkerOk(job, s, t);
    if In(w, Logs) && HasAttempt(job, w.progress) {
      MoveKeeps(job, s, t, Streaming(0, 0));
    }
  }

  /** An append that is not refused keeps what is there and adds every chunk. */
  lemma {:induction false} AppendedAll(logs: LogStore, attempt: string, stream: nat, chunks: seq<Chunk>)
    requires Appended(logs, attempt, stream, chunks).Some?
    ensures Grown(logs, Appended(logs, attempt, stream, chunks).value)
    ensures forall i {:trigger chunks[i]} :: 0 <= i < |chunks| ==>
      ChunkAt(Appended(logs, attempt, stream, chunks).value, attempt, stream, chunks[i])
    decreases |chunks|
  {
    if chunks != [] {
      var more := Appended(logs, attempt, stream, chunks).value;
      var key := LogKey(attempt, stream, chunks[0].sequence);
      var next := if key in logs then logs else logs[key := chunks[0].content];
      AppendedAll(next, attempt, stream, chunks[1..]);
      assert key in next && next[key] == chunks[0].content;
      forall i {:trigger chunks[i]} | 0 <= i < |chunks|
        ensures ChunkAt(more, attempt, stream, chunks[i])
      {
        if i > 0 { assert chunks[1..][i - 1] == chunks[i]; }
      }
    }
  }

  lemma AppendPersisted(job: Job, s: State, s': State)
    requires Persisted(job, s) && Grown(s.logs, s'.logs) && s'.workers.Keys == s.workers.Keys
    requires s' == s.(logs := s'.logs, workers := s'.workers)
    ensures Persisted(job, s')
  {
    if !s.db.progress.phase.Capturing? && !s.db.progress.phase.Cleanup? {
      GrownLogged(job, s.db.progress, s.logs, s'.logs);
    }
  }

  lemma AppendKeeps(job: Job, s: State, t: nat, n: nat)
    requires Inv(job, s) && t in s.workers
    ensures Inv(job, AppendPage(job, s, t, n))
  {
    var w := s.workers[t];
    var s' := AppendPage(job, s, t, n);
    if s' != s {
      var attempt := AttemptKey(job, w.progress);
      var page := job.source(attempt, w.pc.stream)[w.pc.taken..w.pc.taken + n];
      if Appended(s.logs, attempt, w.pc.stream, page).Some? {
        AppendedAll(s.logs, attempt, w.pc.stream, page);
        AppendPersisted(job, s, s');
        AppendWorker(job, s, s', t, n);
        ShrunkSelf(s.rows);
        Bystanders(job, s, s', t);
      } else {
        RaiseKeeps(job, s, t);
      }
    }
  }

  lemma AppendWorker(job: Job, s: State, s': State, t: nat, n: nat)
    requires Inv(job, s) && t in s.workers && s.workers[t].pc.Streaming? && s.workers[t].pc.stream < STREAMS
    requires HasAttempt(job, s.workers[t].progress)
    requires s' == Moved(s, t, Streaming(s.workers[t].pc.stream, s.workers[t].pc.taken + n)).(logs := s'.logs)
    requires Grown(s.logs, s'.logs)
    requires s.workers[t].pc.taken + n <= |job.source(AttemptKey(job, s.workers[t].progress), s.workers[t].pc.stream)|
    requires
      var w := s.workers[t];
      var page := job.source(AttemptKey(job, w.progress), w.pc.stream)[w.pc.taken..w.pc.taken + n];
      forall i {:trigger page[i]} :: 0 <= i < |page| ==>
        ChunkAt(s'.logs, AttemptKey(job, s.workers[t].progress), s.workers[t].pc.stream, page[i])
    ensures WorkerOk(job, s', t)
  {
    var w := s.workers[t];
    assert WorkerOk(job, s, t);
    if Holds(s.db, t) && s.db.status.Running? {
      var attempt := AttemptKey(job, w.progress);
      var chunks, k := job.source(attempt, w.pc.stream), w.pc.taken;
      GrownStreams(job, s.logs, s'.logs, attempt, w.pc.stream);
      forall i {:trigger chunks[i]} | 0 <= i < k + n
        ensures ChunkAt(s'.logs, attempt, w.pc.stream, chunks[i])
      {
        if i < k {
          assert ChunkAt(s.logs, attempt, w.pc.stream, chunks[i]);
        } else {
          assert chunks[k..k + n][i - k] == chunks[i];
        }
      }
    }
  }

  lemma EndStreamKeeps(job: Job, s: State, t: nat)
    requires Inv(job, s) && t in s.workers
    ensures Inv(job, CloseStream(job, s, t))
  {
    var w := s.workers[t];
    assert WorkerOk(job, s, t);
    if CloseStream(job, s, t) != s {
      var attempt := AttemptKey(job, w.progress);
      if LastSequence(job.source(attempt, w.pc.stream)) < job.expected(attempt, w.pc.stream)
         || !Acknowledged(s.logs, attempt, w.pc.stream, job.expected(attempt, w.pc.stream)) {
        RaiseKeeps(job, s, t);
      } else {
        ClosedStream(job, s, t);
        MoveKeeps(job, s, t, Streaming(w.pc.stream + 1, 0));
      }
    }
  }

  lemma ClosedStream(job: Job, s: State, t: nat)
    requires Inv(job, s) && t in s.workers && s.workers[t].pc.Streaming? && s.workers[t].pc.stream < STREAMS
    requires HasAttempt(job, s.workers[t].progress)
    requires s.workers[t].pc.taken >= |job.source(AttemptKey(job, s.workers[t].progress), s.workers[t].pc.stream)|
    requires Acknowledged(s.logs, AttemptKey(job, s.workers[t].progress), s.workers[t].pc.stream,
                          job.expected(AttemptKey(job, s.workers[t].progress), s.workers[t].pc.stream))
    ensures WorkerOk(job, Moved(s, t, Streaming(s.workers[t].pc.stream + 1, 0)), t)
  {
    var w := s.workers[t];
    assert WorkerOk(job, s, t);
    if Holds(s.db, t) && s.db.status.Running? {
      var attempt := AttemptKey(job, w.progress);
      forall stream: nat {:trigger StreamAt(job, s.logs, attempt, stream)} | stream < w.pc.stream + 1
        ensures StreamAt(job, s.logs, attempt, stream)
      {
      }
    }
  }

  lemma SaveAttemptKeeps(job: Job, s: State, t: nat)
    requires Inv(job, s) && t in s.workers
    ensures Inv(job, SaveStreamed(s, t))
  {
    var w := s.workers[t];
    assert WorkerOk(job, s, t);
    if w.pc.Streaming? && w.pc.stream >= STREAMS {
      if Holds(s.db, t) && s.db.status.Running? {
        OwnerBacked(job, s, t);
        AttemptPersisted(job, s, w);
      }
      SaveKeeps(job, s, t, AttemptDone(w.progress));
    }
  }

  lemma AttemptPersisted(job: Job, s: State, w: Worker)
    requires Backed(job, s, w.progress) && w.pc.Streaming? && w.pc.stream >= STREAMS && StreamingAt(job, w, s.logs)
    ensures Backed(job, s, AttemptDone(w.progress))
  {
    var p, p' := w.progress, AttemptDone(w.progress);
    FullFilling(job, p, p', s.rows);
    SameStocked(job, p, p', s.objects);
    forall a: nat {:trigger AttemptAt(job, s.logs, p'.snapshot.value, a)} | a < p'.copiedAttempts
      ensures AttemptAt(job, s.logs, p'.snapshot.value, a)
    {
      if a < p.copiedAttempts { assert AttemptAt(job, s.logs, p.snapshot.value, a); }
    }
  }

  lemma EndLogsKeeps(job: Job, s: State, t: nat)
    requires Inv(job, s) && t in s.workers
    ensures Inv(job, LogsToVerify(job, s, t))
  {
    var w := s.workers[t];
    assert WorkerOk(job, s, t);
    if In(w, Logs) && !HasAttempt(job, w.progress) {
      if Holds(s.db, t) && s.db.status.Running? {
        OwnerBacked(job, s, t);
        LogsPersisted(job, s, w.progress);
      }
      SaveKeeps(job, s, t, w.progress.(phase := Verify, percent := 99));
    }
  }

  lemma LogsPersisted(job: Job, s: State, p: Progress)
    requires Backed(job, s, p) && p.phase.Logs? && p.cursor + 1 >= p.totalAttempts
    ensures Backed(job, s, p.(phase := Verify, percent := 99))
  {
    var p' := p.(phase := Verify, percent := 99);
    FullFilling(job, p, p', s.rows);
    SameStocked(job, p, p', s.objects);
    SameLogged(job, p, p', s.logs);
  }

  // ------------------------------------------------------------- publication

  lemma BeginChecksKeeps(job: Job, s: State, t: nat)
    requires Inv(job, s) && t in s.workers
    ensures Inv(job, BeginChecks(s, t))
  {
    assert WorkerOk(job, s, t);
    if In(s.workers[t], Verify) { MoveKeeps(job, s, t, Checking(0)); }
  }

  lemma CheckKeeps(job: Job, s: State, t: nat)
    requires Inv(job, s) && t in s.workers
    ensures Inv(job, CheckNext(job, s, t))
  {
    var w := s.workers[t];
    assert WorkerOk(job, s, t);
    if CheckNext(job, s, t) != s {
      if job.objectKey(w.progress.snapshot.value.objects[w.pc.checked]) in s.objects {
        MoveKeeps(job, s, t, Checking(w.pc.checked + 1));
      } else {
        RaiseKeeps(job, s, t);
      }
    }
  }

  lemma BeginCountsKeeps(job: Job, s: State, t: nat)
    requires Inv(job, s) && t in s.workers
    ensures Inv(job, BeginCounts(s, t))
  {
    assert WorkerOk(job, s, t);
    if BeginCounts(s, t) != s { MoveKeeps(job, s, t, Counting(0)); }
  }

  lemma CountKeeps(job: Job, s: State, t: nat)
    requires Inv(job, s) && t in s.workers
    ensures Inv(job, CountNext(s, t))
  {
    var w := s.workers[t];
    assert WorkerOk(job, s, t);
    if CountNext(s, t) != s {
      if CountAgrees(s, w) { MoveKeeps(job, s, t, Counting(w.pc.counted + 1)); } else { RaiseKeeps(job, s, t); }
    }
  }

  lemma FinishKeeps(job: Job, s: State, t: nat)
    requires Inv(job, s) && t in s.workers
    ensures Inv(job, Publish(s, t))
  {
    var w := s.workers[t];
    assert WorkerOk(job, s, t);
    if Publish(s, t) != s {
      if Owned(s.db, t, false) {
        OwnerBacked(job, s, t);
        FinishPersisted(job, s, Publish(s, t), s.db.progress);
        ShrunkSelf(s.rows);
        Bystanders(job, s, Publish(s, t), t);
      } else {
        RaiseKeeps(job, s, t);
      }
    }
  }

  lemma FinishPersisted(job: Job, s: State, s': State, p: Progress)
    requires Backed(job, s, p) && p.phase.Verify?
    requires s' == s.(workers := s'.workers, db := JobRow(Completed, p.(phase := Done, percent := 100), NoLease))
    ensures Persisted(job, s')
  {
    var p' := p.(phase := Done, percent := 100);
    FullFilling(job, p, p', s.rows);
    SameStocked(job, p, p', s.objects);
    SameLogged(job, p, p', s.logs);
  }

  // ------------------------------------------------------------- cleaning up

  lemma {:induction false} WithoutMembers(job: Job, c: nat, rows: seq<Row>, page: seq<Row>)
    ensures forall r :: r in Without(job, c, rows, page) <==> r in rows && !IsKeyOf(job, c, r.key, page)
  {
    if rows != [] {
      var last := rows[|rows| - 1];
      WithoutMembers(job, c, rows[..|rows| - 1], page);
      assert rows == rows[..|rows| - 1] + [last];
    }
  }

  lemma RemoveLogsKeeps(job: Job, s: State, t: nat, batch: string)
    requires Inv(job, s) && t in s.workers
    ensures Inv(job, DropLogs(job, s, t, batch))
  {
    assert WorkerOk(job, s, t);
    if s.workers[t].pc.Cleaning? {
      ShrunkSelf(s.rows);
      AllBystanders(job, s, DropLogs(job, s, t, batch));
    }
  }

  lemma DeleteObjectKeeps(job: Job, s: State, t: nat, key: string)
    requires Inv(job, s) && t in s.workers
    ensures Inv(job, DeleteStored(s, t, key))
  {
    assert WorkerOk(job, s, t);
    if s.workers[t].pc.Emptied? {
      ShrunkSelf(s.rows);
      AllBystanders(job, s, DeleteStored(s, t, key));
    }
  }

  lemma RemovePageKeeps(job: Job, s: State, t: nat, n: nat)
    requires Inv(job, s) && t in s.workers
    ensures Inv(job, RemoveRows(job, s, t, n))
  {
    var w := s.workers[t];
    var s' := RemoveRows(job, s, t, n);
    assert WorkerOk(job, s, t);
    if s' != s {
      if Owned(s.db, t, true) {
        var c, source := w.pc.left - 1, w.progress.snapshot.value.collections[w.pc.left - 1];
        PageShrinks(job, s.rows, c, source[w.pc.removed..w.pc.removed + n]);
        RemovedCleaner(job, s.rows, w.progress.snapshot.value, w.pc.left, w.pc.removed, n);
        ShrunkCovered(job, s.rows, s'.rows, s.db.progress.snapshot);
        hide CleanerAt, Covered, Counters, Filling, Stocked, Logged, Without;
        Bystanders(job, s, s', t);
      } else {
        RaiseKeeps(job, s, t);
      }
    }
  }

  lemma PageShrinks(job: Job, rows: seq<seq<Row>>, c: nat, page: seq<Row>)
    requires c < |rows|
    ensures Shrunk(rows, rows[c := Without(job, c, rows[c], page)])
  {
    WithoutMembers(job, c, rows[c], page);
  }

  lemma RemovedCleaner(job: Job, rows: seq<seq<Row>>, s: Snapshot, left: nat, removed: nat, n: nat)
    requires CleanerAt(job, rows, Some(s), left, removed) && 1 <= left <= |s.collections|
    requires removed + n <= |s.collections[left - 1]|
    ensures
      var page := s.collections[left - 1][removed..removed + n];
      CleanerAt(job, rows[left - 1 := Without(job, left - 1, rows[left - 1], page)], Some(s), left, removed + n)
  {
    var c, source := left - 1, s.collections[left - 1];
    var page := source[removed..removed + n];
    var less := rows[c := Without(job, c, rows[c], page)];
    WithoutMembers(job, c, rows[c], page);
    PageShrinks(job, rows, c, page);
    ShrunkCleaner(job, rows, less, Some(s), left, removed);
    forall r: Row | r in less[c]
      ensures !IsKeyOf(job, c, r.key, source[..removed + n])
    {
      forall i {:trigger source[..removed + n][i]} | 0 <= i < removed + n
        ensures job.copy(c, source[..removed + n][i]).key != r.key
      {
        if i < removed {
          assert source[..removed][i] == source[i];
        } else {
          assert page[i - removed] == source[i];
        }
      }
    }
  }

  lemma EndRemovalKeeps(job: Job, s: State, t: nat)
    requires Inv(job, s) && t in s.workers
    ensures Inv(job, NextRemoval(s, t))
  {
    var w := s.workers[t];
    assert WorkerOk(job, s, t);
    if NextRemoval(s, t) != s {
      TableEmptied(job, s.rows, w.progress.snapshot.value, w.pc.left, w.pc.removed);
      MoveKeeps(job, s, t, Cleaning(w.pc.left - 1, 0));
    }
  }

  lemma NoCopyLeft(job: Job, c: nat, rows: seq<Row>, source: seq<Row>)
    requires forall r :: r in rows ==> IsCopy(job, c, r, source) && !IsKeyOf(job, c, r.key, source)
    ensures rows == []
  {
    if rows != [] {
      HasMember(rows);
      CopyHasKey(job, c, rows, source);
      assert false;
    }
  }

  lemma CopyHasKey(job: Job, c: nat, rows: seq<Row>, source: seq<Row>)
    requires exists r :: r in rows
    requires forall r :: r in rows ==> IsCopy(job, c, r, source)
    ensures exists r :: r in rows && IsKeyOf(job, c, r.key, source)
  {
    var r :| r in rows;
    assert IsCopy(job, c, r, source);
  }

  /** A table whose rows are all copies, none of which is left, is empty. */
  lemma TableEmptied(job: Job, rows: seq<seq<Row>>, s: Snapshot, left: nat, removed: nat)
    requires CleanerAt(job, rows, Some(s), left, removed) && 1 <= left <= |s.collections|
    requires removed >= |s.collections[left - 1]|
    ensures CleanerAt(job, rows, Some(s), left - 1, 0)
  {
    var c, source := left - 1, s.collections[left - 1];
    assert CoveredAt(job, rows, s, c);
    assert source[..removed] == source;
    NoCopyLeft(job, c, rows[c], source);
    forall d: nat {:trigger EmptyAt(rows, d)} | c <= d
      ensures EmptyAt(rows, d)
    {
    }
  }

  lemma ForgetKeeps(job: Job, s: State, t: nat)
    requires Inv(job, s) && t in s.workers
    ensures Inv(job, ForgetSnapshot(s, t))
  {
    var w := s.workers[t];
    var s' := ForgetSnapshot(s, t);
    assert WorkerOk(job, s, t);
    if w.pc.Cleaning? && (w.progress.snapshot.Some? ==> w.pc.left == 0) {
      if s.db.lease == Lease(t, true) && s.db.status == w.status {
        ShrunkSelf(s.rows);
        Bystanders(job, s, s', t);
      } else if !Owned(s.db, t, w.status.Cancelling?) {
        RaiseKeeps(job, s, t);
      }
    }
  }

  lemma RemoveTargetKeeps(job: Job, s: State, t: nat)
    requires Inv(job, s) && t in s.workers
    ensures Inv(job, DropTarget(s, t))
  {
    assert WorkerOk(job, s, t);
    if s.workers[t].pc.Emptied? {
      if Owned(s.db, t, true) {
        ShrunkSelf(s.rows);
        Bystanders(job, s, DropTarget(s, t), t);
      } else {
        RaiseKeeps(job, s, t);
      }
    }
  }
}
