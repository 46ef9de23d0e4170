/** What every reachable state of a version copy satisfies, and that each event keeps it. The stores
  * hold at least what the persisted progress says, and a worker that still holds the lease knows that
  * progress; all other workers are bystanders of a guarded write. */
module VersionCopyInvariant {
  import opened Options
  import opened VersionCopyProtocol

  // ------------------------------------------------------------- the persisted state

  ghost predicate Totals(job: Job, p: Progress) {
    && p.snapshot.Some? && WellFormed(job, p.snapshot.value)
    && p.totalRows == RowTotal(p.snapshot.value.collections)
    && p.totalObjects == |p.snapshot.value.objects|
    && p.totalAttempts == |p.snapshot.value.collections[job.attempts]|
  }

  /** Rows of table `c` that the progress says are in the target. */
  function Filled(p: Progress, c: nat): nat
    requires p.snapshot.Some? && c < |p.snapshot.value.collections|
    requires p.phase.Records? ==> -1 <= p.cursor
  {
    if c < p.collectionIndex then |p.snapshot.value.collections[c]|
    else if c == p.collectionIndex && p.phase.Records? then p.cursor + 1
    else 0
  }

  ghost predicate Counters(job: Job, p: Progress) {
    match p.phase
    case Capturing =>
      p.snapshot.None? && p.copiedRows == p.copiedObjects == p.copiedAttempts == p.collectionIndex == 0 &&
        p.percent == 0
    case Files =>
      && Totals(job, p) && 0 <= p.cursor + 1 <= p.totalObjects
      && p.copiedObjects == p.cursor + 1 && p.copiedRows == p.copiedAttempts == p.collectionIndex == 0
      && p.percent <= Percent(10, 30, p.copiedObjects, p.totalObjects)
    case Records =>
      && Totals(job, p) && p.copiedObjects == p.totalObjects && p.copiedAttempts == 0
      && p.collectionIndex <= job.tables
      && 0 <= p.cursor + 1 <=
           (if p.collectionIndex < job.tables then |p.snapshot.value.collections[p.collectionIndex]| else 0)
      && p.copiedRows == RowTotal(p.snapshot.value.collections[..p.collectionIndex]) + p.cursor + 1 <= p.totalRows
      && p.percent <= Percent(40, 30, p.copiedRows, p.totalRows)
    case Logs =>
      && Totals(job, p) && p.copiedObjects == p.totalObjects && p.copiedRows == p.totalRows
      && p.collectionIndex == job.tables
      && 0 <= p.cursor + 1 <= p.totalAttempts && p.copiedAttempts == p.cursor + 1
      && p.percent <= Percent(70, 28, p.copiedAttempts, p.totalAttempts)
    case Cleanup => (p.snapshot.Some? ==> WellFormed(job, p.snapshot.value)) && p.percent <= 100
    case _ =>
      && Totals(job, p) && p.copiedObjects == p.totalObjects && p.copiedRows == p.totalRows
      && p.copiedAttempts == p.totalAttempts && p.collectionIndex == job.tables
      && (if p.phase.Done? then p.percent == 100 else p.percent <= 99)
  }

  ghost predicate RowsAt(job: Job, rows: seq<seq<Row>>, p: Progress, c: nat)
    requires p.snapshot.Some? && c < |p.snapshot.value.collections|
  {
    && (p.phase.Records? ==> -1 <= p.cursor)
    && Filled(p, c) <= |p.snapshot.value.collections[c]|
    && c < |rows| && rows[c] == Copied(job, c, p.snapshot.value.collections[c][..Filled(p, c)])
  }

  ghost predicate ObjectAt(job: Job, objects: set<string>, s: Snapshot, i: nat)
    requires i < |s.objects|
  {
    job.objectKey(s.objects[i]) in objects
  }

  ghost predicate ChunkAt(logs: LogStore, attempt: string, stream: nat, chunk: Chunk) {
    var key := LogKey(attempt, stream, chunk.sequence);
    key in logs && logs[key] == chunk.content
  }

  ghost predicate ChunksAt(job: Job, logs: LogStore, attempt: string, stream: nat, n: nat) {
    && n <= |job.source(attempt, stream)|
    && forall i {:trigger job.source(attempt, stream)[i]} :: 0 <= i < n ==>
         ChunkAt(logs, attempt, stream, job.source(attempt, stream)[i])
  }

  /** A stream is whole: every source chunk is there, and the acknowledged range as well. */
  ghost predicate StreamAt(job: Job, logs: LogStore, attempt: string, stream: nat) {
    && ChunksAt(job, logs, attempt, stream, |job.source(attempt, stream)|)
    && Acknowledged(logs, attempt, stream, job.expected(attempt, stream))
  }

  ghost predicate StreamsAt(job: Job, logs: LogStore, attempt: string, n: nat) {
    forall stream: nat {:trigger StreamAt(job, logs, attempt, stream)} :: stream < n ==>
      StreamAt(job, logs, attempt, stream)
  }

  ghost predicate AttemptAt(job: Job, logs: LogStore, s: Snapshot, a: nat)
    requires WellFormed(job, s) && a < |s.collections[job.attempts]|
  {
    StreamsAt(job, logs, s.collections[job.attempts][a].key, STREAMS)
  }

  ghost predicate Filling(job: Job, p: Progress, rows: seq<seq<Row>>) {
    && Totals(job, p) && |rows| == job.tables
    && forall c: nat {:trigger RowsAt(job, rows, p, c)} :: c < job.tables ==> RowsAt(job, rows, p, c)
  }

  ghost predicate Stocked(job: Job, p: Progress, objects: set<string>) {
    && Totals(job, p) && p.copiedObjects <= p.totalObjects
    && forall i: nat {:trigger ObjectAt(job, objects, p.snapshot.value, i)} ::
      i < p.copiedObjects ==> ObjectAt(job, objects, p.snapshot.value, i)
  }

  ghost predicate Logged(job: Job, p: Progress, logs: LogStore) {
    && Totals(job, p) && p.copiedAttempts <= p.totalAttempts
    && forall a: nat {:trigger AttemptAt(job, logs, p.snapshot.value, a)} ::
      a < p.copiedAttempts ==> AttemptAt(job, logs, p.snapshot.value, a)
  }

  /** Every target row of table `c` is the copy of a snapshot row. */
  ghost predicate CoveredAt(job: Job, rows: seq<seq<Row>>, s: Snapshot, c: nat)
    requires c < |s.collections|
  {
    c < |rows| && forall r :: r in rows[c] ==> IsCopy(job, c, r, s.collections[c])
  }

  ghost predicate IsCopy(job: Job, c: nat, r: Row, source: seq<Row>) {
    exists i :: 0 <= i < |source| && r == job.copy(c, source[i])
  }

  ghost predicate EmptyAt(rows: seq<seq<Row>>, c: nat) { c < |rows| ==> rows[c] == [] }

  ghost predicate EmptyFrom(rows: seq<seq<Row>>, from: nat) {
    forall c: nat {:trigger EmptyAt(rows, c)} :: from <= c ==> EmptyAt(rows, c)
  }

  ghost predicate Covered(job: Job, rows: seq<seq<Row>>, snapshot: Option<Snapshot>) {
    && |rows| == job.tables
    && match snapshot
       case None => EmptyFrom(rows, 0)
       case Some(s) =>
         && WellFormed(job, s)
         && forall c: nat {:trigger CoveredAt(job, rows, s, c)} :: c < job.tables ==> CoveredAt(job, rows, s, c)
  }

  ghost predicate Persisted(job: Job, s: State) {
    var p := s.db.progress;
    && Counters(job, p)
    && (p.phase.Capturing? || p.phase.Cleanup? ==> Covered(job, s.rows, p.snapshot))
    && (!p.phase.Capturing? && !p.phase.Cleanup? ==>
         Filling(job, p, s.rows) && Stocked(job, p, s.objects) && Logged(job, p, s.logs))
    && (s.db.status.Completed? <==> p.phase.Done?)
    && (s.db.status.Cancelling? ==> p.phase.Cleanup?)
    && (s.db.status.Cancelled? ==> p.phase.Cleanup? && p.snapshot.None?)
    && (s.db.lease.Lease? ==> s.db.lease.token in s.workers && (s.db.status.Running? || s.db.status.Cancelling?))
  }

  // ------------------------------------------------------------- the workers

  /** Table `left - 1` no longer holds the copies of its first `removed` source rows. */
  ghost predicate Gone(job: Job, rows: seq<seq<Row>>, s: Snapshot, left: nat, removed: nat) {
    1 <= left <= |s.collections| && left <= |rows| ==>
      && removed <= |s.collections[left - 1]|
      && forall r :: r in rows[left - 1] ==> !IsKeyOf(job, left - 1, r.key, s.collections[left - 1][..removed])
  }

  ghost predicate CleanerAt(job: Job, rows: seq<seq<Row>>, snapshot: Option<Snapshot>, left: nat, removed: nat) {
    && Covered(job, rows, snapshot) && left <= job.tables
    && EmptyFrom(rows, left)
    && (snapshot.Some? ==> Gone(job, rows, snapshot.value, left, removed))
  }

  ghost predicate StreamingAt(job: Job, w: Worker, logs: LogStore) {
    w.pc.Streaming? ==>
      && w.progress.phase.Logs? && HasAttempt(job, w.progress) && w.pc.stream <= STREAMS
      && StreamsAt(job, logs, AttemptKey(job, w.progress), w.pc.stream)
      && (w.pc.stream < STREAMS ==> ChunksAt(job, logs, AttemptKey(job, w.progress), w.pc.stream, w.pc.taken))
  }

  ghost predicate StoredAt(job: Job, w: Worker, objects: set<string>) {
    w.pc.Stored? ==>
      && w.progress.phase.Files? && Totals(job, w.progress) && 0 <= w.progress.cursor + 1 < w.progress.totalObjects
      && ObjectAt(job, objects, w.progress.snapshot.value, w.progress.cursor + 1)
  }

  predicate Copier(w: Worker) {
    w.pc.Copying? || w.pc.Stored? || w.pc.Streaming? || w.pc.Checking? || w.pc.Counting? ||
      (w.pc.Opening? && !ToClean(w))
  }

  predicate Cleaner(w: Worker) { w.pc.Cleaning? || w.pc.Emptied? || (w.pc.Opening? && ToClean(w)) }

  predicate Publishing(w: Worker) { w.pc.Checking? || w.pc.Counting? }

  /** Under the lease the private copy is the persisted one, until a cancel request comes. */
  ghost predicate InStep(job: Job, s: State, w: Worker) {
    s.db.status.Running? ==>
      && w.progress == s.db.progress
      && StoredAt(job, w, s.objects) && StreamingAt(job, w, s.logs)
  }

  function Left(job: Job, pc: Pc): nat {
    match pc
    case Cleaning(left, _) => left
    case Opening => job.tables
    case _ => 0
  }

  ghost predicate CleanerOk(job: Job, s: State, t: nat, w: Worker) {
    && s.db.progress.phase.Cleanup?
    && (w.status.Running? || w.status.Cancelling?)
    && CleanerAt(job, s.rows, w.progress.snapshot, Left(job, w.pc), if w.pc.Cleaning? then w.pc.removed else 0)
    && (w.pc.Emptied? ==> w.progress.snapshot.None? && s.db.progress.snapshot.None?)
    && (Holds(s.db, t) ==> w.progress == s.db.progress && (w.status.Cancelling? ==> s.db.status.Cancelling?))
  }

  ghost predicate CopierOk(job: Job, s: State, t: nat, w: Worker) {
    && w.status.Running? && !w.progress.phase.Cleanup? && !w.progress.phase.Done?
    && (Publishing(w) ==> w.progress.phase.Verify?)
    && (!w.pc.Opening? ==> w.progress.snapshot.Some?)
    && (Holds(s.db, t) ==> InStep(job, s, w))
  }

  ghost predicate WorkerOk(job: Job, s: State, t: nat)
    requires t in s.workers
  {
    var w := s.workers[t];
    && (Cleaner(w) ==> CleanerOk(job, s, t, w))
    && (Copier(w) ==> CopierOk(job, s, t, w))
  }

  ghost predicate WorkersOk(job: Job, s: State) {
    forall t {:trigger WorkerOk(job, s, t)} :: t in s.workers ==> WorkerOk(job, s, t)
  }

  ghost predicate Inv(job: Job, s: State) {
    job.attempts < job.tables && Persisted(job, s) && WorkersOk(job, s)
  }

  lemma PercentGrows(base: nat, span: nat, less: nat, copied: nat, total: nat)
    requires less <= copied <= total
    ensures base <= Percent(base, span, less, total) <= Percent(base, span, copied, total) <= base + span
  {
    var m := Max(1, total);
    Quotients(span * less, span * copied, m) by { Products(span, less, copied); }
    Quotients(span * copied, span * m, m) by { Products(span, copied, m); }
    QuotientOf(span, m);
    Quotients(0, span * less, m) by { Products(span, 0, less); }
  }

  /** A percentage is the phase's base and the share of its span that is done, rounded down. */
  lemma PercentIs(base: nat, span: nat, copied: nat, total: nat)
    ensures var m, done := Max(1, total), Percent(base, span, copied, total) - base;
      0 <= done && done * m <= span * copied < (done + 1) * m
    ensures total > 0 ==> Percent(base, span, total, total) == base + span
    ensures Percent(base, span, 0, total) == base
  {
    var m := Max(1, total);
    var product := span * copied;
    assert product == product / m * m + product % m;
    QuotientOf(span, m);
    QuotientOf(0, m);
  }

  lemma Products(a: nat, b: nat, c: nat)
    requires b <= c
    ensures a * b <= a * c
  {
  }

  lemma QuotientOf(a: nat, m: nat)
    requires m > 0
    ensures a * m / m == a
  {
    var product := a * m;
    var q := product / m;
    assert product == q * m + product % m;
    if q < a {
      Products(m, q + 1, a);
      assert false;
    } else if q > a {
      Products(m, a + 1, q);
      assert false;
    }
  }

  lemma Quotients(a: nat, b: nat, m: nat)
    requires a <= b && m > 0
    ensures 0 <= a / m <= b / m
  {
    var qa, qb := a / m, b / m;
    assert a == qa * m + a % m && b == qb * m + b % m;
    if qa > qb {
      Products(m, qb + 1, qa);
      assert false;
    }
  }

  lemma PercentBound(job: Job, p: Progress)
    requires Counters(job, p)
    ensures p.percent <= 100
  {
    if p.phase.Files? { PercentGrows(10, 30, p.copiedObjects, p.copiedObjects, p.totalObjects); }
    if p.phase.Records? { PercentGrows(40, 30, p.copiedRows, p.copiedRows, p.totalRows); }
    if p.phase.Logs? { PercentGrows(70, 28, p.copiedAttempts, p.copiedAttempts, p.totalAttempts); }
  }

  // ------------------------------------------------------------- frames

  ghost predicate ShrunkAt(rows: seq<seq<Row>>, less: seq<seq<Row>>, c: nat)
    requires c < |rows| == |less|
  {
    forall r :: r in less[c] ==> r in rows[c]
  }

  ghost predicate Shrunk(rows: seq<seq<Row>>, less: seq<seq<Row>>) {
    |rows| == |less| && forall c: nat {:trigger ShrunkAt(rows, less, c)} :: c < |rows| ==> ShrunkAt(rows, less, c)
  }

  ghost predicate Grown(logs: LogStore, more: LogStore) {
    forall key :: key in logs ==> key in more && more[key] == logs[key]
  }

  lemma HasMember(rows: seq<Row>)
    requires rows != []
    ensures exists r :: r in rows
  {
    assert rows[0] in rows;
  }

  lemma ShrunkEmpty(rows: seq<seq<Row>>, less: seq<seq<Row>>, from: nat)
    requires Shrunk(rows, less) && EmptyFrom(rows, from)
    ensures EmptyFrom(less, from)
  {
    forall c: nat {:trigger EmptyAt(less, c)} | from <= c
      ensures EmptyAt(less, c)
    {
      assert EmptyAt(rows, c);
      if c < |less| {
        assert ShrunkAt(rows, less, c);
        if less[c] != [] { HasMember(less[c]); }
      }
    }
  }

  lemma ShrunkCovered(job: Job, rows: seq<seq<Row>>, less: seq<seq<Row>>, snapshot: Option<Snapshot>)
    requires Shrunk(rows, less) && Covered(job, rows, snapshot)
    ensures Covered(job, less, snapshot)
  {
    match snapshot
    case None => ShrunkEmpty(rows, less, 0);
    case Some(s) =>
      forall c: nat {:trigger CoveredAt(job, less, s, c)} | c < job.tables
        ensures CoveredAt(job, less, s, c)
      {
        assert CoveredAt(job, rows, s, c) && ShrunkAt(rows, less, c);
      }
  }

  lemma ShrunkCleaner(job: Job, rows: seq<seq<Row>>, less: seq<seq<Row>>, snapshot: Option<Snapshot>, left: nat,
                      removed: nat)
    requires Shrunk(rows, less) && CleanerAt(job, rows, snapshot, left, removed)
    ensures CleanerAt(job, less, snapshot, left, removed)
  {
    ShrunkCovered(job, rows, less, snapshot);
    ShrunkEmpty(rows, less, left);
    if snapshot.Some? && 1 <= left <= |snapshot.value.collections| && left <= |rows| {
      assert ShrunkAt(rows, less, left - 1);
    }
  }

  lemma GrownStreams(job: Job, logs: LogStore, more: LogStore, attempt: string, n: nat)
    requires Grown(logs, more) && StreamsAt(job, logs, attempt, n)
    ensures StreamsAt(job, more, attempt, n)
  {
    forall stream: nat {:trigger StreamAt(job, more, attempt, stream)} | stream < n
      ensures StreamAt(job, more, attempt, stream)
    {
      assert StreamAt(job, logs, attempt, stream);
    }
  }

  lemma GrownLogged(job: Job, p: Progress, logs: LogStore, more: LogStore)
    requires Grown(logs, more) && Logged(job, p, logs)
    ensures Logged(job, p, more)
  {
    forall a: nat {:trigger AttemptAt(job, more, p.snapshot.value, a)} | a < p.copiedAttempts
      ensures AttemptAt(job, more, p.snapshot.value, a)
    {
      assert AttemptAt(job, logs, p.snapshot.value, a);
      GrownStreams(job, logs, more, p.snapshot.value.collections[job.attempts][a].key, STREAMS);
    }
  }

  lemma GrownStocked(job: Job, p: Progress, objects: set<string>, more: set<string>)
    requires objects <= more && Stocked(job, p, objects)
    ensures Stocked(job, p, more)
  {
    forall i: nat {:trigger ObjectAt(job, more, p.snapshot.value, i)} | i < p.copiedObjects
      ensures ObjectAt(job, more, p.snapshot.value, i)
    {
      assert ObjectAt(job, objects, p.snapshot.value, i);
    }
  }

  /** What an event may do to the workers it does not concern. */
  ghost predicate Gentle(s: State, s': State) {
    && (s.db.progress.phase.Cleanup? ==>
          && s'.db.progress.phase.Cleanup? && Shrunk(s.rows, s'.rows)
          && (s.db.progress.snapshot.None? ==> s'.db.progress.snapshot.None?))
    && (!s.db.progress.phase.Cleanup? ==> s.objects <= s'.objects && Grown(s.logs, s'.logs))
  }

  ghost predicate SameHold(s: State, s': State, u: nat) {
    Holds(s'.db, u) ==>
      && Holds(s.db, u)
      && (s'.db.status == s.db.status || s'.db.status.Cancelling?)
      && (s'.db.progress == s.db.progress ||
           (s'.db.status.Cancelling? && s'.db.progress == s.db.progress.(phase := Cleanup)))
  }

  lemma Bystander(job: Job, s: State, s': State, u: nat)
    requires Inv(job, s) && u in s.workers && u in s'.workers && s'.workers[u] == s.workers[u]
    requires Gentle(s, s') && SameHold(s, s', u)
    ensures WorkerOk(job, s', u)
  {
    assert WorkerOk(job, s, u);
    var w := s.workers[u];
    if Cleaner(w) {
      ShrunkCleaner(job, s.rows, s'.rows, w.progress.snapshot, Left(job, w.pc),
                    if w.pc.Cleaning? then w.pc.removed else 0);
    }
    if Copier(w) && Holds(s'.db, u) && s'.db.status.Running? && w.pc.Streaming? {
      GrownStreams(job, s.logs, s'.logs, AttemptKey(job, w.progress), w.pc.stream);
    }
  }

  lemma Bystanders(job: Job, s: State, s': State, t: nat)
    requires Inv(job, s) && Gentle(s, s')
    requires s'.workers.Keys <= s.workers.Keys + {t}
    requires forall u {:trigger s'.workers[u]} :: u in s'.workers && u != t ==> s'.workers[u] == s.workers[u]
    requires forall u {:trigger SameHold(s, s', u)} :: u != t ==> SameHold(s, s', u)
    requires t in s'.workers ==> WorkerOk(job, s', t)
    ensures WorkersOk(job, s')
  {
    forall u {:trigger WorkerOk(job, s', u)} | u in s'.workers
      ensures WorkerOk(job, s', u)
    {
      if u != t {
        assert SameHold(s, s', u);
        Bystander(job, s, s', u);
      }
    }
  }

  lemma AllBystanders(job: Job, s: State, s': State)
    requires Inv(job, s) && Gentle(s, s')
    requires s'.workers == s.workers
    requires forall u {:trigger SameHold(s, s', u)} :: SameHold(s, s', u)
    ensures WorkersOk(job, s')
  {
    forall u {:trigger WorkerOk(job, s', u)} | u in s'.workers
      ensures WorkerOk(job, s', u)
    {
      assert SameHold(s, s', u);
      Bystander(job, s, s', u);
    }
  }

  lemma ShrunkSelf(rows: seq<seq<Row>>)
    ensures Shrunk(rows, rows)
  {
  }

  // ------------------------------------------------------------- leases and operators

  lemma FilledCovered(job: Job, p: Progress, rows: seq<seq<Row>>)
    requires Filling(job, p, rows)
    ensures Covered(job, rows, p.snapshot)
  {
    var s := p.snapshot.value;
    forall c: nat {:trigger CoveredAt(job, rows, s, c)} | c < job.tables
      ensures CoveredAt(job, rows, s, c)
    {
      assert RowsAt(job, rows, p, c);
      CopiedMembers(job, c, s.collections[c], Filled(p, c));
    }
  }

  lemma {:induction false} CopiedMembers(job: Job, c: nat, source: seq<Row>, n: nat)
    requires n <= |source|
    ensures forall r :: r in Copied(job, c, source[..n]) ==> IsCopy(job, c, r, source)
  {
    if n > 0 {
      CopiedMembers(job, c, source, n - 1);
      assert source[..n][..n - 1] == source[..n - 1];
    }
  }

  lemma PersistedCovered(job: Job, s: State)
    requires Persisted(job, s)
    ensures Covered(job, s.rows, s.db.progress.snapshot)
  {
    if !s.db.progress.phase.Capturing? && !s.db.progress.phase.Cleanup? { FilledCovered(job, s.db.progress, s.rows); }
  }

  lemma ClaimKeeps(job: Job, s: State, t: nat)
    requires Inv(job, s)
    ensures Inv(job, ClaimJob(s, t))
  {
    var s' := ClaimJob(s, t);
    if t !in s.workers && Claimable(s.db) {
      ShrunkSelf(s.rows);
      PersistedCovered(job, s);
      Bystanders(job, s, s', t);
    }
  }

  lemma ExpireKeeps(job: Job, s: State)
    requires Inv(job, s)
    ensures Inv(job, ExpireLease(s))
  {
    ShrunkSelf(s.rows);
    AllBystanders(job, s, ExpireLease(s));
  }

  lemma RetryKeeps(job: Job, s: State)
    requires Inv(job, s)
    ensures Inv(job, RetryJob(s))
  {
    ShrunkSelf(s.rows);
    AllBystanders(job, s, RetryJob(s));
  }

  lemma CancelKeeps(job: Job, s: State)
    requires Inv(job, s)
    ensures Inv(job, CancelJob(s))
  {
    CancelPersisted(job, s);
    CancelGentle(s);
    if !s.db.status.Completed? && !s.db.status.Cancelled? { AllBystanders(job, s, CancelJob(s)); }
  }

  lemma CancelPersisted(job: Job, s: State)
    requires Persisted(job, s)
    ensures Persisted(job, CancelJob(s))
  {
    PercentBound(job, s.db.progress);
    PersistedCovered(job, s);
  }

  lemma CancelGentle(s: State)
    ensures Gentle(s, CancelJob(s))
    ensures forall u {:trigger SameHold(s, CancelJob(s), u)} :: SameHold(s, CancelJob(s), u)
  {
    ShrunkSelf(s.rows);
  }

  lemma FailKeeps(job: Job, s: State, t: nat)
    requires Inv(job, s) && t in s.workers
    ensures Inv(job, FailJob(s, t))
  {
    if s.workers[t].pc.Thrown? {
      MoveKeeps(job, s, t, Ended);
      LetGo(job, Moved(s, t, Ended), FailJob(s, t));
    }
  }

  /** Giving up the lease under which nothing more is written. */
  lemma LetGo(job: Job, s: State, s': State)
    requires Inv(job, s) && (s == s' || s'.db.lease.NoLease?)
    requires s' == s.(db := s'.db) && s'.db.progress == s.db.progress
    requires s'.db.status == s.db.status || (s'.db.status.Failed? && (s.db.status.Running? || s.db.status.Cancelling?))
    ensures Inv(job, s')
  {
    ShrunkSelf(s.rows);
    AllBystanders(job, s, s');
  }

  lemma ReleaseKeeps(job: Job, s: State, t: nat)
    requires Inv(job, s) && t in s.workers
    ensures Inv(job, ReleaseJob(s, t))
  {
    if s.workers[t].pc.Thrown? {
      MoveKeeps(job, s, t, Ended);
      LetGo(job, Moved(s, t, Ended), ReleaseJob(s, t));
    }
  }

  lemma RecoverKeeps(job: Job, s: State, t: nat)
    requires Inv(job, s) && t in s.workers
    ensures Inv(job, RecoverByCleaning(job, s, t))
  {
    ShrunkSelf(s.rows);
    PersistedCovered(job, s);
    assert WorkerOk(job, s, t);
    Bystanders(job, s, RecoverByCleaning(job, s, t), t);
  }

  /** A step that changes nothing but where worker `t` stands. */
  lemma MoveKeeps(job: Job, s: State, t: nat, pc: Pc)
    requires Inv(job, s) && t in s.workers && WorkerOk(job, Moved(s, t, pc), t)
    ensures Inv(job, Moved(s, t, pc))
  {
    ShrunkSelf(s.rows);
    Bystanders(job, s, Moved(s, t, pc), t);
  }

  lemma RaiseKeeps(job: Job, s: State, t: nat)
    requires Inv(job, s) && t in s.workers
    ensures Inv(job, Raised(s, t))
  {
    MoveKeeps(job, s, t, Thrown(CleaningPc(s.workers[t].pc)));
  }

  /** The stores hold what progress `p` says. */
  ghost predicate Backed(job: Job, s: State, p: Progress) {
    && (p.phase.Files? || p.phase.Records? || p.phase.Logs? || p.phase.Verify?)
    && Counters(job, p) && Filling(job, p, s.rows) && Stocked(job, p, s.objects) && Logged(job, p, s.logs)
  }

  lemma OwnerBacked(job: Job, s: State, t: nat)
    requires Inv(job, s) && t in s.workers && Copier(s.workers[t]) && s.workers[t].progress.snapshot.Some?
    requires Holds(s.db, t) && s.db.status.Running?
    ensures s.workers[t].progress == s.db.progress && Backed(job, s, s.db.progress)
  {
    assert WorkerOk(job, s, t);
  }

  /** A save under the lease: it is enough to look at what it writes. */
  lemma SaveKeeps(job: Job, s: State, t: nat, p: Progress)
    requires Inv(job, s) && t in s.workers && Copier(s.workers[t])
    requires p.snapshot.Some? && !p.phase.Cleanup? && !p.phase.Done?
    requires Holds(s.db, t) && s.db.status.Running? ==> Backed(job, s, p)
    ensures Inv(job, Save(s, t, Worker(s.workers[t].status, p, Copying)))
  {
    assert WorkerOk(job, s, t);
    var w := Worker(s.workers[t].status, p, Copying);
    if s.db.lease == Lease(t, true) && s.db.status == w.status {
      ShrunkSelf(s.rows);
      SavedWorker(job, s, t, w);
      Bystanders(job, s, Save(s, t, w), t);
    } else {
      RaiseKeeps(job, s, t);
    }
  }

  lemma SavedWorker(job: Job, s: State, t: nat, w: Worker)
    requires Inv(job, s) && t in s.workers && s.db.lease == Lease(t, true) && s.db.status == w.status
    requires w.status.Running? && w.pc.Copying? && Backed(job, s, w.progress)
    ensures Persisted(job, Save(s, t, w)) && WorkerOk(job, Save(s, t, w), t)
  {
  }
}
