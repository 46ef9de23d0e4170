/** The resumable copy of one project version: a job row guarded by a lease, any number
  * of workers that each hold a private copy of the job state, and the three stores the
  * copy fills (tables, objects, logs). Each event is one atomic call on a port, or one
  * thing the outside does: a lease runs out, an operator cancels or retries. */
module VersionCopyProtocol {
  import opened Options

  datatype Status = Queued | Running | Cancelling | Failed | Completed | Cancelled

  datatype Phase = Capturing | Files | Records | Logs | Verify | Cleanup | Done

  datatype Row = Row(key: string, body: string)

  datatype Chunk = Chunk(sequence: nat, content: string)

  datatype LogKey = LogKey(attempt: string, stream: nat, sequence: nat)

  type LogStore = map<LogKey, string>

  /** A captured archive. Its manifest is a matter of counting. */
  datatype Snapshot = Snapshot(collections: seq<seq<Row>>, objects: seq<string>)

  /** What is fixed for a job: how many tables there are and which ones hold the run attempts
    * and their batches, how a row and an object key are renamed, the batch in whose store an
    * attempt's logs are kept, and the source logs. */
  datatype Job = Job(tables: nat, attempts: nat, batches: nat, copy: (nat, Row) -> Row, objectKey: string -> string,
                     batchOf: string -> string, source: (string, nat) -> seq<Chunk>, expected: (string, nat) -> int)

  datatype Progress = Progress(phase: Phase, snapshot: Option<Snapshot>, cursor: int, collectionIndex: nat,
                               totalRows: nat, totalObjects: nat, totalAttempts: nat,
                               copiedRows: nat, copiedObjects: nat, copiedAttempts: nat, percent: nat)

  /** `live` says that the expiry time has not passed yet. */
  datatype Lease = NoLease | Lease(token: nat, live: bool)

  datatype JobRow = JobRow(status: Status, progress: Progress, lease: Lease)

  /** Where a worker stands. `Stored`: the object behind the cursor is uploaded but not
    * recorded. `Streaming`: inside one attempt's log streams. `Cleaning`: `left` tables
    * still to empty, `removed` source rows of the last of them already deleted. */
  datatype Pc =
    | Opening
    | Copying
    | Stored
    | Streaming(stream: nat, taken: nat)
    | Checking(checked: nat)
    | Counting(counted: nat)
    | Cleaning(left: nat, removed: nat)
    | Emptied
    | Thrown(cleaning: bool)
    | Ended

  datatype Worker = Worker(status: Status, progress: Progress, pc: Pc)

  datatype State = State(db: JobRow, workers: map<nat, Worker>, rows: seq<seq<Row>>, objects: set<string>,
                         logs: LogStore)

  /** What worker `t` does next, or what the outside does. */
  datatype Event = Claim(t: nat) | Expire | Retry | Cancel | Act(t: nat, action: Action)

  datatype Action =
    | Renew | Throw | Fail | Release | GiveUp | Recover
    | Open | Capture(snapshot: Snapshot)
    | PutObject | SaveObject | EndFiles
    | InsertPage(n: nat) | EndCollection | EndRecords
    | OpenAttempt | AppendChunks(n: nat) | EndStream | SaveAttempt | EndLogs
    | StartChecks | CheckObject | StartCounts | CountTable | Finish
    | RemoveLogs(batch: string) | RemovePage(n: nat) | EndRemoval | Forget
    | DeleteObject(key: string) | RemoveTarget

  const STREAMS := 3

  function Max(a: int, b: int): int { if a < b then b else a }

  /** How far a phase is: its first percentage and its share of the rest. */
  function Percent(base: nat, span: nat, copied: nat, total: nat): nat { base + span * copied / Max(1, total) }

  /** The rows of `rs` as the target stores them in table `c`. */
  function Copied(job: Job, c: nat, rs: seq<Row>): seq<Row> {
    if rs == [] then [] else Copied(job, c, rs[..|rs| - 1]) + [job.copy(c, rs[|rs| - 1])]
  }

  function RowTotal(tables: seq<seq<Row>>): nat {
    if tables == [] then 0 else RowTotal(tables[..|tables| - 1]) + |tables[|tables| - 1]|
  }

  predicate WellFormed(job: Job, snapshot: Snapshot) {
    |snapshot.collections| == job.tables && job.attempts < job.tables && job.batches < job.tables
  }

  // ------------------------------------------------------------- private state changes

  function Captured(job: Job, p: Progress, snapshot: Snapshot): Progress
    requires WellFormed(job, snapshot)
  {
    p.(snapshot := Some(snapshot), totalRows := RowTotal(snapshot.collections), totalObjects := |snapshot.objects|,
       totalAttempts := |snapshot.collections[job.attempts]|, phase := Files, cursor := -1, percent := 10)
  }

  function ObjectDone(p: Progress): Progress {
    p.(cursor := p.cursor + 1, copiedObjects := p.copiedObjects + 1,
       percent := Percent(10, 30, p.copiedObjects + 1, p.totalObjects))
  }

  function PageDone(p: Progress, n: nat): Progress {
    p.(cursor := p.cursor + n, copiedRows := p.copiedRows + n,
       percent := Percent(40, 30, p.copiedRows + n, p.totalRows))
  }

  function CollectionDone(p: Progress): Progress {
    p.(cursor := -1, collectionIndex := p.collectionIndex + 1)
  }

  function AttemptDone(p: Progress): Progress {
    p.(cursor := p.cursor + 1, copiedAttempts := p.copiedAttempts + 1,
       percent := Percent(70, 28, p.copiedAttempts + 1, p.totalAttempts))
  }

  // ------------------------------------------------------------- the job row and its guard

  predicate Claimable(db: JobRow) {
    (db.status.Queued? || db.status.Running? || db.status.Cancelling?) && !(db.lease.Lease? && db.lease.live)
  }

  predicate Owned(db: JobRow, t: nat, cancelling: bool) {
    && db.lease == Lease(t, true)
    && (cancelling || !db.status.Cancelling?)
    && (db.status.Running? || db.status.Cancelling?)
  }

  predicate Holds(db: JobRow, t: nat) { db.lease.Lease? && db.lease.token == t }

  function With(s: State, t: nat, w: Worker): State { s.(workers := s.workers[t := w]) }

  function Moved(s: State, t: nat, pc: Pc): State
    requires t in s.workers
  {
    With(s, t, s.workers[t].(pc := pc))
  }

  predicate CleaningPc(pc: Pc) { pc.Cleaning? || pc.Emptied? }

  function Raised(s: State, t: nat): State
    requires t in s.workers
  {
    Moved(s, t, Thrown(CleaningPc(s.workers[t].pc)))
  }

  /** The conditional update of the whole job row. When it matches nothing the ownership
    * check runs: it throws, or lets the caller go on with nothing written. */
  function Save(s: State, t: nat, w: Worker): State
    requires t in s.workers
  {
    if s.db.lease == Lease(t, true) && s.db.status == w.status then
      With(s.(db := s.db.(progress := w.progress)), t, w)
    else if Owned(s.db, t, w.status.Cancelling?) then
      With(s, t, w)
    else
      Raised(s, t)
  }

  // ------------------------------------------------------------- lease and operator

  function ClaimJob(s: State, t: nat): State {
    if t !in s.workers && Claimable(s.db) then
      var status := if s.db.status.Cancelling? then Cancelling else Running;
      With(s.(db := s.db.(lease := Lease(t, true), status := status)), t, Worker(status, s.db.progress, Opening))
    else s
  }

  function ExpireLease(s: State): State {
    if s.db.lease.Lease? then s.(db := s.db.(lease := s.db.lease.(live := false))) else s
  }

  function RetryJob(s: State): State {
    if s.db.status.Failed? then s.(db := s.db.(status := Queued, lease := NoLease)) else s
  }

  function CancelJob(s: State): State {
    if s.db.status.Completed? || s.db.status.Cancelled? then s
    else s.(db := s.db.(status := Cancelling, progress := s.db.progress.(phase := Cleanup)))
  }

  function FailJob(s: State, t: nat): State
    requires t in s.workers
  {
    if s.workers[t].pc.Thrown? then
      var ended := Moved(s, t, Ended);
      if Holds(s.db, t) && (s.db.status.Running? || s.db.status.Cancelling?) then
        var phase := if s.db.status.Cancelling? then Cleanup else s.db.progress.phase;
        ended.(db := JobRow(Failed, s.db.progress.(phase := phase), NoLease))
      else ended
    else s
  }

  function ReleaseJob(s: State, t: nat): State
    requires t in s.workers
  {
    if s.workers[t].pc.Thrown? then
      var ended := Moved(s, t, Ended);
      if Holds(s.db, t) then ended.(db := s.db.(lease := NoLease)) else ended
    else s
  }

  /** After an error under a cancel request the worker that still holds the lease reads
    * the row again and cleans up itself, unless it was cleaning already. */
  function RecoverByCleaning(job: Job, s: State, t: nat): State
    requires t in s.workers
  {
    if s.workers[t].pc == Thrown(false) && Holds(s.db, t) && s.db.status.Cancelling? then
      With(s, t, Worker(s.db.status, s.db.progress, Cleaning(job.tables, 0)))
    else s
  }

  // ------------------------------------------------------------- copying

  predicate ToClean(w: Worker) { w.status.Cancelling? || w.progress.phase.Cleanup? }

  function OpenJob(job: Job, s: State, t: nat): State
    requires t in s.workers
  {
    var w := s.workers[t];
    if !w.pc.Opening? then s
    else if ToClean(w) then Moved(s, t, Cleaning(job.tables, 0))
    else if w.progress.snapshot.Some? then Moved(s, t, Copying)
    else s
  }

  function CaptureSource(job: Job, s: State, t: nat, snapshot: Snapshot): State
    requires t in s.workers
  {
    var w := s.workers[t];
    if w.pc.Opening? && !ToClean(w) && w.progress.snapshot.None? && WellFormed(job, snapshot) then
      Save(s, t, Worker(w.status, Captured(job, w.progress, snapshot), Copying))
    else s
  }

  predicate In(w: Worker, phase: Phase) { w.pc.Copying? && w.progress.phase == phase && w.progress.snapshot.Some? }

  function PutNext(job: Job, s: State, t: nat): State
    requires t in s.workers
  {
    var w := s.workers[t];
    if In(w, Files) && 0 <= w.progress.cursor + 1 < |w.progress.snapshot.value.objects| then
      var key := job.objectKey(w.progress.snapshot.value.objects[w.progress.cursor + 1]);
      Moved(s, t, Stored).(objects := s.objects + {key})
    else s
  }

  function SaveStored(s: State, t: nat): State
    requires t in s.workers
  {
    var w := s.workers[t];
    if w.pc.Stored? then Save(s, t, Worker(w.status, ObjectDone(w.progress), Copying)) else s
  }

  function FilesToRecords(s: State, t: nat): State
    requires t in s.workers
  {
    var w := s.workers[t];
    if In(w, Files) && w.progress.cursor + 1 >= |w.progress.snapshot.value.objects| then
      Save(s, t, w.(progress := w.progress.(phase := Records, cursor := -1)))
    else s
  }

  /** The page is inserted and the progress saved in one transaction. */
  function InsertRows(job: Job, s: State, t: nat, n: nat): State
    requires t in s.workers
  {
    var w := s.workers[t];
    if In(w, Records) then
      var p, c := w.progress, w.progress.collectionIndex;
      var tables := p.snapshot.value.collections;
      if c < |tables| && c < |s.rows| && 1 <= n <= 32 && 0 <= p.cursor + 1 && p.cursor + 1 + n <= |tables[c]| then
        if Owned(s.db, t, false) && s.db.status == w.status then
          Save(s.(rows := s.rows[c := s.rows[c] + Copied(job, c, tables[c][p.cursor + 1..p.cursor + 1 + n])]), t,
               w.(progress := PageDone(p, n)))
        else Raised(s, t)
      else s
    else s
  }

  function NextCollection(s: State, t: nat): State
    requires t in s.workers
  {
    var w := s.workers[t];
    if In(w, Records) then
      var p, tables := w.progress, w.progress.snapshot.value.collections;
      if p.collectionIndex < |tables| && p.cursor + 1 >= |tables[p.collectionIndex]| then
        Save(s, t, w.(progress := CollectionDone(p)))
      else s
    else s
  }

  function RecordsToLogs(s: State, t: nat): State
    requires t in s.workers
  {
    var w := s.workers[t];
    if In(w, Records) && w.progress.collectionIndex >= |w.progress.snapshot.value.collections| then
      Save(s, t, w.(progress := w.progress.(phase := Logs, cursor := -1)))
    else s
  }

  // ------------------------------------------------------------- logs

  /** Chunks are inserted by sequence: one that is already there is skipped when it says
    * the same and refuses the whole call otherwise. */
  function Appended(logs: LogStore, attempt: string, stream: nat, chunks: seq<Chunk>): Option<LogStore>
    decreases |chunks|
  {
    if chunks == [] then Some(logs) else
      var key := LogKey(attempt, stream, chunks[0].sequence);
      if key !in logs then Appended(logs[key := chunks[0].content], attempt, stream, chunks[1..])
      else if logs[key] == chunks[0].content then Appended(logs, attempt, stream, chunks[1..])
      else None
  }

  /** The store acknowledges the contiguous sequence numbers from 0. */
  predicate Acknowledged(logs: LogStore, attempt: string, stream: nat, through: int) {
    forall q: nat {:trigger LogKey(attempt, stream, q)} :: 0 <= q <= through ==> LogKey(attempt, stream, q) in logs
  }

  predicate HasAttempt(job: Job, p: Progress) {
    p.snapshot.Some? && WellFormed(job, p.snapshot.value) &&
      0 <= p.cursor + 1 < |p.snapshot.value.collections[job.attempts]|
  }

  function AttemptKey(job: Job, p: Progress): string
    requires HasAttempt(job, p)
  {
    p.snapshot.value.collections[job.attempts][p.cursor + 1].key
  }

  function StartAttempt(job: Job, s: State, t: nat): State
    requires t in s.workers
  {
    var w := s.workers[t];
    if In(w, Logs) && HasAttempt(job, w.progress) then Moved(s, t, Streaming(0, 0)) else s
  }

  function AppendPage(job: Job, s: State, t: nat, n: nat): State
    requires t in s.workers
  {
    var w := s.workers[t];
    if w.pc.Streaming? && w.pc.stream < STREAMS && HasAttempt(job, w.progress) then
      var attempt := AttemptKey(job, w.progress);
      var chunks := job.source(attempt, w.pc.stream);
      if 1 <= n <= 32 && w.pc.taken + n <= |chunks| then
        var logs := Appended(s.logs, attempt, w.pc.stream, chunks[w.pc.taken..w.pc.taken + n]);
        if logs.Some? then Moved(s, t, Streaming(w.pc.stream, w.pc.taken + n)).(logs := logs.value)
        else Raised(s, t)
      else s
    else s
  }

  function LastSequence(chunks: seq<Chunk>): int { if chunks == [] then -1 else chunks[|chunks| - 1].sequence }

  function CloseStream(job: Job, s: State, t: nat): State
    requires t in s.workers
  {
    var w := s.workers[t];
    if w.pc.Streaming? && w.pc.stream < STREAMS && HasAttempt(job, w.progress) then
      var attempt := AttemptKey(job, w.progress);
      var chunks, expected := job.source(attempt, w.pc.stream), job.expected(attempt, w.pc.stream);
      if w.pc.taken < |chunks| then s
      else if LastSequence(chunks) < expected || !Acknowledged(s.logs, attempt, w.pc.stream, expected) then Raised(s, t)
      else Moved(s, t, Streaming(w.pc.stream + 1, 0))
    else s
  }

  function SaveStreamed(s: State, t: nat): State
    requires t in s.workers
  {
    var w := s.workers[t];
    if w.pc.Streaming? && w.pc.stream >= STREAMS then
      Save(s, t, Worker(w.status, AttemptDone(w.progress), Copying))
    else s
  }

  function LogsToVerify(job: Job, s: State, t: nat): State
    requires t in s.workers
  {
    var w := s.workers[t];
    if In(w, Logs) && !HasAttempt(job, w.progress) then
      Save(s, t, w.(progress := w.progress.(phase := Verify, percent := 99)))
    else s
  }

  // ------------------------------------------------------------- publication

  function BeginChecks(s: State, t: nat): State
    requires t in s.workers
  {
    if In(s.workers[t], Verify) then Moved(s, t, Checking(0)) else s
  }

  function CheckNext(job: Job, s: State, t: nat): State
    requires t in s.workers
  {
    var w := s.workers[t];
    if w.pc.Checking? && w.progress.snapshot.Some? && w.pc.checked < |w.progress.snapshot.value.objects| then
      if job.objectKey(w.progress.snapshot.value.objects[w.pc.checked]) in s.objects then
        Moved(s, t, Checking(w.pc.checked + 1))
      else Raised(s, t)
    else s
  }

  function BeginCounts(s: State, t: nat): State
    requires t in s.workers
  {
    var w := s.workers[t];
    if w.pc.Checking? && w.progress.snapshot.Some? && w.pc.checked >= |w.progress.snapshot.value.objects| then
      Moved(s, t, Counting(0))
    else s
  }

  predicate CountAgrees(s: State, w: Worker)
    requires w.pc.Counting? && w.progress.snapshot.Some? && w.pc.counted < |w.progress.snapshot.value.collections|
  {
    w.pc.counted < |s.rows| && |s.rows[w.pc.counted]| == |w.progress.snapshot.value.collections[w.pc.counted]|
  }

  function CountNext(s: State, t: nat): State
    requires t in s.workers
  {
    var w := s.workers[t];
    if w.pc.Counting? && w.progress.snapshot.Some? && w.pc.counted < |w.progress.snapshot.value.collections| then
      if CountAgrees(s, w) then Moved(s, t, Counting(w.pc.counted + 1)) else Raised(s, t)
    else s
  }

  function Publish(s: State, t: nat): State
    requires t in s.workers
  {
    var w := s.workers[t];
    if w.pc.Counting? && w.progress.snapshot.Some? && w.pc.counted >= |w.progress.snapshot.value.collections| then
      if Owned(s.db, t, false) then
        Moved(s, t, Ended).(db := JobRow(Completed, s.db.progress.(phase := Done, percent := 100), NoLease))
      else Raised(s, t)
    else s
  }

  // ------------------------------------------------------------- cleaning up

  /** The logs without those in the store of one batch. */
  function WithoutBatch(job: Job, logs: LogStore, batch: string): LogStore {
    map key | key in logs && job.batchOf(key.attempt) != batch :: logs[key]
  }

  function DropLogs(job: Job, s: State, t: nat, batch: string): State
    requires t in s.workers
  {
    if s.workers[t].pc.Cleaning? then s.(logs := WithoutBatch(job, s.logs, batch)) else s
  }

  /** Deletes by primary key what the source rows in `page` were copied to. */
  function Without(job: Job, c: nat, rows: seq<Row>, page: seq<Row>): seq<Row> {
    if rows == [] then [] else
      var rest := Without(job, c, rows[..|rows| - 1], page);
      if IsKeyOf(job, c, rows[|rows| - 1].key, page) then rest else rest + [rows[|rows| - 1]]
  }

  predicate IsKeyOf(job: Job, c: nat, key: string, page: seq<Row>) {
    exists i | 0 <= i < |page| :: job.copy(c, page[i]).key == key
  }

  function RemoveRows(job: Job, s: State, t: nat, n: nat): State
    requires t in s.workers
  {
    var w := s.workers[t];
    if w.pc.Cleaning? && w.progress.snapshot.Some? then
      var tables := w.progress.snapshot.value.collections;
      if 1 <= w.pc.left <= |tables| && w.pc.left <= |s.rows| && 1 <= n <= 32
         && w.pc.removed + n <= |tables[w.pc.left - 1]| then
        if Owned(s.db, t, true) then
          var c := w.pc.left - 1;
          Moved(s, t, Cleaning(w.pc.left, w.pc.removed + n)).(
            rows := s.rows[c := Without(job, c, s.rows[c], tables[c][w.pc.removed..w.pc.removed + n])])
        else Raised(s, t)
      else s
    else s
  }

  function NextRemoval(s: State, t: nat): State
    requires t in s.workers
  {
    var w := s.workers[t];
    if w.pc.Cleaning? && w.progress.snapshot.Some? && 1 <= w.pc.left <= |w.progress.snapshot.value.collections|
       && w.pc.removed >= |w.progress.snapshot.value.collections[w.pc.left - 1]| then
      Moved(s, t, Cleaning(w.pc.left - 1, 0))
    else s
  }

  function ForgetSnapshot(s: State, t: nat): State
    requires t in s.workers
  {
    var w := s.workers[t];
    if w.pc.Cleaning? && (w.progress.snapshot.Some? ==> w.pc.left == 0) then
      Save(s, t, Worker(w.status, w.progress.(snapshot := None, phase := Cleanup), Emptied))
    else s
  }

  function DeleteStored(s: State, t: nat, key: string): State
    requires t in s.workers
  {
    if s.workers[t].pc.Emptied? then s.(objects := s.objects - {key}) else s
  }

  function DropTarget(s: State, t: nat): State
    requires t in s.workers
  {
    if s.workers[t].pc.Emptied? then
      if Owned(s.db, t, true) then
        Moved(s, t, Ended).(db := JobRow(Cancelled, s.db.progress, NoLease))
      else Raised(s, t)
    else s
  }

  // ------------------------------------------------------------- runs

  predicate Copies(a: Action) {
    || a.Open? || a.Capture? || a.PutObject? || a.SaveObject? || a.EndFiles?
    || a.InsertPage? || a.EndCollection? || a.EndRecords?
  }

  predicate Streams(a: Action) {
    || a.OpenAttempt? || a.AppendChunks? || a.EndStream? || a.SaveAttempt? || a.EndLogs?
  }

  predicate Publishes(a: Action) {
    || a.StartChecks? || a.CheckObject? || a.StartCounts? || a.CountTable? || a.Finish?
  }

  predicate Cleans(a: Action) {
    a.RemoveLogs? || a.RemovePage? || a.EndRemoval? || a.Forget? || a.DeleteObject? || a.RemoveTarget?
  }

  predicate Ends(a: Action) { a.Renew? || a.Throw? || a.Fail? || a.Release? || a.GiveUp? || a.Recover? }

  function CopyStep(job: Job, s: State, t: nat, a: Action): State
    requires Copies(a) && t in s.workers
  {
    match a
    case Open => OpenJob(job, s, t)
    case Capture(snapshot) => CaptureSource(job, s, t, snapshot)
    case PutObject => PutNext(job, s, t)
    case SaveObject => SaveStored(s, t)
    case EndFiles => FilesToRecords(s, t)
    case InsertPage(n) => InsertRows(job, s, t, n)
    case EndCollection => NextCollection(s, t)
    case EndRecords => RecordsToLogs(s, t)
  }

  function StreamStep(job: Job, s: State, t: nat, a: Action): State
    requires Streams(a) && t in s.workers
  {
    match a
    case OpenAttempt => StartAttempt(job, s, t)
    case AppendChunks(n) => AppendPage(job, s, t, n)
    case EndStream => CloseStream(job, s, t)
    case SaveAttempt => SaveStreamed(s, t)
    case EndLogs => LogsToVerify(job, s, t)
  }

  function PublishStep(job: Job, s: State, t: nat, a: Action): State
    requires Publishes(a) && t in s.workers
  {
    match a
    case StartChecks => BeginChecks(s, t)
    case CheckObject => CheckNext(job, s, t)
    case StartCounts => BeginCounts(s, t)
    case CountTable => CountNext(s, t)
    case Finish => Publish(s, t)
  }

  function CleanStep(job: Job, s: State, t: nat, a: Action): State
    requires Cleans(a) && t in s.workers
  {
    match a
    case RemoveLogs(batch) => DropLogs(job, s, t, batch)
    case RemovePage(n) => RemoveRows(job, s, t, n)
    case EndRemoval => NextRemoval(s, t)
    case Forget => ForgetSnapshot(s, t)
    case DeleteObject(key) => DeleteStored(s, t, key)
    case RemoveTarget => DropTarget(s, t)
  }

  function EndStep(job: Job, s: State, t: nat, a: Action): State
    requires Ends(a) && t in s.workers
  {
    match a
    case Renew => s
    case Throw => if s.workers[t].pc.Ended? || s.workers[t].pc.Thrown? then s else Raised(s, t)
    case Fail => FailJob(s, t)
    case Release => ReleaseJob(s, t)
    case GiveUp => Moved(s, t, Ended)
    case Recover => RecoverByCleaning(job, s, t)
  }

  function WorkerStep(job: Job, s: State, t: nat, a: Action): State
    requires t in s.workers
  {
    if Copies(a) then CopyStep(job, s, t, a)
    else if Streams(a) then StreamStep(job, s, t, a)
    else if Publishes(a) then PublishStep(job, s, t, a)
    else if Cleans(a) then CleanStep(job, s, t, a)
    else EndStep(job, s, t, a)
  }

  function Step(job: Job, s: State, e: Event): State {
    match e
    case Claim(t) => ClaimJob(s, t)
    case Expire => ExpireLease(s)
    case Retry => RetryJob(s)
    case Cancel => CancelJob(s)
    case Act(t, a) => if t in s.workers then WorkerStep(job, s, t, a) else s
  }

  function Created(job: Job): State {
    State(JobRow(Queued, Progress(Capturing, None, -1, 0, 0, 0, 0, 0, 0, 0, 0), NoLease), map[], Blank(job.tables),
          {}, map[])
  }

  function Blank(n: nat): seq<seq<Row>> {
    if n == 0 then [] else Blank(n - 1) + [[]]
  }

  ghost function Run(job: Job, events: seq<Event>): State {
    if events == [] then Created(job)
    else Step(job, Run(job, events[..|events| - 1]), events[|events| - 1])
  }
}
