/** What an operator's cancel or retry and the passing of a lease's time do to a job. */
module VersionCopyControl {
  import opened VersionCopyProtocol

  /** A job that may still be claimed by somebody, now or when a lease has run out. */
  predicate Unfinished(status: Status) { status.Queued? || status.Running? || status.Cancelling? }

  lemma RunSnoc(job: Job, events: seq<Event>, e: Event)
    ensures Run(job, events + [e]) == Step(job, Run(job, events), e)
  {
    hide Step;
    assert (events + [e])[..|events|] == events;
  }

  /** Everything about a job but its status, its phase and its lease. */
  ghost predicate SameWork(s: State, r: State) {
    && r.rows == s.rows && r.objects == s.objects && r.logs == s.logs && r.workers == s.workers
    && r.db.progress.(phase := s.db.progress.phase) == s.db.progress
  }

  /** A cancel request turns every job that has not ended well or been cancelled before to
    * cleaning up, and touches nothing else. */
  lemma CancelRequested(job: Job, events: seq<Event>)
    ensures var s, r := Run(job, events), Run(job, events + [Cancel]);
      && SameWork(s, r) && r.db.lease == s.db.lease
      && if s.db.status.Completed? || s.db.status.Cancelled? then r.db == s.db
         else r.db.status.Cancelling? && r.db.progress.phase.Cleanup?
  {
    RunSnoc(job, events, Cancel);
    hide Run;
  }

  /** A retry queues a failed job again where it stopped, and does nothing to any other. */
  lemma RetryQueues(job: Job, events: seq<Event>)
    ensures var s, r := Run(job, events), Run(job, events + [Retry]);
      && SameWork(s, r) && r.db.progress == s.db.progress
      && if s.db.status.Failed? then r.db.status.Queued? && r.db.lease.NoLease? && Claimable(r.db) else r.db == s.db
  {
    RunSnoc(job, events, Retry);
    hide Run;
  }

  /** Once its lease has run out every job that has not ended is free to be claimed, with the
    * progress it had; whoever claims it cleans up if that was asked for, and copies otherwise. */
  lemma ExpiredIsFree(job: Job, events: seq<Event>, t: nat)
    requires job.attempts < job.tables
    ensures var s, r := Run(job, events), Run(job, events + [Expire]);
      && SameWork(s, r) && r.db.progress == s.db.progress && r.db.status == s.db.status
      && (Unfinished(s.db.status) <==> Claimable(r.db))
      && (Unfinished(s.db.status) && t !in s.workers ==>
            var c := Run(job, events + [Expire] + [Claim(t)]);
            && t in c.workers && c.workers[t].progress == s.db.progress
            && c.db.lease == Lease(t, true) && c.db.progress == s.db.progress
            && (ToClean(c.workers[t]) <==> s.db.status.Cancelling? || s.db.progress.phase.Cleanup?))
  {
    RunSnoc(job, events, Expire);
    RunSnoc(job, events + [Expire], Claim(t));
    hide Run;
  }

  /** Asked to cancel while a worker copies, the job is cleaned up by the next claim. */
  lemma CancelReachesCleanUp(job: Job, events: seq<Event>, t: nat)
    requires job.attempts < job.tables && Unfinished(Run(job, events).db.status) && t !in Run(job, events).workers
    ensures var c := Run(job, events + [Cancel] + [Expire] + [Claim(t)]);
      && t in c.workers && ToClean(c.workers[t])
      && c.db.status.Cancelling? && c.db.lease == Lease(t, true)
      && c.db.progress.snapshot == Run(job, events).db.progress.snapshot
  {
    CancelRequested(job, events);
    ExpiredIsFree(job, events + [Cancel], t);
    RunSnoc(job, events + [Cancel], Expire);
    RunSnoc(job, events + [Cancel] + [Expire], Claim(t));
    hide Run;
  }
}
