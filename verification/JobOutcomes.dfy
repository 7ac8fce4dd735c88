/** Cancellation, settlement, retention and the choice of a claim. */
module JobOutcomes {
  import opened Wrappers
  import opened Text
  import opened JobModel
  import opened JobSteps
  import opened JobInvariant
  import opened JobPreservation
  import opened JobTraces

  // Which runs and jobs a step leaves alone.

  /** The step leaves the run and every job record of it as they are. */
  predicate Untouched(s: Snapshot, s': Snapshot, r: RunId)
    requires r in s.runs
  {
    && r in s'.runs && s'.runs[r] == s.runs[r]
    && (forall j | j in s.jobs && s.jobs[j].runId == r :: j in s'.jobs && s'.jobs[j] == s.jobs[j])
  }

  lemma RequeueLeaves(s: Snapshot, j: JobId, now: Time, r: RunId)
    requires Inv(s) && j in s.jobs && r in s.runs && (s.jobs[j].runId != r || !LeaseLapsed(s.jobs[j], now))
    ensures Untouched(s, RequeueOne(s, j, now), r)
  {
    hide Inv, RunOk, JobOk;
    Facts(s, j);
  }

  lemma {:induction false} RequeueAllLeavesIdle(s: Snapshot, order: seq<JobId>, now: Time, r: RunId)
    requires Inv(s) && r in s.runs && !IsActive(s.runs[r].state)
    ensures Untouched(s, RequeueAll(s, order, now), r)
  {
    hide Inv, RunOk, JobOk, RequeueOne;
    if order != [] {
      var mid, id := RequeueAll(s, order[..|order| - 1], now), order[|order| - 1];
      RequeueAllLeavesIdle(s, order[..|order| - 1], now, r);
      RequeueAllKeeps(s, order[..|order| - 1], now);
      if id in mid.jobs {
        Facts(mid, id);
        RequeueLeaves(mid, id, now, r);
      }
    }
  }

  lemma AssignLeaves(s: Snapshot, j: JobId, worker: string, expiresAt: Time, now: Time, r: RunId)
    requires Inv(s) && j in s.jobs && s.jobs[j].state.JobQueued? && r in s.runs && s.jobs[j].runId != r
    ensures Untouched(s, Assign(s, j, worker, expiresAt, now), r)
  {
    hide Inv, RunOk, JobOk;
    Facts(s, j);
  }

  lemma CompleteLeaves(s: Snapshot, op: Op, now: Time, r: RunId)
    requires Inv(s) && r in s.runs && (op.OpSucceed? || op.OpFail? || op.OpWait?) && Attempt(s, op, now).Success?
    requires op.lease.jobId in s.jobs && s.jobs[op.lease.jobId].runId != r
    ensures Untouched(s, Next(s, op, now), r)
  {
    hide Inv, RunOk, JobOk, FailureMessage;
    Facts(s, op.lease.jobId);
  }

  /** The calls that may change a run which has no active job. */
  predicate Reopens(s: Snapshot, op: Op, r: RunId)
    requires r in s.runs
  {
    || (op.OpRetry? && op.runId == r)
    || (op.OpResume? && s.runs[r].state.RunWaitingHuman? && op.taskId == s.runs[r].taskId)
    || (op.OpCancelRun? && op.runId == r && s.runs[r].state.RunWaitingHuman?)
  }

  lemma ResumeLeaves(s: Snapshot, op: Op, now: Time, r: RunId)
    requires Inv(s) && r in s.runs && op.OpResume? && FreshJobId(s, op.newJobId) && !IsActive(s.runs[r].state) && !Reopens(s, op, r)
    ensures Untouched(s, Next(s, op, now), r)
  {
    hide Inv, RunOk, JobOk, Trim;
    if ResumeTask(s, op.taskId, op.resume, op.newJobId, now).Success? {
      TaskHasRun(s, op.taskId);
      PendingWaits(s, op.taskId);
      RunFacts(s, s.tasks[op.taskId].runId);
    }
  }

  lemma CancelJobLeaves(s: Snapshot, op: Op, now: Time, r: RunId)
    requires Inv(s) && r in s.runs && op.OpCancelJob? && !IsActive(s.runs[r].state)
    ensures Untouched(s, Next(s, op, now), r)
  {
    hide Inv, RunOk, JobOk, CancelActor, JobWorkspace, NormalizeWorkspace;
    if op.jobId in s.jobs { Facts(s, op.jobId); }
  }

  lemma ClaimLeaves(s: Snapshot, op: Op, now: Time, r: RunId)
    requires Inv(s) && r in s.runs && op.OpClaim? && Enabled(s, op, now) && !IsActive(s.runs[r].state)
    ensures Untouched(s, Next(s, op, now), r)
  {
    hide Inv, RunOk, JobOk, RequeueAll, Assign;
    var s1 := RequeueAll(s, op.order, now);
    RequeueAllLeavesIdle(s, op.order, now, r);
    RequeueAllKeeps(s, op.order, now);
    if op.pick.Some? {
      Facts(s1, op.pick.value);
      AssignLeaves(s1, op.pick.value, op.worker, now + EffectiveTtl(op.ttl), now, r);
    }
  }

  lemma RetryLeaves(s: Snapshot, op: Op, now: Time, r: RunId)
    requires Inv(s) && r in s.runs && op.OpRetry? && FreshJobId(s, op.newJobId) && op.runId != r
    ensures Untouched(s, Next(s, op, now), r)
  {
    hide Inv, RunOk, JobOk, Trim;
    if op.runId in s.runs { RunFacts(s, op.runId); }
  }

  lemma CreateLeaves(s: Snapshot, op: Op, now: Time, r: RunId)
    requires r in s.runs && op.OpCreate?
    ensures Untouched(s, Next(s, op, now), r)
  {}

  /**
   * A run that has settled, or that waits for a human, is changed by nothing
   * but the call that reopens it; retention may remove it once it is terminal.
   */
  lemma IdleRunIsFrozen(s: Snapshot, op: Op, now: Time, r: RunId)
    requires Inv(s) && Enabled(s, op, now) && r in s.runs && !IsActive(s.runs[r].state) && !Reopens(s, op, r)
    ensures Untouched(s, Next(s, op, now), r) || (op.OpPrune? && IsTerminal(s.runs[r].state) && r !in Next(s, op, now).runs)
  {
    hide Inv, RunOk, JobOk, CreateRun, Claim, CompleteSucceeded, CompleteFailed, CompleteWaitingHuman, ResumeTask, CancelJob, RetryRun;
    QuietIdle(s, r, "");
    match op
    case OpCreate(_, _) => CreateLeaves(s, op, now, r);
    case OpClaim(_, _, _, _, _, _) => ClaimLeaves(s, op, now, r);
    case OpHeartbeat(lease, _) => if HoldsLease(s, lease) { Facts(s, lease.jobId); }
    case OpSucceed(_, _) => CompletionLeavesIdle(s, op, now, r);
    case OpFail(_, _) => CompletionLeavesIdle(s, op, now, r);
    case OpWait(_, _, _, _) => CompletionLeavesIdle(s, op, now, r);
    case OpResume(_, _, _) => ResumeLeaves(s, op, now, r);
    case OpCancelJob(_, _, _, _) => CancelJobLeaves(s, op, now, r);
    case OpCancelRun(_, _) => CancelRunLeaves(s, op, now, r);
    case OpRetry(_, _) => RetryLeaves(s, op, now, r);
    case OpPrune(_, _) =>
    case OpExpire(_) => ExpireLeaves(s, op, now, r);
    case OpRetag(spec) => RetagLeaves(s, spec, now, r);
    case OpAppendLogs(_, _) =>
  }

  lemma RetagLeaves(s: Snapshot, spec: RetagSpec, now: Time, r: RunId)
    requires Inv(s) && r in s.runs && !IsActive(s.runs[r].state)
    ensures Untouched(s, Retag(s, spec, now), r)
  {}

  lemma ExpireLeaves(s: Snapshot, op: Op, now: Time, r: RunId)
    requires Inv(s) && r in s.runs && !IsActive(s.runs[r].state) && op.OpExpire?
    ensures Untouched(s, Next(s, op, now), r)
  {
    hide Inv, ExpiryReason;
  }

  lemma CancelRunLeaves(s: Snapshot, op: Op, now: Time, r: RunId)
    requires r in s.runs && !IsActive(s.runs[r].state) && op.OpCancelRun? && !Reopens(s, op, r)
    ensures Untouched(s, Next(s, op, now), r)
  {}

  lemma CompletionLeavesIdle(s: Snapshot, op: Op, now: Time, r: RunId)
    requires Inv(s) && r in s.runs && !IsActive(s.runs[r].state) && (op.OpSucceed? || op.OpFail? || op.OpWait?)
    ensures Untouched(s, Next(s, op, now), r)
  {
    hide Inv, RunOk, JobOk, CompleteSucceeded, CompleteFailed, CompleteWaitingHuman;
    if Attempt(s, op, now).Success? {
      CompletionNeedsLease(s, op, now);
      Facts(s, op.lease.jobId);
      CompleteLeaves(s, op, now, r);
    }
  }

  lemma CompletionNeedsLease(s: Snapshot, op: Op, now: Time)
    requires (op.OpSucceed? || op.OpFail? || op.OpWait?) && Attempt(s, op, now).Success?
    ensures HoldsLease(s, op.lease)
  {}

  // Cancellation wins.

  /** A running job that carries a cancellation: still running, or failed with its run cancelled or expired. */
  predicate CancelStands(s: Snapshot, s': Snapshot, j: JobId)
    requires j in s.jobs && s.jobs[j].runId in s.runs
  {
    var r := s.jobs[j].runId;
    && j in s'.jobs && r in s'.runs && s'.jobs[j].runId == r && s'.jobs[j].canceledBy.Some?
    && ((s'.jobs[j].state.JobRunning? && s'.runs[r] == s.runs[r])
        || (s'.jobs[j].state.JobFailed? && (s'.runs[r].state.RunCanceled? || s'.runs[r].state.RunExpired?)))
  }

  lemma UntouchedStands(s: Snapshot, s': Snapshot, j: JobId)
    requires j in s.jobs && s.jobs[j].runId in s.runs && s.jobs[j].state.JobRunning? && s.jobs[j].canceledBy.Some?
    requires Untouched(s, s', s.jobs[j].runId)
    ensures CancelStands(s, s', j)
  {}

  lemma RequeueStands(s: Snapshot, k: JobId, now: Time, j: JobId)
    requires Inv(s) && j in s.jobs && k in s.jobs && s.jobs[j].runId in s.runs
    requires s.jobs[j].state.JobRunning? && s.jobs[j].canceledBy.Some?
    ensures CancelStands(s, RequeueOne(s, k, now), j)
  {
    hide Inv, RunOk, JobOk;
    Facts(s, j);
    if k == j {
    } else {
      QuietActive(s, j);
      RequeueLeaves(s, k, now, s.jobs[j].runId);
    }
  }

  lemma {:induction false} RequeueAllStands(s: Snapshot, order: seq<JobId>, now: Time, j: JobId)
    requires Inv(s) && j in s.jobs && s.jobs[j].runId in s.runs
    requires s.jobs[j].state.JobRunning? && s.jobs[j].canceledBy.Some?
    ensures CancelStands(s, RequeueAll(s, order, now), j)
  {
    hide Inv, RunOk, JobOk, RequeueOne;
    if order != [] {
      var mid, id := RequeueAll(s, order[..|order| - 1], now), order[|order| - 1];
      RequeueAllStands(s, order[..|order| - 1], now, j);
      RequeueAllKeeps(s, order[..|order| - 1], now);
      if id in mid.jobs {
        if mid.jobs[j].state.JobRunning? {
          RequeueStands(mid, id, now, j);
        } else {
          Facts(mid, id);
          RequeueLeaves(mid, id, now, s.jobs[j].runId);
        }
      }
    }
  }

  lemma ClaimStands(s: Snapshot, op: Op, now: Time, j: JobId)
    requires Inv(s) && op.OpClaim? && Enabled(s, op, now) && j in s.jobs && s.jobs[j].runId in s.runs
    requires s.jobs[j].state.JobRunning? && s.jobs[j].canceledBy.Some?
    ensures CancelStands(s, Next(s, op, now), j)
  {
    hide Inv, RunOk, JobOk, RequeueAll, Assign;
    var s1 := RequeueAll(s, op.order, now);
    RequeueAllStands(s, op.order, now, j);
    RequeueAllKeeps(s, op.order, now);
    if op.pick.Some? {
      Facts(s1, op.pick.value);
      Facts(s1, j);
      if s1.jobs[j].state.JobRunning? { QuietActive(s1, j); }
      AssignLeaves(s1, op.pick.value, op.worker, now + EffectiveTtl(op.ttl), now, s.jobs[j].runId);
    }
  }

  lemma CompleteStands(s: Snapshot, op: Op, now: Time, j: JobId)
    requires Inv(s) && (op.OpSucceed? || op.OpFail? || op.OpWait?) && j in s.jobs && s.jobs[j].runId in s.runs
    requires s.jobs[j].state.JobRunning? && s.jobs[j].canceledBy.Some?
    ensures CancelStands(s, Next(s, op, now), j)
  {
    hide Inv, RunOk, JobOk, FailureMessage;
    if Attempt(s, op, now).Success? {
      Facts(s, j);
      Facts(s, op.lease.jobId);
      if op.lease.jobId != j {
        QuietActive(s, j);
        CompleteLeaves(s, op, now, s.jobs[j].runId);
      }
    }
  }

  lemma CancelJobStands(s: Snapshot, op: Op, now: Time, j: JobId)
    requires Inv(s) && op.OpCancelJob? && j in s.jobs && s.jobs[j].runId in s.runs
    requires s.jobs[j].state.JobRunning? && s.jobs[j].canceledBy.Some?
    ensures CancelStands(s, Next(s, op, now), j)
  {
    hide Inv, RunOk, JobOk, CancelActor, JobWorkspace, NormalizeWorkspace;
    Facts(s, j);
    QuietActive(s, j);
    if op.jobId in s.jobs { Facts(s, op.jobId); }
  }

  /**
   * Once a running job carries a cancellation, whatever happens next leaves it
   * running, or fails it and settles its run as cancelled or expired.
   */
  lemma CancellationWins(s: Snapshot, op: Op, now: Time, j: JobId)
    requires Inv(s) && Enabled(s, op, now) && j in s.jobs && s.jobs[j].runId in s.runs
    requires s.jobs[j].state.JobRunning? && s.jobs[j].canceledBy.Some?
    ensures CancelStands(s, Next(s, op, now), j)
  {
    hide Inv, RunOk, JobOk, CreateRun, Claim, CompleteSucceeded, CompleteFailed, CompleteWaitingHuman, ResumeTask, CancelJob, RetryRun;
    Facts(s, j);
    match op
    case OpCreate(_, _) => CreateLeaves(s, op, now, s.jobs[j].runId); UntouchedStands(s, Next(s, op, now), j);
    case OpClaim(_, _, _, _, _, _) => ClaimStands(s, op, now, j);
    case OpHeartbeat(lease, _) => if HoldsLease(s, lease) { Facts(s, lease.jobId); }
    case OpSucceed(_, _) => CompleteStands(s, op, now, j);
    case OpFail(_, _) => CompleteStands(s, op, now, j);
    case OpWait(_, _, _, _) => CompleteStands(s, op, now, j);
    case OpResume(_, _, _) => ResumeLeavesActive(s, op, now, j);
    case OpCancelJob(_, _, _, _) => CancelJobStands(s, op, now, j);
    case OpCancelRun(_, _) =>
    case OpRetry(_, _) => RetryLeavesActive(s, op, now, j);
    case OpPrune(_, _) =>
    case OpExpire(_) => ExpireStands(s, op, now, j);
    case OpRetag(_) =>
    case OpAppendLogs(_, _) =>
  }

  lemma ExpireStands(s: Snapshot, op: Op, now: Time, j: JobId)
    requires op.OpExpire? && j in s.jobs && s.jobs[j].runId in s.runs
    requires s.jobs[j].state.JobRunning? && s.jobs[j].canceledBy.Some?
    ensures CancelStands(s, Next(s, op, now), j)
  {
    hide ExpiryReason;
  }

  lemma ResumeLeavesActive(s: Snapshot, op: Op, now: Time, j: JobId)
    requires Inv(s) && op.OpResume? && FreshJobId(s, op.newJobId) && j in s.jobs && s.jobs[j].runId in s.runs
    requires s.jobs[j].state.JobRunning? && s.jobs[j].canceledBy.Some?
    ensures CancelStands(s, Next(s, op, now), j)
  {
    hide Inv, RunOk, JobOk, Trim;
    Facts(s, j);
    if op.taskId in s.tasks && s.tasks[op.taskId].state.TaskPending? {
      PendingWaits(s, op.taskId);
      RunFacts(s, s.tasks[op.taskId].runId);
      TaskHasRun(s, op.taskId);
    }
  }

  lemma RetryLeavesActive(s: Snapshot, op: Op, now: Time, j: JobId)
    requires Inv(s) && op.OpRetry? && FreshJobId(s, op.newJobId) && j in s.jobs && s.jobs[j].runId in s.runs
    requires s.jobs[j].state.JobRunning? && s.jobs[j].canceledBy.Some?
    ensures CancelStands(s, Next(s, op, now), j)
  {
    hide Inv, RunOk, JobOk, Trim;
    Facts(s, j);
    if op.runId in s.runs { RunFacts(s, op.runId); }
  }

  /** Over whole runs of the store: a cancelled job is never queued again and never succeeds. */
  lemma CanceledStaysCanceled(ss: seq<Snapshot>, calls: seq<Call>, i: nat, k: nat, j: JobId)
    requires Trace(ss, calls) && IdsFresh(ss) && i <= k < |ss| && j in ss[i].jobs && j in ss[k].jobs
    requires ss[i].jobs[j].canceledBy.Some?
    ensures ss[k].jobs[j].canceledBy.Some? && (ss[k].jobs[j].state.JobRunning? || ss[k].jobs[j].state.JobFailed?)
  {
    JobsEvolveAlways(ss, calls, i, k, j);
    InvAlways(ss, calls, k);
    hide Inv, Trace, IdsFresh;
    Facts(ss[k], j);
  }

  // Retention.

  lemma {:induction false} DropSize<T, U>(m: map<T, U>, keys: set<T>)
    requires keys <= m.Keys
    ensures |m - keys| == |m| - |keys|
  {}

  /**
   * Pruning removes exactly the terminal runs older than their outcome's
   * cutoff with exactly their jobs, logs, tasks and events; nothing that stays
   * is altered or refers to something that went, the events keep their order,
   * and the count reported is the number of jobs that went.
   */
  lemma PruneIsExact(s: Snapshot, successOlderThan: Time, failureOlderThan: Time)
    requires Inv(s)
    ensures var s' := Prune(s, successOlderThan, failureOlderThan);
      && Inv(s')
      && (forall r :: r in s'.runs <==>
            (r in s.runs && !(IsTerminal(s.runs[r].state)
                              && s.runs[r].updatedAt < (if s.runs[r].state.RunSucceeded? then successOlderThan else failureOlderThan))))
      && (forall j :: j in s'.jobs <==> j in s.jobs && s.jobs[j].runId in s'.runs)
      && (forall j :: j in s'.logs <==> j in s.logs && j in s'.jobs)
      && (forall t :: t in s'.tasks <==> t in s.tasks && s.tasks[t].runId in s'.runs)
      && (forall e :: e in s'.events <==> e in s.events && e.runId in s'.runs)
      && InOrder(s'.events)
      && |JobsOf(s, Settled(s, successOlderThan, failureOlderThan))| == |s.jobs| - |s'.jobs|
  {
    PruneKeeps(s, successOlderThan, failureOlderThan);
    PrunedKeys(s, successOlderThan, failureOlderThan);
    DropSize(s.jobs, JobsOf(s, Settled(s, successOlderThan, failureOlderThan)));
    hide RunOk, JobOk, TaskOk, KeepEvents;
    var doomed := Settled(s, successOlderThan, failureOlderThan);
    KeepEventsExact(s.events, doomed);
    var s' := Prune(s, successOlderThan, failureOlderThan);
    forall e ensures e in s'.events <==> e in s.events && e.runId in s'.runs {
      if e in s.events { EventHasRun(s, e); }
    }
  }

  lemma EventHasRun(s: Snapshot, e: Event)
    requires Inv(s) && e in s.events
    ensures e.runId in s.runs
  {}

  lemma PrunedKeys(s: Snapshot, successOlderThan: Time, failureOlderThan: Time)
    requires Inv(s)
    ensures var s' := Prune(s, successOlderThan, failureOlderThan);
      && (forall j :: j in s'.jobs <==> j in s.jobs && s.jobs[j].runId in s'.runs)
      && (forall t :: t in s'.tasks <==> t in s.tasks && s.tasks[t].runId in s'.runs)
      && (forall j :: j in s'.logs <==> j in s.logs && j in s'.jobs)
  {}

  /** Retention is settled after one pass: pruning again with the same cutoffs removes nothing. */
  lemma PruneTwice(s: Snapshot, successOlderThan: Time, failureOlderThan: Time)
    requires Inv(s)
    ensures var s' := Prune(s, successOlderThan, failureOlderThan); Prune(s', successOlderThan, failureOlderThan) == s'
  {
    hide Inv, KeepEvents;
    var s' := Prune(s, successOlderThan, failureOlderThan);
    assert Settled(s', successOlderThan, failureOlderThan) == {};
    KeepAll(s'.events);
  }

  lemma {:induction false} KeepAll(events: seq<Event>)
    ensures KeepEvents(events, {}) == events
  {
    if events != [] {
      KeepAll(events[..|events| - 1]);
    }
  }

  /**
   * Expiry takes exactly the active runs none of whose records moved since the
   * cutoff, leaves every other record alone, and has nothing left to do when
   * it is repeated with the same cutoff.
   */
  lemma ExpireIsExact(s: Snapshot, stuckBefore: Time, now: Time, later: Time)
    requires Inv(s)
    ensures var s' := Expire(s, stuckBefore, now);
      && Inv(s')
      && (forall r | r in s.runs :: s'.runs[r].state.RunExpired? && !s.runs[r].state.RunExpired? <==> Stuck(s, r, stuckBefore))
      && (forall r | r in s.runs && !Stuck(s, r, stuckBefore) :: Untouched(s, s', r))
      && (forall r | Stuck(s, r, stuckBefore) :: ActiveJobs(s', r) == {})
      && s'.events == s.events && s'.tasks == s.tasks
      && Expire(s', stuckBefore, later) == s'
  {
    hide RunOk, JobOk, TaskOk, ExpiryReason;
    ExpireKeeps(s, stuckBefore, now);
    NoneStuck(s, stuckBefore, now);
    var s' := Expire(s, stuckBefore, now);
    assert Expire(s', stuckBefore, later).runs == s'.runs;
    assert Expire(s', stuckBefore, later).jobs == s'.jobs;
  }

  lemma NoneStuck(s: Snapshot, stuckBefore: Time, now: Time)
    ensures forall r :: !Stuck(Expire(s, stuckBefore, now), r, stuckBefore)
  {
    hide ExpiryReason;
    var s' := Expire(s, stuckBefore, now);
    assert forall j | j in s.jobs && !Stuck(s, s.jobs[j].runId, stuckBefore) :: j in s'.jobs && s'.jobs[j] == s.jobs[j];
    assert forall r | r in s.runs && !Stuck(s, r, stuckBefore) :: s'.runs[r] == s.runs[r];
    assert forall r | r in s.runs && Stuck(s, r, stuckBefore) :: s'.runs[r].state.RunExpired?;
  }

  // The choice of a claim.

  lemma ClaimOrderIsStrict(a: Job, b: Job)
    requires a.id != b.id
    ensures ClaimedBefore(a, b) <==> !ClaimedBefore(b, a)
  {
    LessIsTotal(a.id, b.id);
  }

  /** There is never more than one job a claim may pick. */
  lemma PickIsUnique(s: Snapshot, tags: set<string>, labels: set<string>, p: Option<JobId>, q: Option<JobId>)
    requires Inv(s) && IsPick(s, tags, labels, p) && IsPick(s, tags, labels, q)
    ensures p == q
  {
    hide Inv, RunOk, JobOk, Claimable, ClaimedBefore;
    if p.Some? && q.Some? && p != q {
      ClaimableJob(s, tags, labels, p.value);
      ClaimableJob(s, tags, labels, q.value);
      Facts(s, p.value);
      Facts(s, q.value);
      ClaimOrderIsStrict(s.jobs[p.value], s.jobs[q.value]);
    }
  }

  lemma ClaimableJob(s: Snapshot, tags: set<string>, labels: set<string>, j: JobId)
    requires Claimable(s, tags, labels, j)
    ensures j in s.jobs && s.jobs[j].state.JobQueued? && ClaimAllowed(s.jobs[j], tags, labels) && !CapReached(s.jobs, s.jobs[j])
  {}

  // The edges of a lease.

  /**
   * A heartbeat does not look at the expiry it renews: a lapsed lease that no
   * claim has requeued yet comes back to life, and may complete its job again.
   */
  lemma HeartbeatRevivesLapsedLease(s: Snapshot, lease: Lease, ttl: int, now: Time)
    requires Inv(s) && HoldsLease(s, lease) && LeaseLapsed(s.jobs[lease.jobId], now)
    ensures var s' := Heartbeat(s, lease, ttl, now);
      && HoldsLease(s', lease) && !LeaseLapsed(s'.jobs[lease.jobId], now) && CompletionRefusal(s', lease, now).None?
    ensures s.jobs[lease.jobId].leaseExpiresAt.value < now ==> CompletionRefusal(s, lease, now) == Some(InvalidLease)
  {
    hide Inv, RunOk, JobOk;
    Facts(s, lease.jobId);
  }

  /** At the instant a lease expires it can be completed as well as requeued: whichever comes first wins. */
  lemma ExpiryInstant(s: Snapshot, lease: Lease, now: Time)
    requires Inv(s) && HoldsLease(s, lease) && s.jobs[lease.jobId].leaseExpiresAt == Some(now)
    ensures CompletionRefusal(s, lease, now).None? && LeaseLapsed(s.jobs[lease.jobId], now)
    ensures !HoldsLease(RequeueOne(s, lease.jobId, now), lease)
  {}
}
