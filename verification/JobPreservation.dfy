/** Every LocalStore operation keeps the invariant. */
module JobPreservation {
  import opened Wrappers
  import opened Text
  import opened JobModel
  import opened JobSteps
  import opened JobInvariant

  /** What the invariant says of one job, its run and its identifiers. */
  lemma Facts(s: Snapshot, j: JobId)
    requires Inv(s) && j in s.jobs
    ensures JobOk(s, j) && j != "" && s.jobs[j].id == j && s.jobs[j].runId in s.runs
    ensures LeaseOk(s.jobs[j])
    ensures RunOk(s, s.jobs[j].runId) && s.runs[s.jobs[j].runId].id == s.jobs[j].runId
    ensures JobActive(s.jobs[j]) ==> IsActive(s.runs[s.jobs[j].runId].state)
    ensures s.jobs[j].state.JobRunning? ==> s.runs[s.jobs[j].runId].state.RunRunning?
  {}

  /** The run has no active job besides j and no pending task outside K. */
  predicate Quiet(s: Snapshot, r: RunId, j: JobId, K: set<TaskId>) {
    && (forall k | k in s.jobs && k != j && s.jobs[k].runId == r :: !JobActive(s.jobs[k]))
    && (forall t | t in s.tasks && t !in K && s.tasks[t].runId == r :: !s.tasks[t].state.TaskPending?)
  }

  /** An active run has no second active job and no pending task. */
  lemma QuietActive(s: Snapshot, j: JobId)
    requires Inv(s) && j in s.jobs && JobActive(s.jobs[j])
    ensures Quiet(s, s.jobs[j].runId, j, {})
  {}

  /** A run that is not active has no active job, and only the pending task it names. */
  lemma QuietIdle(s: Snapshot, r: RunId, j: JobId)
    requires Inv(s) && r in s.runs && !IsActive(s.runs[r].state)
    ensures Quiet(s, r, j, if s.runs[r].state.RunWaitingHuman? then {s.runs[r].taskId} else {})
  {}

  /** One job and its run change together, and one event records it. */
  lemma PutKeeps(s: Snapshot, s': Snapshot, r: RunId, j: JobId, K: set<TaskId>, body: EventBody, now: Time)
    requires Inv(s) && r in s.runs && r in s'.runs && j in s'.jobs && s'.jobs[j].runId == r
    requires s'.runs[r].input == s.runs[r].input && (j in s.jobs ==> s.jobs[j].runId == r)
    requires s'.runs == s.runs[r := s'.runs[r]] && s'.jobs == s.jobs[j := s'.jobs[j]] && s'.logs == s.logs
    requires s'.tasks.Keys == s.tasks.Keys + K && forall t | t in s.tasks && t !in K :: s'.tasks[t] == s.tasks[t]
    requires s'.events == s.events + [Event(s.sequence + 1, r, body, now)] && s'.sequence == s.sequence + 1
    requires body.EvJobClaimed? ==> body.jobId == j
    requires Quiet(s, r, j, K)
    requires forall t | t in s.tasks && t in K :: s.tasks[t].state.TaskPending? && s.tasks[t].runId == r
    requires forall t | t in K :: s'.tasks[t].runId == r && TaskOk(s', t)
    requires RunOk(s', r) && JobOk(s', j)
    ensures Inv(s')
  {
    hide RunOk, JobOk, TaskOk, Replay, ClaimLog, Fold, Touches, Quiet;
    Appended(s.events, Event(s.sequence + 1, r, body, now));
    PutTouches(s, s', r, j, K, body, now);
    Frame(s, s', {r}, {j}, K);
  }

  lemma PutTouches(s: Snapshot, s': Snapshot, r: RunId, j: JobId, K: set<TaskId>, body: EventBody, now: Time)
    requires r in s.runs && r in s'.runs && j in s'.jobs && s'.jobs[j].runId == r
    requires s'.runs[r].input == s.runs[r].input && (j in s.jobs ==> s.jobs[j].runId == r)
    requires s'.runs == s.runs[r := s'.runs[r]] && s'.jobs == s.jobs[j := s'.jobs[j]]
    requires s'.tasks.Keys == s.tasks.Keys + K && forall t | t in s.tasks && t !in K :: s'.tasks[t] == s.tasks[t]
    requires s'.events == s.events + [Event(s.sequence + 1, r, body, now)]
    requires (body.EvJobClaimed? ==> body.jobId == j) && Quiet(s, r, j, K)
    requires forall t | t in s.tasks && t in K :: s.tasks[t].state.TaskPending? && s.tasks[t].runId == r
    requires forall t | t in K :: s'.tasks[t].runId == r
    ensures Touches(s, s', {r}, {j}, K)
  {
    hide Replay, ClaimLog, Fold;
    Appended(s.events, Event(s.sequence + 1, r, body, now));
  }

  /** The records a creation adds are in order. */
  lemma CreatedLocal(s: Snapshot, run: Run, job: Job, now: Time)
    requires FreshRecords(run, job) && CreateRun(s, run, job, now).Success? && ClaimsKnown(s)
    ensures var s' := CreateRun(s, run, job, now).value;
      && RunOk(s', run.id) && JobOk(s', job.id) && ClaimLog(s'.events, job.id) == []
      && (forall r | r != run.id :: Replay(s'.events, r) == Replay(s.events, r))
      && (forall j :: ClaimLog(s'.events, j) == ClaimLog(s.events, j))
  {
    var s' := CreateRun(s, run, job, now).value;
    var e1 := Event(s.sequence + 1, run.id, EvRunCreated(run.app, run.action), now);
    var e2 := Event(s.sequence + 2, run.id, EvJobEnqueued(job.id), now);
    Appended(s.events, e1);
    Appended(s.events + [e1], e2);
    assert s'.events == s.events + [e1] + [e2];
  }

  lemma NewRunIsUnknown(s: Snapshot, r: RunId)
    requires Inv(s) && r !in s.runs
    ensures forall j | j in s.jobs :: s.jobs[j].runId != r
    ensures forall t | t in s.tasks :: s.tasks[t].runId != r
  {}

  lemma CreateKeeps(s: Snapshot, run: Run, job: Job, now: Time)
    requires Inv(s) && FreshRecords(run, job)
    requires CreateRun(s, run, job, now).Success?
    ensures Inv(CreateRun(s, run, job, now).value)
  {
    hide RunOk, JobOk, TaskOk, Replay, ClaimLog, Fold, Touches;
    CreateTouches(s, run, job, now);
    CreatedLocal(s, run, job, now);
    Frame(s, CreateRun(s, run, job, now).value, {run.id}, {job.id}, {});
  }

  lemma CreateTouches(s: Snapshot, run: Run, job: Job, now: Time)
    requires Inv(s) && FreshRecords(run, job) && CreateRun(s, run, job, now).Success?
    ensures Touches(s, CreateRun(s, run, job, now).value, {run.id}, {job.id}, {})
  {
    hide RunOk, JobOk, TaskOk, Replay, ClaimLog, Fold;
    NewRunIsUnknown(s, run.id);
    CreatedLocal(s, run, job, now);
    hide Inv;
  }

  lemma TaskHasRun(s: Snapshot, t: TaskId)
    requires Inv(s) && t in s.tasks
    ensures TaskOk(s, t) && s.tasks[t].id == t && s.tasks[t].runId in s.runs
  {}

  /**
   * Settling a running job, cancelled or not, leaves its run and the job in
   * order whatever the outcome, as long as the event says the same.
   */
  lemma SettledLocal(s: Snapshot, s': Snapshot, j: JobId, body: EventBody, now: Time)
    requires j in s.jobs && s.jobs[j].runId in s.runs && JobOk(s, j) && RunOk(s, s.jobs[j].runId) && JobActive(s.jobs[j])
    requires var r := s.jobs[j].runId;
      && r in s'.runs && j in s'.jobs && s'.events == s.events + [Event(s.sequence + 1, r, body, now)]
      && s'.runs[r].id == r && s'.runs[r].input == s.runs[r].input && OutcomeOk(s'.runs[r])
      && !IsActive(s'.runs[r].state) && !s'.runs[r].state.RunExpired?
      && Fold(NO_VIEW, body) == View(Some(s'.runs[r].state), None, false) && Fold(Replay(s.events, r), body) == Fold(NO_VIEW, body)
      && (s'.runs[r].state.RunWaitingHuman? ==>
            var t := s'.runs[r].taskId; t in s'.tasks && s'.tasks[t].runId == r && s'.tasks[t].state.TaskPending?)
      && (forall t | t in s.tasks && !s.tasks[t].state.TaskPending? :: t in s'.tasks && s'.tasks[t] == s.tasks[t])
    requires s'.jobs[j].(state := JobFailed, leaseExpiresAt := None, updatedAt := now, canceledBy := s.jobs[j].canceledBy, canceledReason := s.jobs[j].canceledReason)
             == SettledJob(s.jobs[j], JobFailed, now)
    requires LeaseOk(s'.jobs[j]) && !JobActive(s'.jobs[j])
    ensures RunOk(s', s.jobs[j].runId) && JobOk(s', j)
  {}

  lemma CancelKeeps(s: Snapshot, j: JobId, actor: string, reason: string, message: string, now: Time)
    requires Inv(s) && j in s.jobs && JobActive(s.jobs[j]) && actor != "" && s.jobs[j].runId in s.runs
    ensures Inv(ApplyCanceled(s, s.jobs[j], s.runs[s.jobs[j].runId], actor, reason, message, now))
  {
    hide RunOk, JobOk, TaskOk, Replay, ClaimLog;
    Facts(s, j);
    QuietActive(s, j);
    var r := s.jobs[j].runId;
    var s' := ApplyCanceled(s, s.jobs[j], s.runs[r], actor, reason, message, now);
    SettledLocal(s, s', j, EvJobCanceled(j, actor, reason), now);
    PutKeeps(s, s', r, j, {}, EvJobCanceled(j, actor, reason), now);
  }

  lemma RequeuedLocal(s: Snapshot, j: JobId, now: Time)
    requires j in s.jobs && s.jobs[j].runId in s.runs && JobOk(s, j) && RunOk(s, s.jobs[j].runId)
    requires LeaseLapsed(s.jobs[j], now) && s.jobs[j].canceledBy.None?
    ensures RunOk(RequeueOne(s, j, now), s.jobs[j].runId) && JobOk(RequeueOne(s, j, now), j)
  {}

  lemma RequeueKeeps(s: Snapshot, j: JobId, now: Time)
    requires Inv(s) && j in s.jobs
    ensures Inv(RequeueOne(s, j, now))
  {
    hide RunOk, JobOk, TaskOk, Replay, ClaimLog, Fold;
    Facts(s, j);
    var job, s' := s.jobs[j], RequeueOne(s, j, now);
    if LeaseLapsed(job, now) {
      if job.canceledBy.Some? {
        CancelKeeps(s, j, job.canceledBy.value, ReasonValue(job), CANCEL_WORKER_LOST, now);
      } else {
        QuietActive(s, j);
        RequeuedLocal(s, j, now);
        PutKeeps(s, s', job.runId, j, {}, EvLeaseExpired(j), now);
      }
    }
  }

  lemma {:induction false} RequeueAllKeeps(s: Snapshot, order: seq<JobId>, now: Time)
    requires Inv(s)
    ensures Inv(RequeueAll(s, order, now))
    ensures RequeueAll(s, order, now).jobs.Keys == s.jobs.Keys
  {
    hide Inv, Replay, ClaimLog, Fold;
    if order != [] {
      RequeueAllKeeps(s, order[..|order| - 1], now);
      var s' := RequeueAll(s, order[..|order| - 1], now);
      var id := order[|order| - 1];
      if id in s'.jobs {
        RequeueKeeps(s', id, now);
        Facts(s', id);
      }
    }
  }

  /** Claiming marks a queued or resuming run as running ... */
  function MarkRunning(s: Snapshot, j: JobId, now: Time): Snapshot
    requires j in s.jobs && s.jobs[j].runId in s.runs
  {
    var run := s.runs[s.jobs[j].runId];
    if run.state.RunRunning? then s
    else AppendEvent(s.(runs := s.runs[run.id := run.(state := RunRunning, updatedAt := now)]), run.id, EvRunRunning(j), now)
  }

  /** ... and hands the job out under a new attempt. */
  function HandOut(s: Snapshot, j: JobId, worker: string, expiresAt: Time, now: Time): Snapshot
    requires j in s.jobs
  {
    var job := s.jobs[j];
    AppendEvent(
      s.(jobs := s.jobs[j := job.(state := JobRunning, attempt := job.attempt + 1, leaseOwner := worker,
                                  leaseExpiresAt := Some(expiresAt), startedAt := Some(now), updatedAt := now)]),
      job.runId, EvJobClaimed(j, worker, job.attempt + 1), now)
  }

  lemma MarkedLocal(s: Snapshot, j: JobId, now: Time)
    requires j in s.jobs && s.jobs[j].runId in s.runs && JobOk(s, j) && RunOk(s, s.jobs[j].runId) && s.jobs[j].state.JobQueued?
    ensures RunOk(MarkRunning(s, j, now), s.jobs[j].runId) && JobOk(MarkRunning(s, j, now), j)
  {}

  lemma MarkRunningKeeps(s: Snapshot, j: JobId, now: Time)
    requires Inv(s) && j in s.jobs && s.jobs[j].runId in s.runs && s.jobs[j].state.JobQueued?
    ensures Inv(MarkRunning(s, j, now)) && s.jobs[j].runId in MarkRunning(s, j, now).runs
    ensures MarkRunning(s, j, now).runs[s.jobs[j].runId].state.RunRunning?
  {
    hide RunOk, JobOk, TaskOk, Replay, ClaimLog, Fold;
    Facts(s, j);
    var r, s' := s.jobs[j].runId, MarkRunning(s, j, now);
    if !s.runs[r].state.RunRunning? {
      QuietActive(s, j);
      MarkedLocal(s, j, now);
      PutKeeps(s, s', r, j, {}, EvRunRunning(j), now);
    }
  }

  lemma HandedLocal(s: Snapshot, j: JobId, worker: string, expiresAt: Time, now: Time)
    requires j in s.jobs && s.jobs[j].runId in s.runs && JobOk(s, j) && RunOk(s, s.jobs[j].runId)
    requires s.jobs[j].state.JobQueued? && s.runs[s.jobs[j].runId].state.RunRunning?
    ensures RunOk(HandOut(s, j, worker, expiresAt, now), s.jobs[j].runId) && JobOk(HandOut(s, j, worker, expiresAt, now), j)
  {}

  lemma HandOutKeeps(s: Snapshot, j: JobId, worker: string, expiresAt: Time, now: Time)
    requires Inv(s) && j in s.jobs && s.jobs[j].state.JobQueued? && s.jobs[j].runId in s.runs && s.runs[s.jobs[j].runId].state.RunRunning?
    ensures Inv(HandOut(s, j, worker, expiresAt, now))
  {
    hide RunOk, JobOk, TaskOk, Replay, ClaimLog, Fold;
    Facts(s, j);
    QuietActive(s, j);
    HandedLocal(s, j, worker, expiresAt, now);
    PutKeeps(s, HandOut(s, j, worker, expiresAt, now), s.jobs[j].runId, j, {}, EvJobClaimed(j, worker, s.jobs[j].attempt + 1), now);
  }

  lemma AssignSplits(s: Snapshot, j: JobId, worker: string, expiresAt: Time, now: Time)
    requires j in s.jobs && s.jobs[j].id == j && s.jobs[j].runId in s.runs && IsActive(s.runs[s.jobs[j].runId].state)
    ensures Assign(s, j, worker, expiresAt, now) == HandOut(MarkRunning(s, j, now), j, worker, expiresAt, now)
  {}

  lemma AssignKeeps(s: Snapshot, j: JobId, worker: string, expiresAt: Time, now: Time)
    requires Inv(s) && j in s.jobs && s.jobs[j].state.JobQueued?
    ensures Inv(Assign(s, j, worker, expiresAt, now))
  {
    hide Inv, RunOk, JobOk, TaskOk, Replay, ClaimLog, Fold, Assign, HandOut, LeaseOk;
    Facts(s, j);
    AssignSplits(s, j, worker, expiresAt, now);
    MarkRunningKeeps(s, j, now);
    HandOutKeeps(MarkRunning(s, j, now), j, worker, expiresAt, now);
  }

  lemma SameJobOk(s: Snapshot, s': Snapshot, j: JobId)
    requires j in s.jobs && j in s'.jobs && JobOk(s, j) && s' == s.(jobs := s'.jobs)
    requires var job, job' := s.jobs[j], s'.jobs[j];
      && job'.id == job.id && job'.runId == job.runId && job'.state == job.state && job'.attempt == job.attempt
      && job'.leaseOwner == job.leaseOwner && job'.startedAt == job.startedAt && job'.payload.input == job.payload.input && LeaseOk(job')
    ensures JobOk(s', j)
  {
  }

  lemma SameRunOk(s: Snapshot, s': Snapshot, r: RunId)
    requires r in s.runs && RunOk(s, r) && s' == s.(jobs := s'.jobs, logs := s'.logs) && s'.jobs.Keys == s.jobs.Keys
    requires forall j | j in s.jobs :: s'.jobs[j].runId == s.jobs[j].runId && s'.jobs[j].state == s.jobs[j].state
    ensures RunOk(s', r)
  {}

  /** Renewing a lease, asking for cancellation and retagging leave the rest of the job records alone. */
  lemma TouchJobsKeeps(s: Snapshot, s': Snapshot)
    requires Inv(s) && s' == s.(jobs := s'.jobs) && s'.jobs.Keys == s.jobs.Keys
    requires forall j | j in s.jobs ::
      var job, job' := s.jobs[j], s'.jobs[j];
      && job'.id == job.id && job'.runId == job.runId && job'.state == job.state && job'.attempt == job.attempt
      && job'.leaseOwner == job.leaseOwner && job'.startedAt == job.startedAt && job'.payload.input == job.payload.input && LeaseOk(job')
    ensures Inv(s')
  {
    hide RunOk, JobOk, LeaseOk, Replay, ClaimLog;
    forall r | r in s.runs ensures RunOk(s', r) { SameRunOk(s, s', r); }
    forall j | j in s.jobs ensures JobOk(s', j) { SameJobOk(s, s', j); }
    forall t | t in s.tasks ensures TaskOk(s', t) { assert TaskOk(s, t); }
  }

  lemma HeartbeatKeeps(s: Snapshot, lease: Lease, ttl: int, now: Time)
    requires Inv(s)
    ensures Inv(Heartbeat(s, lease, ttl, now))
  {
    hide Inv, RunOk, JobOk, TaskOk, Replay, ClaimLog;
    if HoldsLease(s, lease) {
      forall j | j in s.jobs ensures LeaseOk(s.jobs[j]) && s.jobs[j].id == j { Facts(s, j); }
      TouchJobsKeeps(s, Heartbeat(s, lease, ttl, now));
    }
  }

  /** A running job that nobody cancelled settles, and its run with it. */
  lemma SettleKeeps(s: Snapshot, s': Snapshot, j: JobId, run': Run, K: set<TaskId>, body: EventBody, now: Time)
    requires Inv(s) && j in s.jobs && s.jobs[j].state.JobRunning? && s.jobs[j].canceledBy.None? && s.jobs[j].runId in s.runs
    requires var r := s.jobs[j].runId;
      && s' == AppendEvent(s.(runs := s.runs[r := run'], jobs := s'.jobs, tasks := s'.tasks), r, body, now)
      && j in s'.jobs && s'.jobs == s.jobs[j := s'.jobs[j]]
      && run'.id == r && run'.input == s.runs[r].input && OutcomeOk(run') && !IsActive(run'.state) && !run'.state.RunExpired?
      && K !! s.tasks.Keys && s'.tasks.Keys == s.tasks.Keys + K && (forall t | t in s.tasks :: s'.tasks[t] == s.tasks[t])
      && Fold(NO_VIEW, body) == View(Some(run'.state), None, false) && Fold(Replay(s.events, r), body) == Fold(NO_VIEW, body)
      && !body.EvJobClaimed?
      && (if run'.state.RunWaitingHuman?
          then K == {run'.taskId} && (var task := s'.tasks[run'.taskId]; task.id == run'.taskId && task.runId == r && task.state.TaskPending?)
          else K == {})
    requires s'.jobs[j] == SettledJob(s.jobs[j], JobSucceeded, now) || s'.jobs[j] == SettledJob(s.jobs[j], JobFailed, now)
    ensures Inv(s')
  {
    hide RunOk, JobOk, Replay, ClaimLog, Fold;
    Facts(s, j);
    QuietActive(s, j);
    SettledLocal(s, s', j, body, now);
    PutKeeps(s, s', s.jobs[j].runId, j, K, body, now);
  }

  lemma SucceedKeeps(s: Snapshot, lease: Lease, result: JobResult, now: Time)
    requires Inv(s) && CompleteSucceeded(s, lease, result, now).Success?
    ensures Inv(CompleteSucceeded(s, lease, result, now).value)
  {
    hide Inv, RunOk, JobOk, TaskOk, Replay, ClaimLog, ApplyCanceled;
    var j, s' := lease.jobId, CompleteSucceeded(s, lease, result, now).value;
    Facts(s, j);
    var job := s.jobs[j];
    if job.canceledBy.Some? {
      CancelKeeps(s, j, job.canceledBy.value, ReasonValue(job), CANCEL_DURING, now);
    } else {
      SettleKeeps(s, s', j, s'.runs[job.runId], {}, EvRunSucceeded(j), now);
    }
  }

  lemma FailKeeps(s: Snapshot, lease: Lease, result: JobResult, now: Time)
    requires Inv(s) && CompleteFailed(s, lease, result, now).Success?
    ensures Inv(CompleteFailed(s, lease, result, now).value)
  {
    hide Inv, JobOk, TaskOk, Replay, ClaimLog, ApplyCanceled, FailureMessage;
    var j, s' := lease.jobId, CompleteFailed(s, lease, result, now).value;
    Facts(s, j);
    var job := s.jobs[j];
    if job.canceledBy.Some? {
      CancelKeeps(s, j, job.canceledBy.value, ReasonValue(job), CANCEL_DURING, now);
    } else {
      SettleKeeps(s, s', j, s'.runs[job.runId], {}, EvRunFailed(j, FailureMessage(result), result.exitCode), now);
    }
  }

  lemma WaitKeeps(s: Snapshot, lease: Lease, result: JobResult, draft: TaskDraft, freshTaskId: TaskId, now: Time)
    requires Inv(s) && Enabled(s, OpWait(lease, result, draft, freshTaskId), now)
    requires CompleteWaitingHuman(s, lease, result, draft, freshTaskId, now).Success?
    ensures Inv(CompleteWaitingHuman(s, lease, result, draft, freshTaskId, now).value)
  {
    hide Inv, RunOk, JobOk, TaskOk, Replay, ClaimLog, ApplyCanceled;
    var j, s' := lease.jobId, CompleteWaitingHuman(s, lease, result, draft, freshTaskId, now).value;
    Facts(s, j);
    var job := s.jobs[j];
    if job.canceledBy.Some? {
      CancelKeeps(s, j, job.canceledBy.value, ReasonValue(job), CANCEL_DURING, now);
    } else {
      var t := FillTask(draft, s.runs[job.runId], freshTaskId, now).id;
      SettleKeeps(s, s', j, s'.runs[job.runId], {t}, EvTaskCreated(j, t), now);
    }
  }

  /** A new job for a run that has no active one. */
  lemma {:induction false} EnqueuedLocal(s: Snapshot, s': Snapshot, r: RunId, input: Input, newJobId: JobId, body: EventBody, now: Time)
    requires r in s.runs && RunOk(s, r) && !IsActive(s.runs[r].state) && FreshJobId(s, newJobId) && ClaimLog(s.events, newJobId) == []
    requires r in s'.runs && s'.runs[r].id == r && s'.runs[r].input == s.runs[r].input && OutcomeOk(s'.runs[r])
    requires newJobId in s'.jobs && s'.jobs[newJobId] == NewActionJob(s'.runs[r], input, newJobId, now)
    requires s'.events == s.events + [Event(s.sequence + 1, r, body, now)]
    requires IsActive(s'.runs[r].state) && !s'.runs[r].state.RunRunning?
    requires !body.EvJobClaimed? && Fold(Replay(s.events, r), body) == View(Some(s'.runs[r].state), Some(newJobId), false)
    requires InputOk(s', s'.jobs[newJobId])
    ensures RunOk(s', r) && JobOk(s', newJobId)
  {}

  lemma RunFacts(s: Snapshot, r: RunId)
    requires Inv(s) && r in s.runs
    ensures RunOk(s, r) && s.runs[r].id == r && OutcomeOk(s.runs[r])
    ensures s.runs[r].state.RunWaitingHuman? ==>
              s.runs[r].taskId in s.tasks && s.tasks[s.runs[r].taskId].runId == r && s.tasks[s.runs[r].taskId].state.TaskPending?
  {}

  lemma ResumeKeeps(s: Snapshot, taskId: TaskId, resume: Json, newJobId: JobId, now: Time)
    requires Inv(s) && FreshJobId(s, newJobId) && ResumeTask(s, taskId, resume, newJobId, now).Success?
    ensures Inv(ResumeTask(s, taskId, resume, newJobId, now).value)
  {
    hide JobOk, RunOk, Replay, ClaimLog, LeaseOk, Trim;
    var s' := ResumeTask(s, taskId, resume, newJobId, now).value;
    TaskHasRun(s, taskId);
    var r := s.tasks[taskId].runId;
    RunFacts(s, r);
    QuietIdle(s, r, newJobId);
    var text := if resume.text == "" then "{}" else resume.text;
    EnqueuedLocal(s, s', r, Resumed(s.runs[r].input, taskId, text), newJobId, EvTaskResumed(taskId, newJobId), now);
    PutKeeps(s, s', r, newJobId, {taskId}, EvTaskResumed(taskId, newJobId), now);
  }

  lemma RetryKeeps(s: Snapshot, r: RunId, newJobId: JobId, now: Time)
    requires Inv(s) && FreshJobId(s, newJobId) && RetryRun(s, r, newJobId, now).Success?
    ensures Inv(RetryRun(s, r, newJobId, now).value)
  {
    hide JobOk, TaskOk, RunOk, Replay, ClaimLog, LeaseOk, Trim;
    var s' := RetryRun(s, r, newJobId, now).value;
    RunFacts(s, r);
    QuietIdle(s, r, newJobId);
    EnqueuedLocal(s, s', r, Caller(s.runs[r].input), newJobId, EvRunRetried(newJobId), now);
    PutKeeps(s, s', r, newJobId, {}, EvRunRetried(newJobId), now);
  }

  lemma {:induction false} FirstIsNonEmpty(values: seq<string>)
    requires exists i :: 0 <= i < |values| && values[i] != ""
    ensures FirstNonEmpty(values) != ""
  {
    if values[0] == "" {
      var i :| 0 <= i < |values| && values[i] != "";
      assert values[1..][i - 1] != "";
      FirstIsNonEmpty(values[1..]);
    }
  }

  /** Somebody always answers for a cancellation. */
  lemma ActorIsNamed(job: Job, run: Run, actor: string)
    ensures CancelActor(job, run, actor) != ""
  {
    hide Trim;
    var values := [Trim(actor), Trim(run.permissionedAs), Trim(run.createdBy),
                   Trim(job.payload.permissionedAs), Trim(job.payload.createdBy), "system"];
    assert values[5] != "";
    FirstIsNonEmpty(values);
  }

  lemma CancelJobKeeps(s: Snapshot, workspace: string, j: JobId, actor: string, reason: string, now: Time)
    requires Inv(s) && CancelJob(s, workspace, j, actor, reason, now).Success?
    ensures Inv(CancelJob(s, workspace, j, actor, reason, now).value)
  {
    hide Inv, RunOk, JobOk, TaskOk, Replay, ClaimLog, ApplyCanceled, CancelActor, JobWorkspace, NormalizeWorkspace;
    var outcome := CancelOutcome(s, workspace, j).value;
    if outcome.found && !outcome.alreadyCompleted {
      Facts(s, j);
      ActorIsNamed(s.jobs[j], s.runs[s.jobs[j].runId], actor);
      if outcome.softCanceled {
        forall k | k in s.jobs ensures LeaseOk(s.jobs[k]) && s.jobs[k].id == k { Facts(s, k); }
        TouchJobsKeeps(s, CancelJob(s, workspace, j, actor, reason, now).value);
      } else {
        CancelKeeps(s, j, CancelActor(s.jobs[j], s.runs[s.jobs[j].runId], actor), reason, CANCEL_BEFORE, now);
      }
    }
  }

  /** Jobs and tasks that CancelRun stops, one at a time. */
  lemma {:induction false} StoppedLocal(s: Snapshot, s': Snapshot, r: RunId, j: JobId)
    requires j in s.jobs && JobOk(s, j) && j in s'.jobs && s.jobs[j].runId == r && r in s.runs && r in s'.runs && s'.runs[r].input == s.runs[r].input
    requires JobActive(s.jobs[j]) && ClaimLog(s'.events, j) == ClaimLog(s.events, j)
    requires s'.jobs[j].state.JobFailed? && s'.jobs[j].(state := JobFailed, leaseOwner := "", leaseExpiresAt := None, canceledReason := None, updatedAt := 0)
      == s.jobs[j].(state := JobFailed, leaseOwner := "", leaseExpiresAt := None, canceledReason := None, updatedAt := 0)
    requires s.jobs[j].canceledBy.Some? ==> s'.jobs[j].canceledReason.Some?
    requires forall t | t in s.tasks && !s.tasks[t].state.TaskPending? :: t in s'.tasks && s'.tasks[t] == s.tasks[t]
    ensures JobOk(s', j)
  {}

  lemma StoppedTaskOk(s: Snapshot, s': Snapshot, t: TaskId)
    requires Inv(s) && t in s.tasks && s.runs.Keys == s'.runs.Keys && t in s'.tasks
    requires s'.tasks[t] == s.tasks[t].(state := TaskExpired)
    ensures TaskOk(s', t)
  {}

  lemma StoppedRunOk(s: Snapshot, r: RunId, reason: string, now: Time)
    requires CancelRun(s, r, reason, now).Success? && Inv(s)
    ensures RunOk(CancelRun(s, r, reason, now).value, r) && s.runs[r].id == r
  {
    hide ClaimLog, Replay;
    assert RunOk(s, r);
    Appended(s.events, Event(s.sequence + 1, r, EvRunCanceled(reason), now));
  }

  lemma CancelRunTouches(s: Snapshot, r: RunId, reason: string, now: Time, J: set<JobId>, K: set<TaskId>)
    requires CancelRun(s, r, reason, now).Success?
    requires J == set k | k in s.jobs && s.jobs[k].runId == r && JobActive(s.jobs[k])
    requires K == set t | t in s.tasks && s.tasks[t].runId == r && s.tasks[t].state.TaskPending?
    ensures Touches(s, CancelRun(s, r, reason, now).value, {r}, J, K)
  {
    hide Replay, ClaimLog, Fold;
    Appended(s.events, Event(s.sequence + 1, r, EvRunCanceled(reason), now));
  }

  lemma CancelRunKeeps(s: Snapshot, r: RunId, reason: string, now: Time)
    requires Inv(s) && CancelRun(s, r, reason, now).Success?
    ensures Inv(CancelRun(s, r, reason, now).value)
  {
    hide RunOk, JobOk, TaskOk, Replay, ClaimLog, Fold, Touches;
    var s' := CancelRun(s, r, reason, now).value;
    StoppedRunOk(s, r, reason, now);
    var J := set k | k in s.jobs && s.jobs[k].runId == r && JobActive(s.jobs[k]);
    var K := set t | t in s.tasks && s.tasks[t].runId == r && s.tasks[t].state.TaskPending?;
    Appended(s.events, Event(s.sequence + 1, r, EvRunCanceled(reason), now));
    forall j | j in J ensures JobOk(s', j) { Facts(s, j); StoppedLocal(s, s', r, j); }
    forall t | t in K ensures TaskOk(s', t) { StoppedTaskOk(s, s', t); }
    CancelRunTouches(s, r, reason, now, J, K);
    Frame(s, s', {r}, J, K);
  }

  lemma ExpiredRunOk(s: Snapshot, stuckBefore: Time, now: Time, r: RunId)
    requires r in s.runs && RunOk(s, r) && Stuck(s, r, stuckBefore)
    ensures RunOk(Expire(s, stuckBefore, now), r)
  {}

  lemma ExpireKeeps(s: Snapshot, stuckBefore: Time, now: Time)
    requires Inv(s)
    ensures Inv(Expire(s, stuckBefore, now))
  {
    hide RunOk, JobOk, TaskOk, Replay, ClaimLog, ExpiryReason;
    var s' := Expire(s, stuckBefore, now);
    var R := set r | r in s.runs && Stuck(s, r, stuckBefore);
    var J := set j | j in s.jobs && Stuck(s, s.jobs[j].runId, stuckBefore) && JobActive(s.jobs[j]);
    forall r | r in R ensures RunOk(s', r) { ExpiredRunOk(s, stuckBefore, now, r); }
    forall j | j in J ensures JobOk(s', j) { Facts(s, j); StoppedLocal(s, s', s.jobs[j].runId, j); }
    ExpireTouches(s, stuckBefore, now, R, J);
    hide Touches, Stuck;
    Frame(s, s', R, J, {});
  }

  lemma ExpireTouches(s: Snapshot, stuckBefore: Time, now: Time, R: set<RunId>, J: set<JobId>)
    requires Inv(s)
    requires R == set r | r in s.runs && Stuck(s, r, stuckBefore)
    requires J == set j | j in s.jobs && Stuck(s, s.jobs[j].runId, stuckBefore) && JobActive(s.jobs[j])
    ensures Touches(s, Expire(s, stuckBefore, now), R, J, {})
  {
    hide RunOk, JobOk, TaskOk, Replay, ClaimLog, ExpiryReason;
    forall t | t in s.tasks && s.tasks[t].runId in R ensures !s.tasks[t].state.TaskPending? { if s.tasks[t].state.TaskPending? { PendingWaits(s, t); } }
    hide Inv;
  }

  lemma PendingWaits(s: Snapshot, t: TaskId)
    requires Inv(s) && t in s.tasks && s.tasks[t].state.TaskPending?
    ensures s.tasks[t].runId in s.runs && s.runs[s.tasks[t].runId].state.RunWaitingHuman? && s.runs[s.tasks[t].runId].taskId == t
  {}

  lemma {:induction false} KeepEventsView(events: seq<Event>, doomed: set<RunId>, r: RunId)
    requires r !in doomed
    ensures Replay(KeepEvents(events, doomed), r) == Replay(events, r)
  {
    if events != [] {
      var front, last := events[..|events| - 1], events[|events| - 1];
      KeepEventsView(front, doomed, r);
      Appended(KeepEvents(front, doomed), last);
      assert KeepEvents(front, doomed) + [] == KeepEvents(front, doomed);
    }
  }

  lemma {:induction false} KeepEventsClaims(events: seq<Event>, doomed: set<RunId>, j: JobId)
    requires forall i | 0 <= i < |ClaimLog(events, j)| :: ClaimLog(events, j)[i].runId !in doomed
    ensures ClaimLog(KeepEvents(events, doomed), j) == ClaimLog(events, j)
  {
    if events != [] {
      var front, last := events[..|events| - 1], events[|events| - 1];
      var claims := ClaimLog(front, j);
      assert claims <= ClaimLog(events, j);
      if last.body.EvJobClaimed? && last.body.jobId == j { assert ClaimLog(events, j)[|claims|] == last; }
      KeepEventsClaims(front, doomed, j);
      Appended(KeepEvents(front, doomed), last);
      assert KeepEvents(front, doomed) + [] == KeepEvents(front, doomed);
    }
  }

  lemma {:induction false} KeepEventsDropsClaims(events: seq<Event>, doomed: set<RunId>, j: JobId)
    requires forall i | 0 <= i < |ClaimLog(events, j)| :: ClaimLog(events, j)[i].runId in doomed
    ensures ClaimLog(KeepEvents(events, doomed), j) == []
  {
    if events != [] {
      var front, last := events[..|events| - 1], events[|events| - 1];
      var claims := ClaimLog(front, j);
      assert claims <= ClaimLog(events, j);
      if last.body.EvJobClaimed? && last.body.jobId == j { assert ClaimLog(events, j)[|claims|] == last; }
      KeepEventsDropsClaims(front, doomed, j);
      Appended(KeepEvents(front, doomed), last);
      assert KeepEvents(front, doomed) + [] == KeepEvents(front, doomed);
    }
  }

  predicate InOrder(events: seq<Event>) {
    forall i, k | 0 <= i < k < |events| :: events[i].id < events[k].id
  }

  /** Compaction keeps exactly the other runs' events, in their order. */
  lemma {:induction false} KeepEventsExact(events: seq<Event>, doomed: set<RunId>)
    requires InOrder(events)
    ensures forall e :: e in KeepEvents(events, doomed) <==> e in events && e.runId !in doomed
    ensures InOrder(KeepEvents(events, doomed))
  {
    if events != [] {
      var front, last := events[..|events| - 1], events[|events| - 1];
      assert InOrder(front);
      KeepEventsExact(front, doomed);
      assert events == front + [last];
      var kept := KeepEvents(front, doomed);
      forall i | 0 <= i < |kept| ensures kept[i].id < last.id {
        assert kept[i] in front;
        var k :| 0 <= k < |front| && front[k] == kept[i];
        assert events[k].id < last.id;
      }
      assert InOrder(kept + [last]);
      assert kept + [] == kept;
    }
  }

  lemma {:induction false} PrunedRunOk(s: Snapshot, s': Snapshot, doomed: set<RunId>, r: RunId)
    requires r in s.runs && RunOk(s, r) && r !in doomed && r in s'.runs && s'.runs[r] == s.runs[r]
    requires s'.jobs == s.jobs - JobsOf(s, doomed) && s'.tasks == (map t | t in s.tasks && s.tasks[t].runId !in doomed :: s.tasks[t])
    requires Replay(s'.events, r) == Replay(s.events, r)
    ensures RunOk(s', r)
  {}

  lemma {:induction false} PrunedJobOk(s: Snapshot, s': Snapshot, doomed: set<RunId>, j: JobId)
    requires j in s.jobs && JobOk(s, j) && s.jobs[j].runId !in doomed && j in s'.jobs && s'.jobs[j] == s.jobs[j]
    requires s'.runs == s.runs - doomed && s'.tasks == (map t | t in s.tasks && s.tasks[t].runId !in doomed :: s.tasks[t])
    requires Replay(s'.events, s.jobs[j].runId) == Replay(s.events, s.jobs[j].runId) && ClaimLog(s'.events, j) == ClaimLog(s.events, j)
    ensures JobOk(s', j)
  {}

  lemma {:induction false} ClaimsOfRun(s: Snapshot, j: JobId)
    requires Inv(s)
    ensures j !in s.jobs ==> ClaimLog(s.events, j) == []
    ensures j in s.jobs ==> forall i | 0 <= i < |ClaimLog(s.events, j)| :: ClaimLog(s.events, j)[i].runId == s.jobs[j].runId
  {}

  lemma PruneKeeps(s: Snapshot, successOlderThan: Time, failureOlderThan: Time)
    requires Inv(s)
    ensures Inv(Prune(s, successOlderThan, failureOlderThan))
  {
    hide RunOk, JobOk, TaskOk, Replay, ClaimLog, KeepEvents, Settled;
    var s' := Prune(s, successOlderThan, failureOlderThan);
    var doomed := Settled(s, successOlderThan, failureOlderThan);
    KeepEventsExact(s.events, doomed);
    forall i | 0 <= i < |s'.events| ensures 0 < s'.events[i].id <= s'.sequence && s'.events[i].runId in s'.runs {
      assert s'.events[i] in s.events;
    }
    assert EventsOk(s');
    forall j {:trigger ClaimLog(s'.events, j)} ensures j !in s'.jobs ==> ClaimLog(s'.events, j) == [] {
      ClaimsOfRun(s, j);
      if j !in s'.jobs { KeepEventsDropsClaims(s.events, doomed, j); }
    }
    forall r | r in s'.runs ensures RunOk(s', r) {
      KeepEventsView(s.events, doomed, r);
      PrunedRunOk(s, s', doomed, r);
    }
    forall j | j in s'.jobs ensures JobOk(s', j) {
      Facts(s, j);
      ClaimsOfRun(s, j);
      KeepEventsView(s.events, doomed, s.jobs[j].runId);
      KeepEventsClaims(s.events, doomed, j);
      PrunedJobOk(s, s', doomed, j);
    }
    forall t | t in s'.tasks ensures TaskOk(s', t) { PrunedTaskOk(s, s', doomed, t); }
    assert ClaimsKnown(s');
  }

  lemma PrunedTaskOk(s: Snapshot, s': Snapshot, doomed: set<RunId>, t: TaskId)
    requires Inv(s) && t in s.tasks && s.tasks[t].runId !in doomed && t in s'.tasks && s'.tasks[t] == s.tasks[t]
    requires s'.runs == s.runs - doomed
    ensures TaskOk(s', t)
  {}

  lemma RetagKeeps(s: Snapshot, spec: RetagSpec, now: Time)
    requires Inv(s)
    ensures Inv(Retag(s, spec, now))
  {
    hide Inv, Replay, ClaimLog, RunOk, JobOk, TaskOk, Retags;
    forall j | j in s.jobs ensures LeaseOk(s.jobs[j]) { Facts(s, j); }
    TouchJobsKeeps(s, Retag(s, spec, now));
  }

  lemma LogsKeep(s: Snapshot, s': Snapshot)
    requires Inv(s) && s' == s.(logs := s'.logs) && s'.logs.Keys <= s.jobs.Keys
    ensures Inv(s')
  {
    hide Replay, ClaimLog, RunOk, LeaseOk;
    forall r | r in s.runs ensures RunOk(s', r) { SameRunOk(s, s', r); }
    forall j | j in s.jobs ensures JobOk(s', j) { assert JobOk(s, j); }
    forall t | t in s.tasks ensures TaskOk(s', t) { assert TaskOk(s, t); }
  }

  lemma ClaimKeeps(s: Snapshot, op: Op, now: Time)
    requires Inv(s) && op.OpClaim? && Enabled(s, op, now)
    ensures Inv(Next(s, op, now))
  {
    hide Inv, RequeueAll, Assign;
    RequeueAllKeeps(s, op.order, now);
    if op.pick.Some? {
      AssignKeeps(RequeueAll(s, op.order, now), op.pick.value, op.worker, now + EffectiveTtl(op.ttl), now);
    }
  }

  /** The invariant survives every operation a caller may issue. */
  lemma NextKeeps(s: Snapshot, op: Op, now: Time)
    requires Inv(s) && Enabled(s, op, now)
    ensures Inv(Next(s, op, now))
  {
    hide Inv, CreateRun, CompleteSucceeded, CompleteFailed, CompleteWaitingHuman, ResumeTask, CancelJob, CancelRun, RetryRun, Claim;
    if Attempt(s, op, now).Success? {
      match op
      case OpCreate(run, job) => CreateKeeps(s, run, job, now);
      case OpClaim(_, _, _, _, _, _) => ClaimKeeps(s, op, now);
      case OpHeartbeat(lease, ttl) => HeartbeatKeeps(s, lease, ttl, now);
      case OpSucceed(lease, result) => SucceedKeeps(s, lease, result, now);
      case OpFail(lease, result) => FailKeeps(s, lease, result, now);
      case OpWait(lease, result, draft, freshTaskId) => WaitKeeps(s, lease, result, draft, freshTaskId, now);
      case OpResume(taskId, resume, newJobId) => ResumeKeeps(s, taskId, resume, newJobId, now);
      case OpCancelJob(workspace, jobId, actor, reason) => CancelJobKeeps(s, workspace, jobId, actor, reason, now);
      case OpCancelRun(runId, reason) => CancelRunKeeps(s, runId, reason, now);
      case OpRetry(runId, newJobId) => RetryKeeps(s, runId, newJobId, now);
      case OpPrune(successOlderThan, failureOlderThan) => PruneKeeps(s, successOlderThan, failureOlderThan);
      case OpExpire(stuckBefore) => ExpireKeeps(s, stuckBefore, now);
      case OpRetag(spec) => RetagKeeps(s, spec, now);
      case OpAppendLogs(jobId, chunk) => LogsKept(s, jobId, chunk, now);
    }
  }

  lemma LogsKept(s: Snapshot, jobId: JobId, chunk: string, now: Time)
    requires Inv(s) && AppendLogs(s, jobId, chunk).Success?
    ensures Inv(AppendLogs(s, jobId, chunk).value)
  {
    hide Replay, ClaimLog, RunOk, JobOk, TaskOk;
    LogsKeep(s, AppendLogs(s, jobId, chunk).value);
  }
}
