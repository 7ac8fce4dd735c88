/** What one step can do to the jobs and runs that exist already. */
module JobEvolution {
  import opened Text
  import opened JobModel
  import opened JobSteps
  import opened JobInvariant
  import opened JobPreservation

  /** What never happens to a job record: it is not revived, its attempts do not repeat, a cancellation stays. */
  predicate Evolves(a: Job, b: Job) {
    && a.id == b.id && a.runId == b.runId && a.createdAt == b.createdAt && a.attempt <= b.attempt
    && a.payload.(tag := "") == b.payload.(tag := "")
    && (!JobActive(a) ==> b == a)
    && (a.canceledBy.Some? ==> b.canceledBy.Some?)
    && (b.state.JobRunning? && b.attempt == a.attempt ==> a.state.JobRunning? && a.leaseOwner == b.leaseOwner)
  }

  lemma EvolvesOn(a: Job, b: Job, c: Job)
    requires Evolves(a, b) && Evolves(b, c)
    ensures Evolves(a, c)
  {}

  /** A step that hands out no job: nothing starts running and the claims on record stay. */
  predicate Calm(s: Snapshot, s': Snapshot, j: JobId)
    requires j in s'.jobs
  {
    && (j !in s.jobs ==> s'.jobs[j].state.JobQueued? && s'.jobs[j].attempt == 0)
    && (j in s.jobs ==>
          && Evolves(s.jobs[j], s'.jobs[j]) && s'.jobs[j].attempt == s.jobs[j].attempt
          && ClaimLog(s'.events, j) == ClaimLog(s.events, j))
  }

  ghost predicate AllCalm(s: Snapshot, s': Snapshot) {
    forall j | j in s'.jobs :: Calm(s, s', j)
  }

  lemma CalmPut(s: Snapshot, s': Snapshot, j: JobId, r: RunId, body: EventBody, now: Time)
    requires Inv(s) && j in s'.jobs && s'.jobs == s.jobs[j := s'.jobs[j]]
    requires s'.events == s.events + [Event(s.sequence + 1, r, body, now)] && !body.EvJobClaimed?
    requires if j in s.jobs then Evolves(s.jobs[j], s'.jobs[j]) && s'.jobs[j].attempt == s.jobs[j].attempt
             else s'.jobs[j].state.JobQueued? && s'.jobs[j].attempt == 0
    ensures AllCalm(s, s')
  {
    hide Inv, ClaimLog, Replay;
    Appended(s.events, Event(s.sequence + 1, r, body, now));
  }

  lemma CalmCreate(s: Snapshot, run: Run, job: Job, now: Time)
    requires Inv(s) && FreshRecords(run, job) && CreateRun(s, run, job, now).Success?
    ensures AllCalm(s, CreateRun(s, run, job, now).value)
  {
    hide ClaimLog, Replay, RunOk, JobOk, TaskOk;
    CreatedLocal(s, run, job, now);
  }

  lemma CalmCancel(s: Snapshot, j: JobId, actor: string, reason: string, message: string, now: Time)
    requires Inv(s) && j in s.jobs && s.jobs[j].runId in s.runs && JobActive(s.jobs[j])
    ensures AllCalm(s, ApplyCanceled(s, s.jobs[j], s.runs[s.jobs[j].runId], actor, reason, message, now))
  {
    hide Inv, RunOk, JobOk;
    Facts(s, j);
    CalmPut(s, ApplyCanceled(s, s.jobs[j], s.runs[s.jobs[j].runId], actor, reason, message, now), j,
            s.jobs[j].runId, EvJobCanceled(j, actor, reason), now);
  }

  lemma CalmRequeue(s: Snapshot, j: JobId, now: Time)
    requires Inv(s) && j in s.jobs
    ensures AllCalm(s, RequeueOne(s, j, now))
  {
    hide Inv, RunOk, JobOk, ClaimLog, Replay;
    Facts(s, j);
    var job := s.jobs[j];
    if LeaseLapsed(job, now) {
      if job.canceledBy.Some? {
        CalmCancel(s, j, job.canceledBy.value, ReasonValue(job), CANCEL_WORKER_LOST, now);
      } else {
        CalmPut(s, RequeueOne(s, j, now), j, job.runId, EvLeaseExpired(j), now);
      }
    }
  }

  lemma {:induction false} CalmRequeueAll(s: Snapshot, order: seq<JobId>, now: Time)
    requires Inv(s)
    ensures AllCalm(s, RequeueAll(s, order, now))
  {
    hide Inv, RunOk, JobOk, ClaimLog, Replay, RequeueOne;
    if order != [] {
      var front, id := order[..|order| - 1], order[|order| - 1];
      CalmRequeueAll(s, front, now);
      RequeueAllKeeps(s, front, now);
      var mid := RequeueAll(s, front, now);
      if id in mid.jobs {
        CalmRequeue(mid, id, now);
        RequeueKeepsKeys(mid, id, now);
        forall j | j in s.jobs ensures Calm(s, RequeueOne(mid, id, now), j) {
          assert Calm(s, mid, j) && Calm(mid, RequeueOne(mid, id, now), j);
          EvolvesOn(s.jobs[j], mid.jobs[j], RequeueOne(mid, id, now).jobs[j]);
        }
      }
    }
  }

  lemma RequeueKeepsKeys(s: Snapshot, j: JobId, now: Time)
    requires Inv(s) && j in s.jobs
    ensures RequeueOne(s, j, now).jobs.Keys == s.jobs.Keys
  {
    hide Inv, RunOk, JobOk, ClaimLog, Replay;
    Facts(s, j);
  }

  lemma CalmComplete(s: Snapshot, op: Op, now: Time)
    requires Inv(s) && (op.OpSucceed? || op.OpFail? || op.OpWait?) && Attempt(s, op, now).Success?
    ensures AllCalm(s, Next(s, op, now))
  {
    hide Inv, RunOk, JobOk, ClaimLog, Replay, FailureMessage, ApplyCanceled;
    var j := op.lease.jobId;
    Facts(s, j);
    var job, s' := s.jobs[j], Next(s, op, now);
    if job.canceledBy.Some? {
      CalmCancel(s, j, job.canceledBy.value, ReasonValue(job), CANCEL_DURING, now);
    } else {
      match op
      case OpSucceed(_, _) => CalmPut(s, s', j, job.runId, EvRunSucceeded(j), now);
      case OpFail(_, result) => CalmPut(s, s', j, job.runId, EvRunFailed(j, FailureMessage(result), result.exitCode), now);
      case OpWait(_, _, draft, freshId) =>
        CalmPut(s, s', j, job.runId, EvTaskCreated(j, FillTask(draft, s.runs[job.runId], freshId, now).id), now);
    }
  }

  lemma CalmResume(s: Snapshot, taskId: TaskId, resume: Json, newJobId: JobId, now: Time)
    requires Inv(s) && FreshJobId(s, newJobId) && ResumeTask(s, taskId, resume, newJobId, now).Success?
    ensures AllCalm(s, ResumeTask(s, taskId, resume, newJobId, now).value)
  {
    hide Inv, RunOk, JobOk, TaskOk, ClaimLog, Replay, Trim;
    TaskHasRun(s, taskId);
    RunFacts(s, s.tasks[taskId].runId);
    CalmPut(s, ResumeTask(s, taskId, resume, newJobId, now).value, newJobId, s.tasks[taskId].runId, EvTaskResumed(taskId, newJobId), now);
  }

  lemma CalmRetry(s: Snapshot, r: RunId, newJobId: JobId, now: Time)
    requires Inv(s) && FreshJobId(s, newJobId) && RetryRun(s, r, newJobId, now).Success?
    ensures AllCalm(s, RetryRun(s, r, newJobId, now).value)
  {
    hide Inv, RunOk, JobOk, TaskOk, ClaimLog, Replay, Trim;
    RunFacts(s, r);
    CalmPut(s, RetryRun(s, r, newJobId, now).value, newJobId, r, EvRunRetried(newJobId), now);
  }

  lemma CalmCancelJob(s: Snapshot, workspace: string, j: JobId, actor: string, reason: string, now: Time)
    requires Inv(s) && CancelJob(s, workspace, j, actor, reason, now).Success?
    ensures AllCalm(s, CancelJob(s, workspace, j, actor, reason, now).value)
  {
    hide Inv, RunOk, JobOk, TaskOk, ClaimLog, Replay, ApplyCanceled, CancelActor, JobWorkspace, NormalizeWorkspace;
    var outcome := CancelOutcome(s, workspace, j).value;
    if outcome.found && !outcome.alreadyCompleted {
      Facts(s, j);
      if !outcome.softCanceled {
        CalmCancel(s, j, CancelActor(s.jobs[j], s.runs[s.jobs[j].runId], actor), reason, CANCEL_BEFORE, now);
      }
    }
  }

  lemma CalmCancelRun(s: Snapshot, r: RunId, reason: string, now: Time)
    requires CancelRun(s, r, reason, now).Success?
    ensures AllCalm(s, CancelRun(s, r, reason, now).value)
  {}

  lemma CalmPrune(s: Snapshot, successOlderThan: Time, failureOlderThan: Time)
    requires Inv(s)
    ensures AllCalm(s, Prune(s, successOlderThan, failureOlderThan))
  {
    hide Inv, RunOk, JobOk, ClaimLog, Replay, KeepEvents, Settled;
    var s' := Prune(s, successOlderThan, failureOlderThan);
    var doomed := Settled(s, successOlderThan, failureOlderThan);
    forall j | j in s'.jobs ensures Calm(s, s', j) {
      ClaimsOfRun(s, j);
      KeepEventsClaims(s.events, doomed, j);
    }
  }

  /** Apart from a claim, every operation is calm. */
  lemma CalmStep(s: Snapshot, op: Op, now: Time)
    requires Inv(s) && Enabled(s, op, now) && !op.OpClaim?
    ensures AllCalm(s, Next(s, op, now))
  {
    hide Inv, CreateRun, CompleteSucceeded, CompleteFailed, CompleteWaitingHuman, ResumeTask, CancelJob, CancelRun, RetryRun, Claim, Prune, ClaimLog;
    if Attempt(s, op, now).Success? {
      match op
      case OpCreate(run, job) => CalmCreate(s, run, job, now);
      case OpHeartbeat(lease, _) => if HoldsLease(s, lease) { Facts(s, lease.jobId); }
      case OpSucceed(_, _) => CalmComplete(s, op, now);
      case OpFail(_, _) => CalmComplete(s, op, now);
      case OpWait(_, _, _, _) => CalmComplete(s, op, now);
      case OpResume(taskId, resume, newJobId) => CalmResume(s, taskId, resume, newJobId, now);
      case OpCancelJob(workspace, jobId, actor, reason) => CalmCancelJob(s, workspace, jobId, actor, reason, now);
      case OpCancelRun(runId, reason) => CalmCancelRun(s, runId, reason, now);
      case OpRetry(runId, newJobId) => CalmRetry(s, runId, newJobId, now);
      case OpPrune(successOlderThan, failureOlderThan) => CalmPrune(s, successOlderThan, failureOlderThan);
      case OpExpire(stuckBefore) => CalmExpire(s, stuckBefore, now);
      case OpRetag(spec) => CalmRetag(s, spec, now);
      case OpAppendLogs(_, _) =>
    }
  }

  lemma CalmExpire(s: Snapshot, stuckBefore: Time, now: Time)
    ensures AllCalm(s, Expire(s, stuckBefore, now))
  {}

  lemma CalmRetag(s: Snapshot, spec: RetagSpec, now: Time)
    ensures AllCalm(s, Retag(s, spec, now))
  {}

  /** The one job a claim hands out gets the next attempt; everything else is calm. */
  lemma {:induction false} HandsOut(s: Snapshot, j: JobId, worker: string, expiresAt: Time, now: Time)
    requires Inv(s) && j in s.jobs && s.jobs[j].state.JobQueued?
    ensures var s' := Assign(s, j, worker, expiresAt, now);
      && s'.jobs == s.jobs[j := s'.jobs[j]] && Evolves(s.jobs[j], s'.jobs[j]) && s'.jobs[j].attempt == s.jobs[j].attempt + 1
      && s'.jobs[j].state.JobRunning? && s'.jobs[j].leaseOwner == worker
      && (forall k | k in s.jobs && k != j :: ClaimLog(s'.events, k) == ClaimLog(s.events, k))
      && ClaimLog(s'.events, j) == ClaimLog(s.events, j) + [Event(s'.sequence, s.jobs[j].runId, EvJobClaimed(j, worker, s.jobs[j].attempt + 1), now)]
      && s'.sequence > s.sequence
  {
    hide Inv, RunOk, JobOk, ClaimLog, Replay;
    Facts(s, j);
    AssignSplits(s, j, worker, expiresAt, now);
    var s1 := MarkRunning(s, j, now);
    Appended(s.events, Event(s.sequence + 1, s.jobs[j].runId, EvRunRunning(j), now));
    Appended(s1.events, Event(s1.sequence + 1, s.jobs[j].runId, EvJobClaimed(j, worker, s.jobs[j].attempt + 1), now));
  }

  /** No step revives a settled job, repeats an attempt or forgets a cancellation. */
  lemma JobsEvolve(s: Snapshot, op: Op, now: Time)
    requires Inv(s) && Enabled(s, op, now)
    ensures forall j | j in s.jobs && j in Next(s, op, now).jobs :: Evolves(s.jobs[j], Next(s, op, now).jobs[j])
    ensures forall j | j !in s.jobs && j in Next(s, op, now).jobs ::
              Next(s, op, now).jobs[j].state.JobQueued? && Next(s, op, now).jobs[j].attempt == 0
  {
    var s' := Next(s, op, now);
    if op.OpClaim? {
      ClaimEvolves(s, op, now);
    } else {
      CalmStep(s, op, now);
      CalmMeans(s, s');
    }
  }

  lemma CalmMeans(s: Snapshot, s': Snapshot)
    requires AllCalm(s, s')
    ensures forall j | j in s.jobs && j in s'.jobs :: Evolves(s.jobs[j], s'.jobs[j])
    ensures forall j | j !in s.jobs && j in s'.jobs :: s'.jobs[j].state.JobQueued? && s'.jobs[j].attempt == 0
  {}

  lemma ClaimEvolves(s: Snapshot, op: Op, now: Time)
    requires Inv(s) && Enabled(s, op, now) && op.OpClaim?
    ensures forall j | j in s.jobs :: j in Next(s, op, now).jobs && Evolves(s.jobs[j], Next(s, op, now).jobs[j])
    ensures Next(s, op, now).jobs.Keys == s.jobs.Keys
  {
    hide Inv, RunOk, JobOk, ClaimLog, Replay, RequeueAll, Assign, CapReached, ClaimAllowed, ClaimedBefore;
    if op.pick.Some? {
      var s1, s' := RequeueAll(s, op.order, now), Next(s, op, now);
      RequeueAllKeeps(s, op.order, now);
      CalmRequeueAll(s, op.order, now);
      HandsOut(s1, op.pick.value, op.worker, now + EffectiveTtl(op.ttl), now);
      forall j | j in s.jobs ensures j in s'.jobs && Evolves(s.jobs[j], s'.jobs[j]) {
        assert Calm(s, s1, j);
        EvolvesOn(s.jobs[j], s1.jobs[j], s'.jobs[j]);
      }
    }
  }
}
