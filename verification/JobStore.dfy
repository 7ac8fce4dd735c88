/** LocalStore itself: the operations as they change its records in place (internal/state/local_store.go). */
module JobStore {
  import opened Wrappers
  import opened Text
  import opened Sorting
  import opened JobModel
  import opened JobSteps
  import opened JobInvariant
  import opened JobPreservation
  import opened JobCap
  import opened JobOutcomes

  /** Commit what the step function says, or report its error and change nothing. */
  ghost predicate Outcome(before: Snapshot, step: Step, after: Snapshot, err: Option<StoreError>) {
    match step
    case Success(s') => err.None? && after == s'
    case Failure(e) => err == Some(e) && after == before
  }

  lemma ClaimOrderIsWeak()
    ensures StrictWeak(ClaimedBefore)
  {
    forall a: Job, b: Job ensures ClaimedBefore(a, b) ==> !ClaimedBefore(b, a) { LessIsTotal(a.id, b.id); }
    forall a: Job, b: Job, c: Job | !ClaimedBefore(b, a) && !ClaimedBefore(c, b) ensures !ClaimedBefore(c, a) {
      LessIsTotal(a.id, b.id);
      LessIsTotal(b.id, c.id);
      LessIsTotal(a.id, c.id);
      if Less(a.id, b.id) && Less(b.id, c.id) { LessIsTransitive(a.id, b.id, c.id); }
    }
  }

  /** The in-place filter of PruneSettledJobs: kept events slide to the front of the same buffer. */
  method CompactEvents(buffer: array<Event>, doomed: set<RunId>) returns (kept: nat)
    modifies buffer
    ensures kept <= buffer.Length
    ensures buffer[..kept] == KeepEvents(old(buffer[..]), doomed)
  {
    kept := 0;
    for i := 0 to buffer.Length
      invariant kept <= i
      invariant buffer[i..] == old(buffer[i..])
      invariant buffer[..kept] == KeepEvents(old(buffer[..i]), doomed)
    {
      var event := buffer[i];
      assert event == old(buffer[i]);
      assert old(buffer[..i + 1]) == old(buffer[..i]) + [event];
      assert old(buffer[i..])[1..] == old(buffer[i + 1..]);
      if event.runId !in doomed {
        buffer[kept] := event;
        kept := kept + 1;
        assert buffer[..kept] == buffer[..kept - 1] + [event];
      }
      assert buffer[i + 1..] == old(buffer[i + 1..]);
    }
    assert old(buffer[..buffer.Length]) == old(buffer[..]);
  }

  method NormalizeTags(tags: seq<string>) returns (normalized: set<string>)
    ensures normalized == NormalizeClaimTags(tags)
    ensures "" !in normalized
  {
    normalized := {};
    for i := 0 to |tags|
      invariant normalized == NormalizeClaimTags(tags[..i])
      invariant "" !in normalized
    {
      assert tags[..i + 1] == tags[..i] + [tags[i]];
      var tag := Trim(tags[i]);
      if tag != "" {
        normalized := normalized + {tag};
      }
    }
    assert tags[..|tags|] == tags;
  }

  class LocalStore {
    var runs: map<RunId, Run>
    var jobs: map<JobId, Job>
    var tasks: map<TaskId, HumanTask>
    var events: seq<Event>
    var sequence: nat
    var logs: map<JobId, string>

    ghost function Snap(): Snapshot
      reads this
    {
      Snapshot(runs, jobs, tasks, events, sequence, logs)
    }

    ghost predicate Valid()
      reads this
    {
      Inv(Snap()) && CapInv(Snap())
    }

    constructor ()
      ensures Valid() && Snap() == EMPTY
    {
      runs, jobs, tasks, events, sequence, logs := map[], map[], map[], [], 0, map[];
    }

    /** What a committed or discarded call leaves behind. */
    lemma StaysValid(before: Snapshot, op: Op, now: Time)
      requires Inv(before) && CapInv(before) && Enabled(before, op, now) && Snap() == Next(before, op, now)
      ensures Valid()
    {
      hide Inv, CapInv, Next, Enabled;
      NextKeeps(before, op, now);
      CapKeeps(before, op, now);
    }

    method Append(runId: RunId, body: EventBody, now: Time)
      modifies this
      ensures Snap() == AppendEvent(old(Snap()), runId, body, now)
    {
      sequence := sequence + 1;
      events := events + [Event(sequence, runId, body, now)];
    }

    method CreateRunAndEnqueue(newRun: Run, newJob: Job, now: Time) returns (err: Option<StoreError>)
      requires Valid() && FreshRecords(newRun, newJob)
      modifies this
      ensures Valid() && Outcome(old(Snap()), CreateRun(old(Snap()), newRun, newJob, now), Snap(), err)
    {
      hide Inv, CapInv, FreshRecords;
      if newRun.id in runs || newJob.id in jobs {
        return Some(Conflict);
      }
      var run := newRun.(createdAt := NonZeroTime(newRun.createdAt, now), updatedAt := now);
      var job := newJob.(createdAt := NonZeroTime(newJob.createdAt, now), updatedAt := now);
      runs := runs[run.id := run];
      jobs := jobs[job.id := job];
      Append(run.id, EvRunCreated(run.app, run.action), now);
      Append(run.id, EvJobEnqueued(job.id), now);
      err := None;
      StaysValid(old(Snap()), OpCreate(newRun, newJob), now);
    }

    method ApplyCanceledJob(job: Job, run: Run, actor: string, reason: string, message: string, now: Time)
      modifies this
      ensures Snap() == ApplyCanceled(old(Snap()), job, run, actor, reason, message, now)
    {
      var job' := job.(state := JobFailed, leaseExpiresAt := None, canceledBy := Some(actor), canceledReason := Some(reason), updatedAt := now);
      var run' := run.(state := RunCanceled, result := Some(CanceledResult(job', run, message)),
                       error := Some(JobStopped(message, actor, reason)), updatedAt := now);
      jobs := jobs[job.id := job'];
      runs := runs[run.id := run'];
      Append(run.id, EvJobCanceled(job.id, actor, reason), now);
    }

    method RequeueExpiredJobs(now: Time) returns (ghost order: seq<JobId>)
      requires Valid()
      modifies this
      ensures Enumerates(order, old(jobs.Keys))
      ensures Snap() == RequeueAll(old(Snap()), order, now) && Inv(Snap()) && jobs.Keys == old(jobs.Keys)
    {
      hide Inv, CapInv;
      order := [];
      var todo := jobs.Keys;
      while todo != {}
        invariant todo <= jobs.Keys == old(jobs.Keys)
        invariant Enumerates(order, old(jobs.Keys) - todo)
        invariant Inv(Snap()) && Snap() == RequeueAll(old(Snap()), order, now)
      {
        var id :| id in todo;
        ghost var before := Snap();
        Facts(before, id);
        RequeueKeeps(before, id, now);
        assert (order + [id])[..|order|] == order;
        var job := jobs[id];
        if job.state.JobRunning? && job.leaseExpiresAt.Some? && job.leaseExpiresAt.value <= now {
          if job.canceledBy.Some? {
            if job.runId in runs {
              ApplyCanceledJob(job, runs[job.runId], job.canceledBy.value, ReasonValue(job), CANCEL_WORKER_LOST, now);
            }
          } else {
            jobs := jobs[id := job.(state := JobQueued, leaseOwner := "", leaseExpiresAt := None, startedAt := None, updatedAt := now)];
            Append(job.runId, EvLeaseExpired(job.id), now);
          }
        }
        assert Snap() == RequeueOne(before, id, now);
        order := order + [id];
        todo := todo - {id};
      }
    }

    method MaxConcurrentReached(candidate: Job) returns (reached: bool)
      ensures reached == CapReached(jobs, candidate)
    {
      hide JobWorkspace, JobAppKey, JobMaxConcurrent;
      var limit := JobMaxConcurrent(candidate);
      if limit.None? || JobAppKey(candidate) == "" {
        return false;
      }
      var running := 0;
      var todo := jobs.Keys;
      while todo != {}
        invariant todo <= jobs.Keys
        invariant running == |RunningPeers(jobs, candidate) - todo|
      {
        var id :| id in todo;
        CountOne(RunningPeers(jobs, candidate), todo, id);
        var job := jobs[id];
        if job.state.JobRunning? && JobWorkspace(job) == JobWorkspace(candidate) && JobAppKey(job) == JobAppKey(candidate) {
          running := running + 1;
        }
        todo := todo - {id};
      }
      assert RunningPeers(jobs, candidate) - {} == RunningPeers(jobs, candidate);
      return running >= limit.value;
    }

    /** The queued jobs a worker may take, in claim order. */
    method Candidates(tags: set<string>, labels: set<string>) returns (sorted: seq<Job>)
      requires forall id | id in jobs :: jobs[id].id == id
      ensures SortedBy(sorted, ClaimedBefore) && Distinct(sorted)
      ensures forall job :: job in sorted <==> (job.id in jobs && jobs[job.id] == job && job.state.JobQueued? && ClaimAllowed(job, tags, labels))
    {
      hide ClaimAllowed, ClaimedBefore;
      var found: seq<Job> := [];
      var todo := jobs.Keys;
      while todo != {}
        invariant todo <= jobs.Keys
        invariant Distinct(found)
        invariant forall job :: job in found <==>
          (job.id in jobs && job.id !in todo && jobs[job.id] == job && job.state.JobQueued? && ClaimAllowed(job, tags, labels))
      {
        var id :| id in todo;
        if jobs[id].state.JobQueued? && ClaimAllowed(jobs[id], tags, labels) {
          found := found + [jobs[id]];
        }
        todo := todo - {id};
      }
      sorted := Sort(found, ClaimedBefore);
      ClaimOrderIsWeak();
      ghost var members := set job | job in found;
      SortEnumeration(found, members, ClaimedBefore);
    }

    /** The first candidate whose cap is not reached is the pick. */
    method Pick(tags: set<string>, labels: set<string>) returns (pick: Option<JobId>)
      requires forall id | id in jobs :: jobs[id].id == id
      ensures IsPick(Snap(), tags, labels, pick)
    {
      hide ClaimAllowed, ClaimedBefore, CapReached;
      var sorted := Candidates(tags, labels);
      for i := 0 to |sorted|
        invariant forall k | 0 <= k < i :: CapReached(jobs, sorted[k])
      {
        var reached := MaxConcurrentReached(sorted[i]);
        if !reached {
          var chosen := sorted[i];
          forall k | Claimable(Snap(), tags, labels, k) && k != chosen.id ensures ClaimedBefore(chosen, jobs[k]) {
            assert jobs[k] in sorted;
            var m :| 0 <= m < |sorted| && sorted[m] == jobs[k];
            ClaimOrderIsStrict(chosen, jobs[k]);
          }
          assert chosen in sorted;
          return Some(chosen.id);
        }
      }
      forall k ensures !Claimable(Snap(), tags, labels, k) {
        if k in jobs && jobs[k].state.JobQueued? && ClaimAllowed(jobs[k], tags, labels) {
          assert jobs[k] in sorted;
          var m :| 0 <= m < |sorted| && sorted[m] == jobs[k];
        }
      }
      return None;
    }

    method AssignJob(id: JobId, worker: string, ttl: int, now: Time) returns (lease: Lease)
      requires id in jobs && jobs[id].id == id
      modifies this
      ensures Snap() == Assign(old(Snap()), id, worker, now + EffectiveTtl(ttl), now)
      ensures lease == Lease(id, worker, now + EffectiveTtl(ttl), old(jobs[id]).attempt + 1, now)
      ensures HoldsLease(Snap(), lease)
    {
      var expiresAt := now + EffectiveTtl(ttl);
      var job := jobs[id].(state := JobRunning, attempt := jobs[id].attempt + 1, leaseOwner := worker,
                           leaseExpiresAt := Some(expiresAt), startedAt := Some(now), updatedAt := now);
      jobs := jobs[job.id := job];
      if job.runId in runs {
        var run := runs[job.runId];
        if run.state.RunQueued? || run.state.RunResuming? {
          runs := runs[run.id := run.(state := RunRunning, updatedAt := now)];
          Append(run.id, EvRunRunning(job.id), now);
        }
      }
      Append(job.runId, EvJobClaimed(job.id, worker, job.attempt), now);
      lease := Lease(job.id, worker, expiresAt, job.attempt, now);
    }

    lemma PickIsNone(s: Snapshot, tags: set<string>, labels: set<string>, pick: Option<JobId>)
      requires IsPick(s, tags, labels, pick)
      ensures pick.None? <==> forall j :: !Claimable(s, tags, labels, j)
    {}

    /** ClaimJobForWorker: requeue what lapsed, hand out the pick, or discard everything. */
    method ClaimJobForWorker(workerId: string, freshWorkerId: string, tags: seq<string>, labels: seq<string>, ttl: int, now: Time)
      returns (lease: Option<Lease>, ghost order: seq<JobId>)
      requires Valid()
      modifies this
      ensures Valid()
      ensures Enumerates(order, old(jobs.Keys))
      ensures lease.None? <==> forall j :: !Claimable(RequeueAll(old(Snap()), order, now), NormalizeClaimTags(tags), NormalizeClaimTags(labels), j)
      ensures lease.None? ==> Snap() == old(Snap())
      ensures lease.Some? ==>
                && IsPick(RequeueAll(old(Snap()), order, now), NormalizeClaimTags(tags), NormalizeClaimTags(labels), Some(lease.value.jobId))
                && Snap() == Assign(RequeueAll(old(Snap()), order, now), lease.value.jobId, lease.value.workerId, lease.value.expiresAt, now)
                && HoldsLease(Snap(), lease.value)
                && lease.value.workerId == (if workerId == "" then freshWorkerId else workerId)
                && lease.value.expiresAt == now + EffectiveTtl(ttl)
    {
      hide Inv, CapInv, IsPick, RequeueAll, Assign, HoldsLease;
      var worker := if workerId == "" then freshWorkerId else workerId;
      var allowed := NormalizeTags(tags);
      var offered := NormalizeTags(labels);
      // The copy that is thrown away when nothing can be claimed.
      var runs0, jobs0, tasks0, events0, sequence0 := runs, jobs, tasks, events, sequence;
      order := RequeueExpiredJobs(now);
      ghost var requeued := Snap();
      forall id | id in jobs ensures jobs[id].id == id { Facts(requeued, id); }
      var pick := Pick(allowed, offered);
      ghost var op := OpClaim(order, pick, allowed, offered, worker, ttl);
      EnabledClaim(old(Snap()), op, now, requeued);
      PickIsNone(requeued, allowed, offered, pick);
      if pick.None? {
        runs, jobs, tasks, events, sequence := runs0, jobs0, tasks0, events0, sequence0;
        lease := None;
        RequeueKeepsLogs(old(Snap()), order, now);
      } else {
        PickedJob(requeued, allowed, offered, pick.value);
        var handed := AssignJob(pick.value, worker, ttl, now);
        lease := Some(handed);
        StaysValid(old(Snap()), op, now);
      }
    }

    /** The lease check every completion starts with. */
    method LeasedJobAndRun(lease: Lease, now: Time) returns (err: Option<StoreError>)
      ensures err == CompletionRefusal(Snap(), lease, now)
    {
      if lease.jobId !in jobs {
        return Some(NotFound);
      }
      var job := jobs[lease.jobId];
      if !job.state.JobRunning? || job.leaseOwner != lease.workerId || job.attempt != lease.attempt {
        return Some(InvalidLease);
      }
      if job.leaseExpiresAt.Some? && job.leaseExpiresAt.value < now {
        return Some(InvalidLease);
      }
      if job.runId !in runs {
        return Some(NotFound);
      }
      return None;
    }

    method HeartbeatJob(lease: Lease, ttl: int, now: Time)
      returns (stillOwned: bool, canceledBy: Option<string>, canceledReason: Option<string>)
      requires Valid()
      modifies this
      ensures Valid() && Snap() == Heartbeat(old(Snap()), lease, ttl, now)
      ensures stillOwned == HoldsLease(old(Snap()), lease)
      ensures stillOwned ==> canceledBy == old(jobs)[lease.jobId].canceledBy && canceledReason == old(jobs)[lease.jobId].canceledReason
      ensures !stillOwned ==> canceledBy.None? && canceledReason.None?
    {
      hide Inv, CapInv;
      stillOwned, canceledBy, canceledReason := false, None, None;
      if lease.jobId in jobs {
        var job := jobs[lease.jobId];
        if job.state.JobRunning? && job.leaseOwner == lease.workerId && job.attempt == lease.attempt {
          job := job.(leaseExpiresAt := Some(now + EffectiveTtl(ttl)), updatedAt := now);
          jobs := jobs[job.id := job];
          stillOwned, canceledBy, canceledReason := true, job.canceledBy, job.canceledReason;
        }
      }
      StaysValid(old(Snap()), OpHeartbeat(lease, ttl), now);
    }

    method CompleteJobSucceeded(lease: Lease, result: JobResult, now: Time) returns (err: Option<StoreError>)
      requires Valid()
      modifies this
      ensures Valid() && Outcome(old(Snap()), CompleteSucceeded(old(Snap()), lease, result, now), Snap(), err)
    {
      hide Inv, CapInv;
      err := LeasedJobAndRun(lease, now);
      if err.Some? { return; }
      var job, run := jobs[lease.jobId], runs[jobs[lease.jobId].runId];
      if job.canceledBy.Some? {
        ApplyCanceledJob(job, run, job.canceledBy.value, ReasonValue(job), CANCEL_DURING, now);
      } else {
        job := job.(state := JobSucceeded, leaseExpiresAt := None, updatedAt := now);
        run := run.(state := RunSucceeded, output := result.output, result := Some(result), error := None, taskId := "", updatedAt := now);
        jobs := jobs[job.id := job];
        runs := runs[run.id := run];
        Append(run.id, EvRunSucceeded(job.id), now);
      }
      StaysValid(old(Snap()), OpSucceed(lease, result), now);
    }

    method CompleteJobFailed(lease: Lease, result: JobResult, now: Time) returns (err: Option<StoreError>)
      requires Valid()
      modifies this
      ensures Valid() && Outcome(old(Snap()), CompleteFailed(old(Snap()), lease, result, now), Snap(), err)
    {
      hide Inv, CapInv;
      err := LeasedJobAndRun(lease, now);
      if err.Some? { return; }
      var job, run := jobs[lease.jobId], runs[jobs[lease.jobId].runId];
      if job.canceledBy.Some? {
        ApplyCanceledJob(job, run, job.canceledBy.value, ReasonValue(job), CANCEL_DURING, now);
      } else {
        var stored := result;
        if stored.error == "" && stored.exitCode != 0 {
          stored := stored.(error := "action exited with code " + Decimal(stored.exitCode));
        }
        job := job.(state := JobFailed, leaseExpiresAt := None, updatedAt := now);
        run := run.(state := RunFailed, result := Some(stored), error := Some(ActionFailed(stored.error, stored.exitCode)), updatedAt := now);
        jobs := jobs[job.id := job];
        runs := runs[run.id := run];
        Append(run.id, EvRunFailed(job.id, stored.error, stored.exitCode), now);
      }
      StaysValid(old(Snap()), OpFail(lease, result), now);
    }

    method CompleteJobWaitingHuman(lease: Lease, result: JobResult, draft: TaskDraft, freshTaskId: TaskId, now: Time)
      returns (err: Option<StoreError>)
      requires Valid() && Enabled(Snap(), OpWait(lease, result, draft, freshTaskId), now)
      modifies this
      ensures Valid() && Outcome(old(Snap()), CompleteWaitingHuman(old(Snap()), lease, result, draft, freshTaskId, now), Snap(), err)
    {
      hide Inv, CapInv;
      err := LeasedJobAndRun(lease, now);
      if err.Some? { return; }
      var job, run := jobs[lease.jobId], runs[jobs[lease.jobId].runId];
      if job.canceledBy.Some? {
        ApplyCanceledJob(job, run, job.canceledBy.value, ReasonValue(job), CANCEL_DURING, now);
      } else {
        var task := FillTask(draft, run, freshTaskId, now);
        if task.id in tasks {
          return Some(Conflict);
        }
        job := job.(state := JobSucceeded, leaseExpiresAt := None, updatedAt := now);
        run := run.(state := RunWaitingHuman, result := Some(result), error := None, taskId := task.id, updatedAt := now);
        jobs := jobs[job.id := job];
        runs := runs[run.id := run];
        tasks := tasks[task.id := task];
        Append(run.id, EvTaskCreated(job.id, task.id), now);
      }
      StaysValid(old(Snap()), OpWait(lease, result, draft, freshTaskId), now);
    }

    method ResumeHumanTask(taskId: TaskId, resume: Json, newJobId: JobId, now: Time) returns (err: Option<StoreError>)
      requires Valid() && FreshJobId(Snap(), newJobId)
      modifies this
      ensures Valid() && Outcome(old(Snap()), ResumeTask(old(Snap()), taskId, resume, newJobId, now), Snap(), err)
    {
      hide Inv, CapInv, Trim;
      if taskId !in tasks { return Some(NotFound); }
      var task := tasks[taskId];
      if !task.state.TaskPending? { return Some(InvalidState); }
      if task.runId !in runs { return Some(NotFound); }
      var run := runs[task.runId];
      if !run.state.RunWaitingHuman? { return Some(InvalidState); }
      if resume.Malformed? { return Some(InvalidJson); }
      var text := if resume.text == "" then "{}" else resume.text;
      task := task.(state := TaskCompleted, resumeInput := Some(text), completedAt := Some(now));
      run := run.(state := RunResuming, taskId := "", updatedAt := now);
      var job := NewActionJob(run, Resumed(run.input, task.id, text), newJobId, now);
      tasks := tasks[task.id := task];
      runs := runs[run.id := run];
      jobs := jobs[job.id := job];
      Append(run.id, EvTaskResumed(task.id, job.id), now);
      err := None;
      StaysValid(old(Snap()), OpResume(taskId, resume, newJobId), now);
    }

    method CancelOneJob(workspace: string, jobId: JobId, actor: string, reason: string, now: Time)
      returns (result: CancelResult, err: Option<StoreError>)
      requires Valid()
      modifies this
      ensures Valid() && Outcome(old(Snap()), CancelJob(old(Snap()), workspace, jobId, actor, reason, now), Snap(), err)
      ensures err.None? ==> CancelOutcome(old(Snap()), workspace, jobId) == Some(result)
    {
      hide Inv, CapInv, CancelActor, JobWorkspace, NormalizeWorkspace;
      result, err := CancelResult(false, false, false, false), None;
      if jobId !in jobs || JobWorkspace(jobs[jobId]) != NormalizeWorkspace(workspace) { return; }
      var job := jobs[jobId];
      if job.runId !in runs {
        err := Some(NotFound);
        return;
      }
      var run := runs[job.runId];
      result := result.(found := true);
      if IsTerminal(run.state) || job.state.JobSucceeded? || job.state.JobFailed? {
        result := result.(alreadyCompleted := true);
        return;
      }
      var subject := CancelActor(job, run, actor);
      if job.state.JobRunning? {
        job := job.(canceledBy := Some(subject), canceledReason := Some(reason), updatedAt := now);
        jobs := jobs[job.id := job];
        result := result.(softCanceled := true);
      } else {
        result := result.(completedNow := true);
        ApplyCanceledJob(job, run, subject, reason, CANCEL_BEFORE, now);
      }
      StaysValid(old(Snap()), OpCancelJob(workspace, jobId, actor, reason), now);
    }

    method StopJobs(runId: RunId, now: Time)
      modifies `jobs
      ensures jobs == (map k | k in old(jobs) ::
                if old(jobs)[k].runId == runId && JobActive(old(jobs)[k])
                then old(jobs)[k].(state := JobFailed, leaseOwner := "", leaseExpiresAt := None, updatedAt := now) else old(jobs)[k])
    {
      var todo := jobs.Keys;
      while todo != {}
        invariant todo <= jobs.Keys == old(jobs.Keys)
        invariant forall k | k in jobs ::
          jobs[k] == (if k !in todo && old(jobs)[k].runId == runId && JobActive(old(jobs)[k])
                      then old(jobs)[k].(state := JobFailed, leaseOwner := "", leaseExpiresAt := None, updatedAt := now) else old(jobs)[k])
      {
        var id :| id in todo;
        var job := jobs[id];
        if job.runId == runId && (job.state.JobQueued? || job.state.JobRunning?) {
          jobs := jobs[id := job.(state := JobFailed, leaseOwner := "", leaseExpiresAt := None, updatedAt := now)];
        }
        todo := todo - {id};
      }
    }

    method StopTasks(runId: RunId)
      modifies `tasks
      ensures tasks == (map t | t in old(tasks) ::
                if old(tasks)[t].runId == runId && old(tasks)[t].state.TaskPending?
                then old(tasks)[t].(state := TaskExpired) else old(tasks)[t])
    {
      var todo := tasks.Keys;
      while todo != {}
        invariant todo <= tasks.Keys == old(tasks.Keys)
        invariant forall t | t in tasks ::
          tasks[t] == (if t !in todo && old(tasks)[t].runId == runId && old(tasks)[t].state.TaskPending?
                       then old(tasks)[t].(state := TaskExpired) else old(tasks)[t])
      {
        var id :| id in todo;
        var task := tasks[id];
        if task.runId == runId && task.state.TaskPending? {
          tasks := tasks[id := task.(state := TaskExpired)];
        }
        todo := todo - {id};
      }
    }

    method CancelWholeRun(runId: RunId, reason: string, now: Time) returns (err: Option<StoreError>)
      requires Valid()
      modifies this
      ensures Valid() && Outcome(old(Snap()), CancelRun(old(Snap()), runId, reason, now), Snap(), err)
    {
      hide Inv, CapInv;
      if runId !in runs { return Some(NotFound); }
      var run := runs[runId];
      if IsTerminal(run.state) { return Some(InvalidState); }
      run := run.(state := RunCanceled, error := Some(RunStopped(reason)), updatedAt := now);
      StopJobs(runId, now);
      StopTasks(runId);
      runs := runs[runId := run];
      Append(runId, EvRunCanceled(reason), now);
      err := None;
      StaysValid(old(Snap()), OpCancelRun(runId, reason), now);
    }

    method Retry(runId: RunId, newJobId: JobId, now: Time) returns (err: Option<StoreError>)
      requires Valid() && FreshJobId(Snap(), newJobId)
      modifies this
      ensures Valid() && Outcome(old(Snap()), RetryRun(old(Snap()), runId, newJobId, now), Snap(), err)
    {
      hide Inv, CapInv, Trim;
      if runId !in runs { return Some(NotFound); }
      var run := runs[runId];
      match run.state {
        case RunFailed =>
        case RunCanceled =>
        case RunExpired =>
        case _ => return Some(InvalidState);
      }
      run := run.(state := RunQueued, output := "", result := None, error := None, taskId := "", updatedAt := now);
      var job := NewActionJob(run, Caller(run.input), newJobId, now);
      runs := runs[run.id := run];
      jobs := jobs[job.id := job];
      Append(run.id, EvRunRetried(job.id), now);
      err := None;
      StaysValid(old(Snap()), OpRetry(runId, newJobId), now);
    }

    /** The runs that are settled and old enough. */
    method ExpiredRuns(successOlderThan: Time, failureOlderThan: Time) returns (expired: set<RunId>)
      ensures expired == Settled(Snap(), successOlderThan, failureOlderThan)
    {
      expired := {};
      var todo := runs.Keys;
      while todo != {}
        invariant todo <= runs.Keys
        invariant expired == Settled(Snap(), successOlderThan, failureOlderThan) - todo
      {
        var id :| id in todo;
        var run := runs[id];
        if IsTerminal(run.state) && run.updatedAt < RetentionCutoff(run.state, successOlderThan, failureOlderThan) {
          expired := expired + {id};
        }
        todo := todo - {id};
      }
    }

    method DropJobs(expired: set<RunId>) returns (pruned: nat)
      modifies `jobs, `logs
      ensures jobs == old(jobs) - JobsOf(old(Snap()), expired) && logs == old(logs) - JobsOf(old(Snap()), expired)
      ensures pruned == |JobsOf(old(Snap()), expired)|
    {
      pruned := 0;
      ghost var before, doomed := Snap(), JobsOf(Snap(), expired);
      hide JobsOf, DroppedSoFar;
      JobsOfAreJobs(before, expired);
      DropStart(before, doomed);
      var todo := jobs.Keys;
      while todo != {}
        invariant todo <= before.jobs.Keys && pruned == |doomed - todo|
        invariant DroppedSoFar(before, jobs, logs, doomed, todo)
      {
        var id :| id in todo;
        CountOne(doomed, todo, id);
        DropStep(before, jobs, logs, doomed, todo, id);
        JobOf(before, expired, id);
        if jobs[id].runId in expired {
          jobs := jobs - {id};
          logs := logs - {id};
          pruned := pruned + 1;
        }
        todo := todo - {id};
      }
      DropEnd(before, jobs, logs, doomed);
    }

    method DropTasks(expired: set<RunId>)
      modifies `tasks
      ensures tasks == (map t | t in old(tasks) && old(tasks)[t].runId !in expired :: old(tasks)[t])
    {
      var todo := tasks.Keys;
      while todo != {}
        invariant todo <= tasks.Keys <= old(tasks.Keys)
        invariant forall t | t in old(tasks) :: t in tasks <==> t in todo || old(tasks)[t].runId !in expired
        invariant forall t | t in tasks :: tasks[t] == old(tasks)[t]
      {
        var id :| id in todo;
        if tasks[id].runId in expired {
          tasks := tasks - {id};
        }
        todo := todo - {id};
      }
    }

    method CompactLog(expired: set<RunId>)
      modifies `events
      ensures events == KeepEvents(old(events), expired)
    {
      var current := events;
      var buffer := new Event[|current|](i requires 0 <= i < |current| => current[i]);
      assert buffer[..] == current;
      var kept := CompactEvents(buffer, expired);
      events := buffer[..kept];
    }

    method PruneSettledJobs(successOlderThan: Time, failureOlderThan: Time, now: Time) returns (pruned: nat)
      requires Valid()
      modifies this
      ensures Valid() && Snap() == Prune(old(Snap()), successOlderThan, failureOlderThan)
      ensures pruned == |old(jobs)| - |jobs|
    {
      hide Inv, CapInv, Settled, RetentionCutoff, IsTerminal, JobsOf;
      ghost var before := Snap();
      var expired := ExpiredRuns(successOlderThan, failureOlderThan);
      JobsOfAreJobs(before, expired);
      if expired == {} {
        KeepAll(events);
        NothingDoomed(before);
        pruned := 0;
      } else {
        pruned := DropJobs(expired);
        DropTasks(expired);
        CompactLog(expired);
        runs := runs - expired;
      }
      PrunedIs(before, Snap(), successOlderThan, failureOlderThan);
      hide *;
      StaysValid(before, OpPrune(successOlderThan, failureOlderThan), now) by { PruneOp(before, Snap(), successOlderThan, failureOlderThan, now); }
    }

    /** The last update of a run and of its jobs. */
    method LatestUpdate(runId: RunId) returns (latest: Time)
      requires runId in runs
      ensures IsLatest(Snap(), runId, latest)
    {
      latest := runs[runId].updatedAt;
      var todo := jobs.Keys;
      while todo != {}
        invariant todo <= jobs.Keys
        invariant latest >= runs[runId].updatedAt
        invariant forall k | k in jobs && k !in todo && jobs[k].runId == runId :: jobs[k].updatedAt <= latest
        invariant latest == runs[runId].updatedAt || exists k :: k in jobs && jobs[k].runId == runId && jobs[k].updatedAt == latest
      {
        var id :| id in todo;
        if jobs[id].runId == runId && jobs[id].updatedAt > latest {
          latest := jobs[id].updatedAt;
        }
        todo := todo - {id};
      }
    }

    method FailJobsOf(runId: RunId, stuckBefore: Time, now: Time)
      modifies `jobs
      ensures jobs.Keys == old(jobs.Keys)
      ensures forall k | k in jobs ::
        jobs[k] == (if old(jobs)[k].runId == runId && JobActive(old(jobs)[k]) then ExpiredJob(old(jobs)[k], stuckBefore, now) else old(jobs)[k])
    {
      hide ExpiryReason;
      var todo := jobs.Keys;
      while todo != {}
        invariant todo <= jobs.Keys == old(jobs.Keys)
        invariant forall k | k in jobs ::
          jobs[k] == (if k !in todo && old(jobs)[k].runId == runId && JobActive(old(jobs)[k])
                      then ExpiredJob(old(jobs)[k], stuckBefore, now) else old(jobs)[k])
      {
        var id :| id in todo;
        var job := jobs[id];
        if job.runId == runId && !job.state.JobSucceeded? && !job.state.JobFailed? {
          jobs := jobs[id := job.(state := JobFailed, canceledReason := Some(ExpiryReason(stuckBefore)), updatedAt := now)];
        }
        todo := todo - {id};
      }
    }

    /** One round of the outer loop: the run, if stuck, and its active jobs. */
    method ExpireIfStuck(id: RunId, stuckBefore: Time, now: Time, ghost before: Snapshot) returns (took: bool)
      requires id in before.runs && id in runs && runs[id] == before.runs[id] && jobs.Keys == before.jobs.Keys
      requires forall k | k in jobs :: jobs[k].runId == before.jobs[k].runId && (before.jobs[k].runId == id ==> jobs[k] == before.jobs[k])
      modifies `runs, `jobs
      ensures took == Stuck(before, id, stuckBefore)
      ensures jobs.Keys == old(jobs.Keys)
      ensures runs == if took then old(runs)[id := ExpiredRun(before.runs[id], now)] else old(runs)
      ensures forall k | k in jobs ::
        jobs[k] == (if took && before.jobs[k].runId == id && JobActive(before.jobs[k]) then ExpiredJob(before.jobs[k], stuckBefore, now) else old(jobs)[k])
    {
      hide ExpiryReason, Stuck;
      var run := runs[id];
      var latest := LatestUpdate(id);
      StuckHere(before, Snap(), id, stuckBefore, latest);
      took := IsActive(run.state) && latest < stuckBefore;
      if took {
        runs := runs[id := run.(state := RunExpired, updatedAt := now)];
        FailJobsOf(id, stuckBefore, now);
      }
    }

    method ExpireRuns(stuckBefore: Time, now: Time) returns (expired: nat)
      modifies `runs, `jobs
      ensures runs == Expire(old(Snap()), stuckBefore, now).runs && jobs == Expire(old(Snap()), stuckBefore, now).jobs
      ensures expired == |StuckRuns(old(Snap()), stuckBefore)|
    {
      ghost var before := Snap();
      ExpireStart(before, stuckBefore, now);
      hide Stuck, ExpiredRun, ExpiredJob, StuckRuns, JobActive, Expire, ExpiredSoFar;
      ghost var stuck := StuckRuns(before, stuckBefore);
      expired := 0;
      var todo := runs.Keys;
      while todo != {}
        invariant todo <= before.runs.Keys
        invariant expired == |stuck - todo|
        invariant ExpiredSoFar(before, Snap(), todo, stuckBefore, now)
      {
        var id :| id in todo;
        CountOne(stuck, todo, id);
        ghost var middle := Snap();
        ExpireNow(before, middle, todo, id, stuckBefore, now);
        var took := ExpireIfStuck(id, stuckBefore, now, before);
        ExpiredOneMore(before, middle, Snap(), todo, id, stuckBefore, now);
        if took { expired := expired + 1; }
        todo := todo - {id};
      }
      assert stuck - {} == stuck;
      AllExpired(before, Snap(), stuckBefore, now);
    }

    method ExpireStuckJobs(stuckBefore: Time, now: Time) returns (expired: nat)
      requires Valid()
      modifies this
      ensures Valid() && Snap() == Expire(old(Snap()), stuckBefore, now)
      ensures expired == |StuckRuns(old(Snap()), stuckBefore)|
    {
      hide Inv, CapInv, Stuck, StuckRuns, JobActive;
      expired := ExpireRuns(stuckBefore, now);
      StaysValid(old(Snap()), OpExpire(stuckBefore), now);
    }

    method RetagJobs(spec: RetagSpec, now: Time) returns (moved: nat)
      modifies `jobs
      ensures jobs.Keys == old(jobs.Keys)
      ensures forall k | k in jobs ::
        jobs[k] == (if Retags(old(jobs)[k], spec) then Retagged(old(jobs)[k], spec, now) else old(jobs)[k])
      ensures moved == |RetaggedIds(old(jobs), spec)|
    {
      ghost var before, retagged := jobs, RetaggedIds(jobs, spec);
      RetaggedIdsMeans(jobs, spec);
      RetagStart(jobs, spec, now);
      hide Retags, Retagged, RetaggedIds, RetaggedSoFar;
      moved := 0;
      var todo := jobs.Keys;
      while todo != {}
        invariant todo <= before.Keys
        invariant RetaggedSoFar(before, jobs, todo, spec, now)
        invariant moved == |retagged - todo|
      {
        var id :| id in todo;
        CountOne(retagged, todo, id);
        RetaggedOneMore(before, jobs, todo, id, spec, now);
        if Retags(jobs[id], spec) {
          jobs := jobs[id := Retagged(jobs[id], spec, now)];
          moved := moved + 1;
        }
        todo := todo - {id};
      }
      assert retagged - {} == retagged;
      RetagEnd(before, jobs, spec, now);
    }

    method RequeueQueuedJobsForApp(spec: RetagSpec, now: Time) returns (moved: nat)
      requires Valid()
      modifies this
      ensures Valid() && Snap() == Retag(old(Snap()), spec, now)
      ensures moved == |RetaggedIds(old(jobs), spec)|
    {
      hide Inv, CapInv, Retags, Retagged, RetaggedIds;
      moved := RetagJobs(spec, now);
      assert jobs == Retag(old(Snap()), spec, now).jobs;
      StaysValid(old(Snap()), OpRetag(spec), now);
    }

    method AppendJobLogs(jobId: JobId, chunk: string, now: Time) returns (err: Option<StoreError>)
      requires Valid()
      modifies this
      ensures Valid() && Outcome(old(Snap()), AppendLogs(old(Snap()), jobId, chunk), Snap(), err)
    {
      hide Inv, CapInv;
      if chunk == "" { return None; }
      if jobId !in jobs { return Some(NotFound); }
      logs := logs[jobId := (if jobId in logs then logs[jobId] else "") + chunk];
      err := None;
      StaysValid(old(Snap()), OpAppendLogs(jobId, chunk), now);
    }
  }

  /** Expiry with the runs of todo still to come. */
  ghost predicate ExpiredSoFar(before: Snapshot, s: Snapshot, todo: set<RunId>, stuckBefore: Time, now: Time) {
    && s.runs.Keys == before.runs.Keys && s.jobs.Keys == before.jobs.Keys
    && (forall r | r in s.runs ::
          s.runs[r] == (if r !in todo && Stuck(before, r, stuckBefore) then ExpiredRun(before.runs[r], now) else before.runs[r]))
    && (forall k | k in s.jobs :: s.jobs[k].runId == before.jobs[k].runId)
    && (forall k | k in s.jobs ::
          s.jobs[k] == (if before.jobs[k].runId !in todo && Stuck(before, before.jobs[k].runId, stuckBefore) && JobActive(before.jobs[k])
                        then ExpiredJob(before.jobs[k], stuckBefore, now) else before.jobs[k]))
  }

  lemma ExpiredOneMore(before: Snapshot, s: Snapshot, s': Snapshot, todo: set<RunId>, id: RunId, stuckBefore: Time, now: Time)
    requires ExpiredSoFar(before, s, todo, stuckBefore, now) && id in todo && id in s.runs && s'.jobs.Keys == s.jobs.Keys
    requires var took := Stuck(before, id, stuckBefore);
      && s'.runs == (if took then s.runs[id := ExpiredRun(before.runs[id], now)] else s.runs)
      && (forall k | k in s'.jobs :: s'.jobs[k] ==
            (if took && before.jobs[k].runId == id && JobActive(before.jobs[k]) then ExpiredJob(before.jobs[k], stuckBefore, now) else s.jobs[k]))
    ensures ExpiredSoFar(before, s', todo - {id}, stuckBefore, now)
  {
    hide Stuck, ExpiryReason;
  }

  lemma AllExpired(before: Snapshot, s: Snapshot, stuckBefore: Time, now: Time)
    requires ExpiredSoFar(before, s, {}, stuckBefore, now)
    ensures s.runs == Expire(before, stuckBefore, now).runs && s.jobs == Expire(before, stuckBefore, now).jobs
  {
    hide Stuck, ExpiryReason;
  }

  /** Retagging with the jobs of todo still to come. */
  ghost predicate RetaggedSoFar(before: map<JobId, Job>, jobs: map<JobId, Job>, todo: set<JobId>, spec: RetagSpec, now: Time) {
    jobs.Keys == before.Keys
    && forall k | k in jobs :: jobs[k] == (if k !in todo && Retags(before[k], spec) then Retagged(before[k], spec, now) else before[k])
  }

  lemma RetagStart(before: map<JobId, Job>, spec: RetagSpec, now: Time)
    ensures RetaggedSoFar(before, before, before.Keys, spec, now)
  {}

  lemma RetaggedOneMore(before: map<JobId, Job>, jobs: map<JobId, Job>, todo: set<JobId>, id: JobId, spec: RetagSpec, now: Time)
    requires RetaggedSoFar(before, jobs, todo, spec, now) && id in todo && id in before
    ensures id in jobs && jobs[id] == before[id]
    ensures Retags(jobs[id], spec) ==> RetaggedSoFar(before, jobs[id := Retagged(jobs[id], spec, now)], todo - {id}, spec, now)
    ensures !Retags(jobs[id], spec) ==> RetaggedSoFar(before, jobs, todo - {id}, spec, now)
  {
    hide Retags, Retagged;
  }

  lemma RetagEnd(before: map<JobId, Job>, jobs: map<JobId, Job>, spec: RetagSpec, now: Time)
    requires RetaggedSoFar(before, jobs, {}, spec, now)
    ensures jobs.Keys == before.Keys
    ensures forall k | k in jobs :: jobs[k] == (if Retags(before[k], spec) then Retagged(before[k], spec, now) else before[k])
  {}

  /** Dropping the doomed jobs and their logs, with those of todo still to come. */
  ghost predicate DroppedSoFar(before: Snapshot, jobs: map<JobId, Job>, logs: map<JobId, string>, doomed: set<JobId>, todo: set<JobId>) {
    jobs == before.jobs - (doomed - todo) && logs == before.logs - (doomed - todo)
  }

  lemma DropStart(s: Snapshot, doomed: set<JobId>)
    requires doomed <= s.jobs.Keys
    ensures DroppedSoFar(s, s.jobs, s.logs, doomed, s.jobs.Keys) && |doomed - s.jobs.Keys| == 0
  {}

  lemma DropStep(before: Snapshot, jobs: map<JobId, Job>, logs: map<JobId, string>, doomed: set<JobId>, todo: set<JobId>, id: JobId)
    requires DroppedSoFar(before, jobs, logs, doomed, todo) && id in todo && id in before.jobs
    ensures id in jobs && jobs[id] == before.jobs[id]
    ensures id in doomed ==> DroppedSoFar(before, jobs - {id}, logs - {id}, doomed, todo - {id})
    ensures id !in doomed ==> DroppedSoFar(before, jobs, logs, doomed, todo - {id})
  {}

  lemma DropEnd(before: Snapshot, jobs: map<JobId, Job>, logs: map<JobId, string>, doomed: set<JobId>)
    requires DroppedSoFar(before, jobs, logs, doomed, {})
    ensures jobs == before.jobs - doomed && logs == before.logs - doomed && |doomed - {}| == |doomed|
  {}

  lemma PruneOp(before: Snapshot, s: Snapshot, successOlderThan: Time, failureOlderThan: Time, now: Time)
    requires s == Prune(before, successOlderThan, failureOlderThan)
    ensures s == Next(before, OpPrune(successOlderThan, failureOlderThan), now)
    ensures Enabled(before, OpPrune(successOlderThan, failureOlderThan), now)
  {}

  lemma PrunedIs(before: Snapshot, s: Snapshot, successOlderThan: Time, failureOlderThan: Time)
    requires var doomed := Settled(before, successOlderThan, failureOlderThan);
      && s.runs == before.runs - doomed
      && s.jobs == before.jobs - JobsOf(before, doomed) && s.logs == before.logs - JobsOf(before, doomed)
      && s.tasks == (map t | t in before.tasks && before.tasks[t].runId !in doomed :: before.tasks[t])
      && s.events == KeepEvents(before.events, doomed) && s.sequence == before.sequence
    ensures s == Prune(before, successOlderThan, failureOlderThan)
    ensures |JobsOf(before, Settled(before, successOlderThan, failureOlderThan))| == |before.jobs| - |s.jobs|
  {}

  lemma ExpireStart(s: Snapshot, stuckBefore: Time, now: Time)
    ensures ExpiredSoFar(s, s, s.runs.Keys, stuckBefore, now)
    ensures forall r :: r in StuckRuns(s, stuckBefore) <==> Stuck(s, r, stuckBefore)
    ensures StuckRuns(s, stuckBefore) <= s.runs.Keys
  {}

  lemma ExpireNow(before: Snapshot, s: Snapshot, todo: set<RunId>, id: RunId, stuckBefore: Time, now: Time)
    requires ExpiredSoFar(before, s, todo, stuckBefore, now) && id in todo && id in before.runs
    ensures id in s.runs && s.runs[id] == before.runs[id] && s.jobs.Keys == before.jobs.Keys
    ensures forall k | k in s.jobs :: s.jobs[k].runId == before.jobs[k].runId && (before.jobs[k].runId == id ==> s.jobs[k] == before.jobs[k])
  {}

  function RetaggedIds(jobs: map<JobId, Job>, spec: RetagSpec): set<JobId> {
    set k | k in jobs && Retags(jobs[k], spec)
  }

  lemma RetaggedIdsMeans(jobs: map<JobId, Job>, spec: RetagSpec)
    ensures forall k :: k in RetaggedIds(jobs, spec) <==> k in jobs && Retags(jobs[k], spec)
  {}

  function StuckRuns(s: Snapshot, stuckBefore: Time): set<RunId> {
    set r | r in s.runs && Stuck(s, r, stuckBefore)
  }

  lemma CountOne<T>(all: set<T>, todo: set<T>, x: T)
    requires x in todo
    ensures |all - (todo - {x})| == |all - todo| + if x in all then 1 else 0
  {
    if x in all {
      assert all - (todo - {x}) == all - todo + {x};
    } else {
      assert all - (todo - {x}) == all - todo;
    }
  }

  /** The greatest update time among a run and its jobs. */
  ghost predicate IsLatest(s: Snapshot, r: RunId, latest: Time)
    requires r in s.runs
  {
    && s.runs[r].updatedAt <= latest && (forall k | k in s.jobs && s.jobs[k].runId == r :: s.jobs[k].updatedAt <= latest)
    && (s.runs[r].updatedAt == latest || exists k :: k in s.jobs && s.jobs[k].runId == r && s.jobs[k].updatedAt == latest)
  }

  lemma {:induction false} EnabledClaim(s: Snapshot, op: Op, now: Time, requeued: Snapshot)
    requires op.OpClaim? && Enumerates(op.order, s.jobs.Keys) && requeued == RequeueAll(s, op.order, now) && IsPick(requeued, op.tags, op.labels, op.pick)
    ensures Enabled(s, op, now)
  {}

  lemma PickedJob(s: Snapshot, tags: set<string>, labels: set<string>, j: JobId)
    requires IsPick(s, tags, labels, Some(j))
    ensures j in s.jobs
  {}

  lemma {:induction false} RequeueKeepsLogs(s: Snapshot, order: seq<JobId>, now: Time)
    ensures RequeueAll(s, order, now).logs == s.logs
  {
    if order != [] {
      RequeueKeepsLogs(s, order[..|order| - 1], now);
    }
  }

  lemma JobOf(s: Snapshot, runs: set<RunId>, id: JobId)
    requires id in s.jobs
    ensures id in JobsOf(s, runs) <==> s.jobs[id].runId in runs
  {}

  lemma JobsOfAreJobs(s: Snapshot, runs: set<RunId>)
    ensures JobsOf(s, runs) <= s.jobs.Keys
    ensures runs == {} ==> JobsOf(s, runs) == {}
  {}

  lemma NothingDoomed(s: Snapshot)
    ensures s.runs - {} == s.runs && s.jobs - {} == s.jobs && s.logs - {} == s.logs
    ensures (map t | t in s.tasks && s.tasks[t].runId !in {} :: s.tasks[t]) == s.tasks
  {}

  lemma StuckHere(before: Snapshot, s: Snapshot, r: RunId, stuckBefore: Time, latest: Time)
    requires r in before.runs && r in s.runs && s.runs[r] == before.runs[r] && s.jobs.Keys == before.jobs.Keys
    requires forall k | k in s.jobs && before.jobs[k].runId == r :: s.jobs[k] == before.jobs[k]
    requires forall k | k in s.jobs :: s.jobs[k].runId == before.jobs[k].runId
    requires IsLatest(s, r, latest)
    ensures Stuck(before, r, stuckBefore) <==> IsActive(s.runs[r].state) && latest < stuckBefore
  {}
}
