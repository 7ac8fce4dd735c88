/**
 * One function per LocalStore operation (internal/state/local_store.go): the
 * snapshot `update` commits, or the error with which it discards its copy.
 * Generated identifiers, the clock and the order in which Go walks a map are
 * arguments.
 */
module JobSteps {
  import opened Wrappers
  import opened Text
  import opened Sorting
  import opened JobModel

  type Step = Result<Snapshot, StoreError>

  const CANCEL_BEFORE := "job canceled before execution"
  const CANCEL_DURING := "job canceled"
  const CANCEL_WORKER_LOST := "job canceled; worker lost during execution"

  function AppendEvent(s: Snapshot, runId: RunId, body: EventBody, now: Time): Snapshot {
    s.(sequence := s.sequence + 1, events := s.events + [Event(s.sequence + 1, runId, body, now)])
  }

  function Put(s: Snapshot, run: Run, job: Job): Snapshot {
    s.(runs := s.runs[run.id := run], jobs := s.jobs[job.id := job])
  }

  function CreateRun(s: Snapshot, run: Run, job: Job, now: Time): Step {
    if run.id in s.runs || job.id in s.jobs then Failure(Conflict)
    else
      var run' := run.(createdAt := NonZeroTime(run.createdAt, now), updatedAt := now);
      var job' := job.(createdAt := NonZeroTime(job.createdAt, now), updatedAt := now);
      var s1 := AppendEvent(Put(s, run', job'), run.id, EvRunCreated(run.app, run.action), now);
      Success(AppendEvent(s1, run.id, EvJobEnqueued(job.id), now))
  }

  function CanceledResult(job: Job, run: Run, message: string): JobResult {
    JobResult(job.id, run.app, run.action, message, -1, message)
  }

  /** applyCanceledJob: the job fails and takes its run with it. */
  function ApplyCanceled(s: Snapshot, job: Job, run: Run, actor: string, reason: string, message: string, now: Time): Snapshot {
    var job' := job.(state := JobFailed, leaseExpiresAt := None, canceledBy := Some(actor), canceledReason := Some(reason), updatedAt := now);
    var run' := run.(state := RunCanceled, result := Some(CanceledResult(job, run, message)),
                     error := Some(JobStopped(message, actor, reason)), updatedAt := now);
    AppendEvent(Put(s, run', job'), run.id, EvJobCanceled(job.id, actor, reason), now)
  }

  predicate LeaseLapsed(job: Job, now: Time) {
    job.state.JobRunning? && job.leaseExpiresAt.Some? && job.leaseExpiresAt.value <= now
  }

  function RequeueOne(s: Snapshot, id: JobId, now: Time): Snapshot
    requires id in s.jobs
  {
    var job := s.jobs[id];
    if !LeaseLapsed(job, now) then s
    else if job.canceledBy.Some? then
      if job.runId in s.runs
      then ApplyCanceled(s, job, s.runs[job.runId], job.canceledBy.value, ReasonValue(job), CANCEL_WORKER_LOST, now)
      else s
    else
      var job' := job.(state := JobQueued, leaseOwner := "", leaseExpiresAt := None, startedAt := None, updatedAt := now);
      AppendEvent(s.(jobs := s.jobs[id := job']), job.runId, EvLeaseExpired(job.id), now)
  }

  /** requeueExpiredJobs, walking the jobs in the given order. */
  function RequeueAll(s: Snapshot, order: seq<JobId>, now: Time): Snapshot {
    if order == [] then s
    else
      var s' := RequeueAll(s, order[..|order| - 1], now);
      var id := order[|order| - 1];
      if id in s'.jobs then RequeueOne(s', id, now) else s'
  }

  predicate Claimable(s: Snapshot, tags: set<string>, labels: set<string>, id: JobId) {
    id in s.jobs && s.jobs[id].state.JobQueued? && ClaimAllowed(s.jobs[id], tags, labels) && !CapReached(s.jobs, s.jobs[id])
  }

  /** What a claim must pick: the least claimable job, or none when there is none. */
  ghost predicate IsPick(s: Snapshot, tags: set<string>, labels: set<string>, pick: Option<JobId>) {
    match pick
    case None => forall k :: !Claimable(s, tags, labels, k)
    case Some(id) =>
      && Claimable(s, tags, labels, id)
      && forall k :: Claimable(s, tags, labels, k) && k != id ==> ClaimedBefore(s.jobs[id], s.jobs[k])
  }

  function Assign(s: Snapshot, id: JobId, worker: string, expiresAt: Time, now: Time): Snapshot
    requires id in s.jobs
  {
    var job := s.jobs[id];
    var job' := job.(state := JobRunning, attempt := job.attempt + 1, leaseOwner := worker,
                     leaseExpiresAt := Some(expiresAt), startedAt := Some(now), updatedAt := now);
    var s1 := s.(jobs := s.jobs[job.id := job']);
    var s2 :=
      if job.runId in s.runs && (s.runs[job.runId].state.RunQueued? || s.runs[job.runId].state.RunResuming?) then
        var run := s.runs[job.runId].(state := RunRunning, updatedAt := now);
        AppendEvent(s1.(runs := s1.runs[run.id := run]), run.id, EvRunRunning(job.id), now)
      else s1;
    AppendEvent(s2, job.runId, EvJobClaimed(job.id, worker, job.attempt + 1), now)
  }

  function Claim(s: Snapshot, order: seq<JobId>, pick: Option<JobId>, worker: string, ttl: int, now: Time): Step {
    var s1 := RequeueAll(s, order, now);
    if pick.Some? && pick.value in s1.jobs
    then Success(Assign(s1, pick.value, worker, now + EffectiveTtl(ttl), now))
    else Failure(NoQueuedJob)
  }

  /** The lease names the job's current attempt. */
  predicate HoldsLease(s: Snapshot, lease: Lease) {
    && lease.jobId in s.jobs
    && var job := s.jobs[lease.jobId];
       job.state.JobRunning? && job.leaseOwner == lease.workerId && job.attempt == lease.attempt
  }

  function Heartbeat(s: Snapshot, lease: Lease, ttl: int, now: Time): Snapshot {
    if !HoldsLease(s, lease) then s
    else
      var job := s.jobs[lease.jobId];
      s.(jobs := s.jobs[job.id := job.(leaseExpiresAt := Some(now + EffectiveTtl(ttl)), updatedAt := now)])
  }

  /** leasedJobAndRun: None when the completion may go ahead. */
  function CompletionRefusal(s: Snapshot, lease: Lease, now: Time): Option<StoreError> {
    if lease.jobId !in s.jobs then Some(NotFound)
    else
      var job := s.jobs[lease.jobId];
      if !HoldsLease(s, lease) then Some(InvalidLease)
      else if job.leaseExpiresAt.Some? && job.leaseExpiresAt.value < now then Some(InvalidLease)
      else if job.runId !in s.runs then Some(NotFound)
      else None
  }

  function SettledJob(job: Job, state: JobState, now: Time): Job {
    job.(state := state, leaseExpiresAt := None, updatedAt := now)
  }

  function CancelDuring(s: Snapshot, job: Job, run: Run, now: Time): Snapshot
    requires job.canceledBy.Some?
  {
    ApplyCanceled(s, job, run, job.canceledBy.value, ReasonValue(job), CANCEL_DURING, now)
  }

  function CompleteSucceeded(s: Snapshot, lease: Lease, result: JobResult, now: Time): Step {
    var refusal := CompletionRefusal(s, lease, now);
    if refusal.Some? then Failure(refusal.value)
    else
      var job, run := s.jobs[lease.jobId], s.runs[s.jobs[lease.jobId].runId];
      if job.canceledBy.Some? then Success(CancelDuring(s, job, run, now))
      else
        var run' := run.(state := RunSucceeded, output := result.output, result := Some(result), error := None, taskId := "", updatedAt := now);
        Success(AppendEvent(Put(s, run', SettledJob(job, JobSucceeded, now)), run.id, EvRunSucceeded(job.id), now))
  }

  function FailureMessage(result: JobResult): string {
    if result.error == "" && result.exitCode != 0 then "action exited with code " + Decimal(result.exitCode) else result.error
  }

  function CompleteFailed(s: Snapshot, lease: Lease, result: JobResult, now: Time): Step {
    var refusal := CompletionRefusal(s, lease, now);
    if refusal.Some? then Failure(refusal.value)
    else
      var job, run := s.jobs[lease.jobId], s.runs[s.jobs[lease.jobId].runId];
      if job.canceledBy.Some? then Success(CancelDuring(s, job, run, now))
      else
        var stored := result.(error := FailureMessage(result));
        var run' := run.(state := RunFailed, result := Some(stored), error := Some(ActionFailed(stored.error, stored.exitCode)), updatedAt := now);
        Success(AppendEvent(Put(s, run', SettledJob(job, JobFailed, now)), run.id, EvRunFailed(job.id, stored.error, stored.exitCode), now))
  }

  // The human task a worker hands in; the store fills in what is missing.
  datatype TaskDraft = TaskDraft(id: TaskId, runId: RunId, state: Option<TaskState>, title: string, createdAt: Time)

  function FillTask(draft: TaskDraft, run: Run, freshId: TaskId, now: Time): HumanTask {
    HumanTask(
      if draft.id == "" then freshId else draft.id,
      if draft.runId == "" then run.id else draft.runId,
      if draft.state.Some? then draft.state.value else TaskPending,
      draft.title, None, NonZeroTime(draft.createdAt, now), None)
  }

  function CompleteWaitingHuman(s: Snapshot, lease: Lease, result: JobResult, draft: TaskDraft, freshId: TaskId, now: Time): Step {
    var refusal := CompletionRefusal(s, lease, now);
    if refusal.Some? then Failure(refusal.value)
    else
      var job, run := s.jobs[lease.jobId], s.runs[s.jobs[lease.jobId].runId];
      if job.canceledBy.Some? then Success(CancelDuring(s, job, run, now))
      else
        var task := FillTask(draft, run, freshId, now);
        if task.id in s.tasks then Failure(Conflict)
        else
          var run' := run.(state := RunWaitingHuman, result := Some(result), error := None, taskId := task.id, updatedAt := now);
          var s1 := Put(s, run', SettledJob(job, JobSucceeded, now)).(tasks := s.tasks[task.id := task]);
          Success(AppendEvent(s1, run.id, EvTaskCreated(job.id, task.id), now))
  }

  // What json.Valid says of the resume input.
  datatype Json = Valid(text: string) | Malformed

  function ResumeTask(s: Snapshot, taskId: TaskId, resume: Json, newJobId: JobId, now: Time): Step {
    if taskId !in s.tasks then Failure(NotFound)
    else
      var task := s.tasks[taskId];
      if !task.state.TaskPending? then Failure(InvalidState)
      else if task.runId !in s.runs then Failure(NotFound)
      else
        var run := s.runs[task.runId];
        if !run.state.RunWaitingHuman? then Failure(InvalidState)
        else if resume.Malformed? then Failure(InvalidJson)
        else
          var text := if resume.text == "" then "{}" else resume.text;
          var task' := task.(state := TaskCompleted, resumeInput := Some(text), completedAt := Some(now));
          var run' := run.(state := RunResuming, taskId := "", updatedAt := now);
          var job := NewActionJob(run', Resumed(run.input, task.id, text), newJobId, now);
          var s1 := Put(s, run', job).(tasks := s.tasks[task.id := task']);
          Success(AppendEvent(s1, run.id, EvTaskResumed(task.id, job.id), now))
  }

  datatype CancelResult = CancelResult(found: bool, completedNow: bool, softCanceled: bool, alreadyCompleted: bool)

  /** What CancelJob reports, None when the run record is missing. */
  function CancelOutcome(s: Snapshot, workspace: string, jobId: JobId): Option<CancelResult> {
    if jobId !in s.jobs || JobWorkspace(s.jobs[jobId]) != NormalizeWorkspace(workspace) then Some(CancelResult(false, false, false, false))
    else
      var job := s.jobs[jobId];
      if job.runId !in s.runs then None
      else if IsTerminal(s.runs[job.runId].state) || !JobActive(job) then Some(CancelResult(true, false, false, true))
      else if job.state.JobRunning? then Some(CancelResult(true, false, true, false))
      else Some(CancelResult(true, true, false, false))
  }

  function CancelJob(s: Snapshot, workspace: string, jobId: JobId, actor: string, reason: string, now: Time): Step {
    match CancelOutcome(s, workspace, jobId)
    case None => Failure(NotFound)
    case Some(r) =>
      if !r.found || r.alreadyCompleted then Success(s)
      else
        var job, run := s.jobs[jobId], s.runs[s.jobs[jobId].runId];
        var subject := CancelActor(job, run, actor);
        if r.softCanceled
        then Success(s.(jobs := s.jobs[job.id := job.(canceledBy := Some(subject), canceledReason := Some(reason), updatedAt := now)]))
        else Success(ApplyCanceled(s, job, run, subject, reason, CANCEL_BEFORE, now))
  }

  function CancelRun(s: Snapshot, runId: RunId, reason: string, now: Time): Step {
    if runId !in s.runs then Failure(NotFound)
    else if IsTerminal(s.runs[runId].state) then Failure(InvalidState)
    else
      var run' := s.runs[runId].(state := RunCanceled, error := Some(RunStopped(reason)), updatedAt := now);
      var jobs' := map k | k in s.jobs :: if s.jobs[k].runId == runId && JobActive(s.jobs[k])
                   then s.jobs[k].(state := JobFailed, leaseOwner := "", leaseExpiresAt := None, updatedAt := now) else s.jobs[k];
      var tasks' := map t | t in s.tasks :: if s.tasks[t].runId == runId && s.tasks[t].state.TaskPending?
                    then s.tasks[t].(state := TaskExpired) else s.tasks[t];
      Success(AppendEvent(s.(runs := s.runs[runId := run'], jobs := jobs', tasks := tasks'), runId, EvRunCanceled(reason), now))
  }

  function RetryRun(s: Snapshot, runId: RunId, newJobId: JobId, now: Time): Step {
    if runId !in s.runs then Failure(NotFound)
    else
      var run := s.runs[runId];
      if !(run.state.RunFailed? || run.state.RunCanceled? || run.state.RunExpired?) then Failure(InvalidState)
      else
        var run' := run.(state := RunQueued, output := "", result := None, error := None, taskId := "", updatedAt := now);
        var job := NewActionJob(run', Caller(run.input), newJobId, now);
        Success(AppendEvent(Put(s, run', job), run.id, EvRunRetried(job.id), now))
  }

  /** The runs PruneSettledJobs removes. */
  function Settled(s: Snapshot, successOlderThan: Time, failureOlderThan: Time): set<RunId> {
    set r | r in s.runs && IsTerminal(s.runs[r].state)
            && s.runs[r].updatedAt < RetentionCutoff(s.runs[r].state, successOlderThan, failureOlderThan)
  }

  /** The events of the runs that stay, in order. */
  function KeepEvents(events: seq<Event>, doomed: set<RunId>): seq<Event> {
    if events == [] then []
    else
      var last := events[|events| - 1];
      KeepEvents(events[..|events| - 1], doomed) + if last.runId in doomed then [] else [last]
  }

  function JobsOf(s: Snapshot, runs: set<RunId>): set<JobId> {
    set k | k in s.jobs && s.jobs[k].runId in runs
  }

  function Prune(s: Snapshot, successOlderThan: Time, failureOlderThan: Time): Snapshot {
    var doomed := Settled(s, successOlderThan, failureOlderThan);
    Snapshot(
      s.runs - doomed,
      s.jobs - JobsOf(s, doomed),
      map t | t in s.tasks && s.tasks[t].runId !in doomed :: s.tasks[t],
      KeepEvents(s.events, doomed),
      s.sequence,
      s.logs - JobsOf(s, doomed))
  }

  /** An active run none of whose records was updated since the cutoff. */
  predicate Stuck(s: Snapshot, runId: RunId, stuckBefore: Time) {
    && runId in s.runs && IsActive(s.runs[runId].state) && s.runs[runId].updatedAt < stuckBefore
    && forall k | k in s.jobs && s.jobs[k].runId == runId :: s.jobs[k].updatedAt < stuckBefore
  }

  function ExpiryReason(stuckBefore: Time): string {
    "expired by retention policy: no progress before " + Decimal(stuckBefore)
  }

  function ExpiredRun(run: Run, now: Time): Run {
    run.(state := RunExpired, updatedAt := now)
  }

  function ExpiredJob(job: Job, stuckBefore: Time, now: Time): Job {
    job.(state := JobFailed, canceledReason := Some(ExpiryReason(stuckBefore)), updatedAt := now)
  }

  function Expire(s: Snapshot, stuckBefore: Time, now: Time): Snapshot {
    s.(runs := map r | r in s.runs :: if Stuck(s, r, stuckBefore) then ExpiredRun(s.runs[r], now) else s.runs[r],
       jobs := map k | k in s.jobs :: if Stuck(s, s.jobs[k].runId, stuckBefore) && JobActive(s.jobs[k])
               then ExpiredJob(s.jobs[k], stuckBefore, now) else s.jobs[k])
  }

  datatype RetagSpec = RetagSpec(workspace: string, app: string, action: Option<string>, tags: map<string, string>)

  predicate Retags(job: Job, spec: RetagSpec) {
    && job.state.JobQueued? && JobWorkspace(job) == NormalizeWorkspace(spec.workspace) && job.payload.app == spec.app
    && (spec.action.Some? ==> job.payload.action == spec.action.value)
    && job.payload.action in spec.tags
    && var tag := Trim(spec.tags[job.payload.action]);
       tag != "" && job.payload.tag != tag
  }

  function Retagged(job: Job, spec: RetagSpec, now: Time): Job
    requires Retags(job, spec)
  {
    job.(payload := job.payload.(tag := Trim(spec.tags[job.payload.action])), updatedAt := now)
  }

  function Retag(s: Snapshot, spec: RetagSpec, now: Time): Snapshot {
    s.(jobs := map k | k in s.jobs :: if Retags(s.jobs[k], spec) then Retagged(s.jobs[k], spec, now) else s.jobs[k])
  }

  function AppendLogs(s: Snapshot, jobId: JobId, chunk: string): Step {
    if chunk == "" then Success(s)
    else if jobId !in s.jobs then Failure(NotFound)
    else Success(s.(logs := s.logs[jobId := (if jobId in s.logs then s.logs[jobId] else "") + chunk]))
  }

  datatype Op =
    | OpCreate(run: Run, job: Job)
    | OpClaim(order: seq<JobId>, pick: Option<JobId>, tags: set<string>, labels: set<string>, worker: string, ttl: int)
    | OpHeartbeat(lease: Lease, ttl: int)
    | OpSucceed(lease: Lease, result: JobResult)
    | OpFail(lease: Lease, result: JobResult)
    | OpWait(lease: Lease, result: JobResult, draft: TaskDraft, freshTaskId: TaskId)
    | OpResume(taskId: TaskId, resume: Json, newJobId: JobId)
    | OpCancelJob(workspace: string, jobId: JobId, actor: string, reason: string)
    | OpCancelRun(runId: RunId, reason: string)
    | OpRetry(runId: RunId, newJobId: JobId)
    | OpPrune(successOlderThan: Time, failureOlderThan: Time)
    | OpExpire(stuckBefore: Time)
    | OpRetag(spec: RetagSpec)
    | OpAppendLogs(jobId: JobId, chunk: string)

  function Attempt(s: Snapshot, op: Op, now: Time): Step {
    match op
    case OpCreate(run, job) => CreateRun(s, run, job, now)
    case OpClaim(order, pick, _, _, worker, ttl) => Claim(s, order, pick, worker, ttl, now)
    case OpHeartbeat(lease, ttl) => Success(Heartbeat(s, lease, ttl, now))
    case OpSucceed(lease, result) => CompleteSucceeded(s, lease, result, now)
    case OpFail(lease, result) => CompleteFailed(s, lease, result, now)
    case OpWait(lease, result, draft, freshTaskId) => CompleteWaitingHuman(s, lease, result, draft, freshTaskId, now)
    case OpResume(taskId, resume, newJobId) => ResumeTask(s, taskId, resume, newJobId, now)
    case OpCancelJob(workspace, jobId, actor, reason) => CancelJob(s, workspace, jobId, actor, reason, now)
    case OpCancelRun(runId, reason) => CancelRun(s, runId, reason, now)
    case OpRetry(runId, newJobId) => RetryRun(s, runId, newJobId, now)
    case OpPrune(successOlderThan, failureOlderThan) => Success(Prune(s, successOlderThan, failureOlderThan))
    case OpExpire(stuckBefore) => Success(Expire(s, stuckBefore, now))
    case OpRetag(spec) => Success(Retag(s, spec, now))
    case OpAppendLogs(jobId, chunk) => AppendLogs(s, jobId, chunk)
  }

  /** `update`: commit the step, or leave the stored state as it was. */
  function Next(s: Snapshot, op: Op, now: Time): Snapshot {
    match Attempt(s, op, now)
    case Success(s') => s'
    case Failure(_) => s
  }

  /** What NewRun and NewActionJob hand to CreateRunAndEnqueue. */
  predicate FreshRecords(run: Run, job: Job) {
    && run.state.RunQueued? && run.output == "" && run.result.None? && run.error.None? && run.taskId == ""
    && job.id != "" && job.runId == run.id && job.state.JobQueued? && job.attempt == 0
    && job.leaseOwner == "" && job.leaseExpiresAt.None? && job.startedAt.None?
    && job.canceledBy.None? && job.canceledReason.None? && job.payload.input == Caller(run.input)
  }

  predicate FreshJobId(s: Snapshot, id: JobId) {
    id != "" && id !in s.jobs
  }

  /** What each operation asks of its caller, of the identifier source and of Go's map order. */
  ghost predicate Enabled(s: Snapshot, op: Op, now: Time) {
    match op
    case OpCreate(run, job) => FreshRecords(run, job)
    case OpClaim(order, pick, tags, labels, _, _) =>
      Enumerates(order, s.jobs.Keys) && IsPick(RequeueAll(s, order, now), tags, labels, pick)
    case OpWait(lease, _, draft, freshTaskId) =>
      && (draft.runId == "" || (lease.jobId in s.jobs ==> draft.runId == s.jobs[lease.jobId].runId))
      && (draft.state.None? || draft.state.value.TaskPending?)
      && freshTaskId != ""
    case OpResume(_, _, newJobId) => FreshJobId(s, newJobId)
    case OpRetry(_, newJobId) => FreshJobId(s, newJobId)
    case _ => true
  }
}
