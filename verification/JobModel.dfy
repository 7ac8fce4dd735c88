/** The records LocalStore keeps for runs, jobs and human tasks (internal/state/state.go). */
module JobModel {
  import opened Wrappers
  import opened Text

  type RunId = string
  type JobId = string
  type TaskId = string
  // Nanoseconds since Go's zero time, which is 0.
  type Time = int

  datatype RunState =
    | RunQueued | RunRunning | RunWaitingHuman | RunResuming
    | RunSucceeded | RunFailed | RunCanceled | RunExpired

  datatype JobState = JobQueued | JobRunning | JobSucceeded | JobFailed

  datatype TaskState = TaskPending | TaskCompleted | TaskExpired

  datatype StoreError = NotFound | NoQueuedJob | Conflict | InvalidState | InvalidLease | InvalidJson

  datatype JobResult = JobResult(jobId: JobId, app: string, action: string, output: string, exitCode: int, error: string)

  datatype RunError =
    | ActionFailed(message: string, exitCode: int)
    | RunStopped(reason: string)
    | JobStopped(message: string, actor: string, reason: string)

  // The release coordinates pinned into a run; route tag and labels are the
  // effective ones for the run's action.
  datatype Deployment = Deployment(
    workspace: string, routeTag: string, maxConcurrent: Option<int>,
    requiredLabels: Option<seq<string>>, requiredCapabilities: seq<string>)

  datatype Run = Run(
    id: RunId, app: string, action: string, state: RunState, deployment: Deployment,
    input: string, output: string, result: Option<JobResult>, error: Option<RunError>,
    taskId: TaskId, adapter: string, createdBy: string, permissionedAs: string, createdAt: Time, updatedAt: Time)

  datatype Input = Caller(json: string) | Resumed(original: string, taskId: TaskId, resume: string)

  // The deployment copy carried by jobs that predate compact pins.
  datatype LegacyPin = LegacyPin(workspace: string, app: string, maxConcurrent: Option<int>)

  datatype Payload = Payload(
    workspace: string, app: string, action: string, tag: string, routeTag: string,
    maxConcurrent: Option<int>, requiredLabels: Option<seq<string>>, requiredCapabilities: seq<string>,
    legacy: Option<LegacyPin>, input: Input, triggerKind: string, createdBy: string, permissionedAs: string)

  datatype Job = Job(
    id: JobId, runId: RunId, state: JobState, payload: Payload, priority: int, attempt: nat,
    leaseOwner: string, leaseExpiresAt: Option<Time>, startedAt: Option<Time>,
    canceledBy: Option<string>, canceledReason: Option<string>, createdAt: Time, updatedAt: Time)

  datatype Lease = Lease(jobId: JobId, workerId: string, expiresAt: Time, attempt: nat, acquiredAt: Time)

  datatype HumanTask = HumanTask(
    id: TaskId, runId: RunId, state: TaskState, title: string,
    resumeInput: Option<string>, createdAt: Time, completedAt: Option<Time>)

  datatype EventBody =
    | EvRunCreated(app: string, action: string)
    | EvJobEnqueued(jobId: JobId)
    | EvRunRunning(jobId: JobId)
    | EvJobClaimed(jobId: JobId, workerId: string, attempt: nat)
    | EvLeaseExpired(jobId: JobId)
    | EvRunSucceeded(jobId: JobId)
    | EvRunFailed(jobId: JobId, error: string, exitCode: int)
    | EvTaskCreated(jobId: JobId, taskId: TaskId)
    | EvTaskResumed(taskId: TaskId, jobId: JobId)
    | EvJobCanceled(jobId: JobId, actor: string, reason: string)
    | EvRunCanceled(reason: string)
    | EvRunRetried(jobId: JobId)

  datatype Event = Event(id: nat, runId: RunId, body: EventBody, createdAt: Time)

  datatype Snapshot = Snapshot(
    runs: map<RunId, Run>, jobs: map<JobId, Job>, tasks: map<TaskId, HumanTask>,
    events: seq<Event>, sequence: nat, logs: map<JobId, string>)

  const EMPTY := Snapshot(map[], map[], map[], [], 0, map[])

  predicate IsTerminal(state: RunState) {
    state.RunSucceeded? || state.RunFailed? || state.RunCanceled? || state.RunExpired?
  }

  // The run states in which a job is queued or running.
  predicate IsActive(state: RunState) {
    state.RunQueued? || state.RunRunning? || state.RunResuming?
  }

  predicate JobActive(job: Job) {
    job.state.JobQueued? || job.state.JobRunning?
  }

  function RetentionCutoff(state: RunState, successOlderThan: Time, failureOlderThan: Time): Time {
    if state.RunSucceeded? then successOlderThan else failureOlderThan
  }

  function NonZeroTime(value: Time, fallback: Time): Time {
    if value == 0 then fallback else value
  }

  // internal/state/job_views.go

  function PinnedWorkspace(p: Payload): string {
    if p.legacy.Some? && p.legacy.value.workspace != "" then p.legacy.value.workspace else p.workspace
  }

  function JobWorkspace(job: Job): string {
    var p := job.payload;
    NormalizeWorkspace(if p.workspace == "" then NormalizeWorkspace(PinnedWorkspace(p)) else p.workspace)
  }

  function JobAppKey(job: Job): string {
    var p := job.payload;
    var pinned := if p.legacy.Some? && p.legacy.value.app != "" then p.legacy.value.app else p.app;
    if Trim(p.app) != "" then Trim(p.app) else Trim(pinned)
  }

  function JobMaxConcurrent(job: Job): Option<int> {
    var p := job.payload;
    var pinned := if p.legacy.Some? && p.legacy.value.maxConcurrent.Some?
                  then p.legacy.value.maxConcurrent else p.maxConcurrent;
    if pinned.Some? && pinned.value > 0 then pinned else None
  }

  function JobTag(job: Job): string {
    if Trim(job.payload.tag) != "" then Trim(job.payload.tag) else job.payload.routeTag
  }

  function JobRequiredLabels(job: Job): seq<string> {
    if job.payload.requiredLabels.Some? then job.payload.requiredLabels.value else job.payload.requiredCapabilities
  }

  function NormalizeClaimTags(tags: seq<string>): set<string> {
    set t | t in tags && Trim(t) != "" :: Trim(t)
  }

  predicate ClaimAllowed(job: Job, tags: set<string>, labels: set<string>) {
    && (tags != {} ==> JobTag(job) in tags)
    && (forall required | required in JobRequiredLabels(job) :: required in labels)
  }

  /** The running jobs that count against the same workspace and app. */
  function RunningPeers(jobs: map<JobId, Job>, job: Job): set<JobId> {
    set k | k in jobs && jobs[k].state.JobRunning?
            && JobWorkspace(jobs[k]) == JobWorkspace(job) && JobAppKey(jobs[k]) == JobAppKey(job)
  }

  predicate CapReached(jobs: map<JobId, Job>, job: Job) {
    var limit := JobMaxConcurrent(job);
    limit.Some? && JobAppKey(job) != "" && |RunningPeers(jobs, job)| >= limit.value
  }

  /** The order in which queued jobs are claimed. */
  predicate ClaimedBefore(a: Job, b: Job) {
    || a.priority < b.priority
    || (a.priority == b.priority && (a.createdAt < b.createdAt || (a.createdAt == b.createdAt && Less(a.id, b.id))))
  }

  // internal/state/state.go

  const DEFAULT_LEASE_TTL := 30_000_000_000
  const DEFAULT_PRIORITY := 100

  function EffectiveTtl(ttl: int): int {
    if ttl <= 0 then DEFAULT_LEASE_TTL else ttl
  }

  /** NewActionJob, with the generated identifier and the clock as arguments. */
  function NewActionJob(run: Run, input: Input, id: JobId, now: Time): Job {
    var d := run.deployment;
    var createdBy := if Trim(run.createdBy) != "" then Trim(run.createdBy) else "system";
    var permissionedAs := if Trim(run.permissionedAs) != "" then Trim(run.permissionedAs) else createdBy;
    Job(id, run.id, JobQueued,
        Payload(NormalizeWorkspace(d.workspace), run.app, run.action, d.routeTag, d.routeTag, d.maxConcurrent,
                d.requiredLabels, d.requiredCapabilities, None, input, run.adapter, createdBy, permissionedAs),
        DEFAULT_PRIORITY, 0, "", None, None, None, None, now, now)
  }

  function CancelActor(job: Job, run: Run, actor: string): string {
    FirstNonEmpty([Trim(actor), Trim(run.permissionedAs), Trim(run.createdBy),
                   Trim(job.payload.permissionedAs), Trim(job.payload.createdBy), "system"])
  }

  function ReasonValue(job: Job): string {
    if job.canceledReason.Some? then job.canceledReason.value else ""
  }
}
