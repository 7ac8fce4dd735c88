/**
 * The invariant that makes the single operations safe: every run agrees with
 * what its surviving events say, an active run has exactly the one active job
 * its events name, and a waiting run exactly the one pending task it names.
 */
module JobInvariant {
  import opened Wrappers
  import opened JobModel

  /** What a run's events say about it: its state and its active job, if any. */
  datatype View = View(state: Option<RunState>, job: Option<JobId>, running: bool)

  const NO_VIEW := View(None, None, false)

  function Fold(v: View, body: EventBody): View {
    match body
    case EvRunCreated(_, _) => View(Some(RunQueued), None, false)
    case EvJobEnqueued(j) => v.(job := Some(j), running := false)
    case EvRunRunning(_) => v.(state := Some(RunRunning))
    case EvJobClaimed(j, _, _) => v.(job := Some(j), running := true)
    case EvLeaseExpired(j) => v.(job := Some(j), running := false)
    case EvRunSucceeded(_) => View(Some(RunSucceeded), None, false)
    case EvRunFailed(_, _, _) => View(Some(RunFailed), None, false)
    case EvTaskCreated(_, _) => View(Some(RunWaitingHuman), None, false)
    case EvTaskResumed(_, j) => View(Some(RunResuming), Some(j), false)
    case EvJobCanceled(_, _, _) => View(Some(RunCanceled), None, false)
    case EvRunCanceled(_) => View(Some(RunCanceled), None, false)
    case EvRunRetried(j) => View(Some(RunQueued), Some(j), false)
  }

  /** Replays the events of one run, in order. */
  function Replay(events: seq<Event>, runId: RunId): View {
    if events == [] then NO_VIEW
    else
      var last := events[|events| - 1];
      var v := Replay(events[..|events| - 1], runId);
      if last.runId == runId then Fold(v, last.body) else v
  }

  /** The job_claimed events of one job, in order. */
  function ClaimLog(events: seq<Event>, jobId: JobId): seq<Event> {
    if events == [] then []
    else
      var last := events[|events| - 1];
      ClaimLog(events[..|events| - 1], jobId)
      + if last.body.EvJobClaimed? && last.body.jobId == jobId then [last] else []
  }

  predicate EventsOk(s: Snapshot) {
    && (forall i | 0 <= i < |s.events| :: 0 < s.events[i].id <= s.sequence && s.events[i].runId in s.runs)
    && (forall i, k | 0 <= i < k < |s.events| :: s.events[i].id < s.events[k].id)
  }

  ghost predicate ClaimsKnown(s: Snapshot) {
    forall j {:trigger ClaimLog(s.events, j)} :: j !in s.jobs ==> ClaimLog(s.events, j) == []
  }

  /** What a run in each state carries. */
  predicate OutcomeOk(run: Run) {
    && (IsActive(run.state) ==> run.taskId == "" && run.error.None?)
    && (run.state.RunSucceeded? ==> run.result.Some? && run.output == run.result.value.output && run.error.None? && run.taskId == "")
    && (run.state.RunFailed? ==> run.result.Some? && run.taskId == ""
                                 && run.error == Some(ActionFailed(run.result.value.error, run.result.value.exitCode)))
    && (run.state.RunCanceled? ==> run.error.Some? && !run.error.value.ActionFailed?)
    && (run.state.RunWaitingHuman? ==> run.result.Some? && run.error.None?)
  }

  predicate ViewOk(s: Snapshot, r: RunId)
    requires r in s.runs
  {
    var run, v := s.runs[r], Replay(s.events, r);
    if run.state.RunExpired? then v.state.Some? && IsActive(v.state.value)
    else
      && v.state == Some(run.state)
      && (v.job.Some? <==> IsActive(run.state))
      && (v.running ==> run.state.RunRunning?)
      && (v.job.Some? ==>
            && v.job.value in s.jobs && s.jobs[v.job.value].runId == r
            && s.jobs[v.job.value].state == if v.running then JobRunning else JobQueued)
  }

  predicate RunOk(s: Snapshot, r: RunId)
    requires r in s.runs
  {
    var run := s.runs[r];
    && run.id == r && OutcomeOk(run) && ViewOk(s, r)
    && (run.state.RunWaitingHuman? ==>
          run.taskId in s.tasks && s.tasks[run.taskId].runId == r && s.tasks[run.taskId].state.TaskPending?)
  }

  /** The claims on record are numbered 1, 2, ... and the last one is the holder's. */
  predicate AttemptsOk(s: Snapshot, j: JobId)
    requires j in s.jobs
  {
    var job, claims := s.jobs[j], ClaimLog(s.events, j);
    && |claims| == job.attempt
    && (forall i | 0 <= i < |claims| ::
          claims[i].body.EvJobClaimed? && claims[i].body.jobId == j && claims[i].body.attempt == i + 1 && claims[i].runId == job.runId)
    && (job.state.JobRunning? ==>
          && job.attempt > 0
          && job.leaseOwner == claims[job.attempt - 1].body.workerId
          && job.startedAt == Some(claims[job.attempt - 1].createdAt))
  }

  predicate LeaseOk(job: Job) {
    && (job.state.JobRunning? ==> job.leaseExpiresAt.Some?)
    && (job.state.JobQueued? ==> job.leaseExpiresAt.None? && job.leaseOwner == "" && job.startedAt.None?)
    && (job.canceledBy.Some? ==> (job.state.JobRunning? || job.state.JobFailed?) && job.canceledReason.Some? && job.canceledBy.value != "")
  }

  /** A job's input is its run's, with the answer of a completed task of that run merged in after a resume. */
  predicate InputOk(s: Snapshot, job: Job)
    requires job.runId in s.runs
  {
    match job.payload.input
    case Caller(json) => json == s.runs[job.runId].input
    case Resumed(original, t, resume) =>
      && original == s.runs[job.runId].input
      && t in s.tasks && s.tasks[t].runId == job.runId && s.tasks[t].state.TaskCompleted? && s.tasks[t].resumeInput == Some(resume)
  }

  predicate JobOk(s: Snapshot, j: JobId)
    requires j in s.jobs
  {
    var job := s.jobs[j];
    && job.id == j && j != "" && job.runId in s.runs
    && AttemptsOk(s, j) && LeaseOk(job) && InputOk(s, job)
    && (JobActive(job) ==> !s.runs[job.runId].state.RunExpired? && Replay(s.events, job.runId).job == Some(j))
  }

  predicate TaskOk(s: Snapshot, t: TaskId)
    requires t in s.tasks
  {
    var task := s.tasks[t];
    && task.id == t && task.runId in s.runs
    && (task.state.TaskPending? ==> s.runs[task.runId].state.RunWaitingHuman? && s.runs[task.runId].taskId == t)
  }

  /** The event that records a running job's current claim. */
  function Stamp(s: Snapshot, j: JobId): nat {
    var claims := ClaimLog(s.events, j);
    if claims == [] then 0 else claims[|claims| - 1].id
  }

  /** The running jobs of the same workspace and app claimed no later than this one. */
  function EarlierPeers(s: Snapshot, j: JobId): set<JobId>
    requires j in s.jobs
  {
    set k | k in RunningPeers(s.jobs, s.jobs[j]) && Stamp(s, k) <= Stamp(s, j)
  }

  predicate CapOk(s: Snapshot, j: JobId)
    requires j in s.jobs
  {
    var job := s.jobs[j];
    job.state.JobRunning? && JobMaxConcurrent(job).Some? && JobAppKey(job) != ""
    ==> |EarlierPeers(s, j)| <= JobMaxConcurrent(job).value
  }

  ghost predicate Inv(s: Snapshot) {
    && EventsOk(s) && ClaimsKnown(s) && s.logs.Keys <= s.jobs.Keys
    && (forall r | r in s.runs :: RunOk(s, r))
    && (forall j | j in s.jobs :: JobOk(s, j))
    && (forall t | t in s.tasks :: TaskOk(s, t))
  }

  ghost predicate CapInv(s: Snapshot) {
    forall j | j in s.jobs :: CapOk(s, j)
  }

  lemma {:induction false} Appended(events: seq<Event>, e: Event)
    ensures forall r {:trigger Replay(events + [e], r)} :: Replay(events + [e], r) == if e.runId == r then Fold(Replay(events, r), e.body) else Replay(events, r)
    ensures forall j {:trigger ClaimLog(events + [e], j)} ::
              ClaimLog(events + [e], j) == ClaimLog(events, j) + if e.body.EvJobClaimed? && e.body.jobId == j then [e] else []
  {}

  /**
   * The frame rule: if a step touches only the runs R, the jobs J and the tasks
   * K, leaves no active job of R outside J and no pending task of R outside K,
   * and what it touches is in order, then everything is in order.
   */
  ghost predicate Touches(s: Snapshot, s': Snapshot, R: set<RunId>, J: set<JobId>, K: set<TaskId>) {
    && s.runs.Keys + R == s'.runs.Keys && s.jobs.Keys + J == s'.jobs.Keys && s.tasks.Keys + K == s'.tasks.Keys
    && (forall r | r in s.runs && r !in R :: s'.runs[r] == s.runs[r] && Replay(s'.events, r) == Replay(s.events, r))
    && (forall r | r in s.runs && r in R :: s'.runs[r].input == s.runs[r].input)
    && (forall j | j in s.jobs && j !in J :: s'.jobs[j] == s.jobs[j] && ClaimLog(s'.events, j) == ClaimLog(s.events, j))
    && (forall t | t in s.tasks && t !in K :: s'.tasks[t] == s.tasks[t])
    && (forall t | t in s.tasks && t in K :: s.tasks[t].state.TaskPending?)
    && (forall j | j in J :: s'.jobs[j].runId in R)
    && (forall t | t in K :: s'.tasks[t].runId in R && (t in s.tasks ==> s.tasks[t].runId in R))
    && (forall j | j in s.jobs && j !in J && s.jobs[j].runId in R :: !JobActive(s.jobs[j]))
    && (forall j | j in s.jobs && j in J :: s.jobs[j].runId == s'.jobs[j].runId)
    && (forall t | t in s.tasks && t !in K && s.tasks[t].runId in R :: !s.tasks[t].state.TaskPending?)
  }

  lemma Frame(s: Snapshot, s': Snapshot, R: set<RunId>, J: set<JobId>, K: set<TaskId>)
    requires Inv(s) && Touches(s, s', R, J, K)
    requires EventsOk(s') && ClaimsKnown(s') && s'.logs.Keys <= s'.jobs.Keys
    requires forall r | r in R :: RunOk(s', r)
    requires forall j | j in J :: JobOk(s', j)
    requires forall t | t in K :: TaskOk(s', t)
    ensures Inv(s')
  {
    forall r | r in s'.runs && r !in R ensures RunOk(s', r) { FrameRun(s, s', R, J, K, r); }
    forall j | j in s'.jobs && j !in J ensures JobOk(s', j) { FrameJob(s, s', R, J, K, j); }
    hide RunOk, JobOk;
    forall t | t in s'.tasks && t !in K ensures TaskOk(s', t) { assert TaskOk(s, t); }
  }

  lemma FrameRun(s: Snapshot, s': Snapshot, R: set<RunId>, J: set<JobId>, K: set<TaskId>, r: RunId)
    requires Inv(s) && Touches(s, s', R, J, K) && r in s'.runs && r !in R
    ensures RunOk(s', r)
  {
    hide JobOk, TaskOk, ClaimLog, Replay;
    assert RunOk(s, r);
    var v := Replay(s.events, r);
    if v.job.Some? && !s.runs[r].state.RunExpired? {
      assert v.job.value in s.jobs;
    }
  }

  lemma FrameJob(s: Snapshot, s': Snapshot, R: set<RunId>, J: set<JobId>, K: set<TaskId>, j: JobId)
    requires Inv(s) && Touches(s, s', R, J, K) && j in s'.jobs && j !in J
    ensures JobOk(s', j)
  {}
}
