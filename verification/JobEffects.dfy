/**
 * What a caller observes of each operation: its outcome and the records before
 * and after it, field by field. Nothing here names the step functions' helpers.
 */
module JobEffects {
  import opened Wrappers
  import opened Text
  import opened Sorting
  import opened JobModel
  import opened JobSteps
  import opened JobInvariant
  import opened JobPreservation
  import opened JobCap
  import opened JobTraces
  import opened JobOutcomes

  // Reading a pinned payload.

  /** The workspace a job belongs to: its own, else that of the deployment copy it carries, else the default one. */
  predicate InWorkspace(p: Payload, workspace: string) {
    && (p.workspace != "" ==> workspace == NormalizeWorkspace(p.workspace))
    && (p.workspace == "" && p.legacy.Some? ==> workspace == NormalizeWorkspace(p.legacy.value.workspace))
    && (p.workspace == "" && p.legacy.None? ==> workspace == "default")
  }

  predicate InApp(p: Payload, app: string) {
    && (Trim(p.app) != "" ==> app == Trim(p.app))
    && (Trim(p.app) == "" && p.legacy.Some? ==> app == Trim(p.legacy.value.app))
    && (Trim(p.app) == "" && p.legacy.None? ==> app == "")
  }

  /** The job pins the cap n: in the deployment copy it carries if that has one, else in its own field. */
  predicate PinsCap(p: Payload, n: int) {
    && n > 0
    && (p.legacy.Some? && p.legacy.value.maxConcurrent.Some? ==> p.legacy.value.maxConcurrent == Some(n))
    && (p.legacy.None? || p.legacy.value.maxConcurrent.None? ==> p.maxConcurrent == Some(n))
  }

  /** The worker serves the job's tag, if it names any, and offers every label the job asks for. */
  predicate Admits(p: Payload, tags: set<string>, labels: set<string>) {
    && (tags == {} || (if Trim(p.tag) != "" then Trim(p.tag) in tags else p.routeTag in tags))
    && (p.requiredLabels.Some? ==> forall l | l in p.requiredLabels.value :: l in labels)
    && (p.requiredLabels.None? ==> forall l | l in p.requiredCapabilities :: l in labels)
  }

  lemma PinnedFields(job: Job, workspace: string, app: string, n: int)
    ensures InWorkspace(job.payload, workspace) <==> JobWorkspace(job) == workspace
    ensures InApp(job.payload, app) <==> JobAppKey(job) == app
    ensures PinsCap(job.payload, n) <==> JobMaxConcurrent(job) == Some(n)
  {
    NormalizeTwice(job.payload.workspace);
    NormalizeTwice(PinnedWorkspace(job.payload));
    assert NormalizeWorkspace("") == "default" && Trim("") == "" && NormalizeWorkspace("default") == "default" by { NormalizeTwice(""); }
    hide NormalizeWorkspace, Trim;
  }

  lemma AdmittedFields(job: Job, tags: set<string>, labels: set<string>)
    ensures Admits(job.payload, tags, labels) <==> ClaimAllowed(job, tags, labels)
  {
    hide Trim;
  }

  /** normalizeClaimTags: what the caller names, trimmed, without the blank ones. */
  lemma TagsAreTrimmed(tags: seq<string>, t: string)
    ensures t in NormalizeClaimTags(tags) <==> t != "" && exists i :: 0 <= i < |tags| && Trim(tags[i]) == t
  {
    hide Trim;
    if i :| 0 <= i < |tags| && Trim(tags[i]) == t { assert tags[i] in tags; }
  }

  // Requeueing.

  predicate Lapsed(job: Job, now: Time) {
    job.state == JobRunning && job.leaseExpiresAt.Some? && job.leaseExpiresAt.value <= now
  }

  /** What a claim first does to every job: a lapsed lease returns the job to the queue, or ends it if it was canceled. */
  predicate AfterRequeue(job: Job, job': Job, now: Time) {
    && (!Lapsed(job, now) ==> job' == job)
    && (Lapsed(job, now) && job.canceledBy.None? ==>
          job' == job.(state := JobQueued, leaseOwner := "", leaseExpiresAt := None, startedAt := None, updatedAt := now))
    && (Lapsed(job, now) && job.canceledBy.Some? ==>
          job' == job.(state := JobFailed, leaseExpiresAt := None, updatedAt := now))
  }

  lemma RequeuedOne(s: Snapshot, id: JobId, now: Time)
    requires Inv(s) && id in s.jobs
    ensures var s' := RequeueOne(s, id, now);
      && s'.jobs.Keys == s.jobs.Keys && AfterRequeue(s.jobs[id], s'.jobs[id], now)
      && forall k | k in s.jobs && k != id :: s'.jobs[k] == s.jobs[k]
  {
    hide Inv, RunOk, JobOk;
    Facts(s, id);
  }

  lemma {:induction false} RequeuedAll(s: Snapshot, order: seq<JobId>, now: Time)
    requires Inv(s)
    ensures var s' := RequeueAll(s, order, now);
      && s'.jobs.Keys == s.jobs.Keys
      && forall k | k in s.jobs :: if k in order then AfterRequeue(s.jobs[k], s'.jobs[k], now) else s'.jobs[k] == s.jobs[k]
  {
    hide Inv, RequeueOne;
    if order != [] {
      var front, id := order[..|order| - 1], order[|order| - 1];
      RequeuedAll(s, front, now);
      RequeueAllKeeps(s, front, now);
      assert order == front + [id];
      var mid := RequeueAll(s, front, now);
      if id in mid.jobs { RequeuedOne(mid, id, now); }
    }
  }

  // Claiming.

  predicate Waits(job: Job, now: Time) {
    job.state == JobQueued || (Lapsed(job, now) && job.canceledBy.None?)
  }

  /** The jobs of a workspace and app that run under a lease that has not lapsed. */
  function Busy(s: Snapshot, now: Time, workspace: string, app: string): set<JobId> {
    set k | k in s.jobs && s.jobs[k].state == JobRunning && !Lapsed(s.jobs[k], now)
            && InWorkspace(s.jobs[k].payload, workspace) && InApp(s.jobs[k].payload, app)
  }

  /** No cap stands in the way: fewer jobs of its workspace and app are busy than it pins. */
  ghost predicate HasRoom(s: Snapshot, now: Time, p: Payload) {
    forall n, workspace, app | PinsCap(p, n) && InWorkspace(p, workspace) && InApp(p, app) && app != "" :: |Busy(s, now, workspace, app)| < n
  }

  ghost predicate MayTake(s: Snapshot, tags: set<string>, labels: set<string>, now: Time, j: JobId) {
    j in s.jobs && Waits(s.jobs[j], now) && Admits(s.jobs[j].payload, tags, labels) && HasRoom(s, now, s.jobs[j].payload)
  }

  /** Lower priority number first, then the older, then the lesser identifier. */
  predicate Precedes(a: Job, b: Job) {
    || a.priority < b.priority
    || (a.priority == b.priority && a.createdAt < b.createdAt)
    || (a.priority == b.priority && a.createdAt == b.createdAt && Less(a.id, b.id))
  }

  lemma {:induction false} RequeuedPeers(s: Snapshot, order: seq<JobId>, now: Time, job: Job, workspace: string, app: string)
    requires Inv(s) && Enumerates(order, s.jobs.Keys) && InWorkspace(job.payload, workspace) && InApp(job.payload, app)
    ensures RunningPeers(RequeueAll(s, order, now).jobs, job) == Busy(s, now, workspace, app)
  {
    hide Inv, RequeueAll, JobWorkspace, JobAppKey, InWorkspace, InApp;
    RequeuedAll(s, order, now);
    PinnedFields(job, workspace, app, 1);
    var s1 := RequeueAll(s, order, now);
    forall k | k in s.jobs ensures k in RunningPeers(s1.jobs, job) <==> k in Busy(s, now, workspace, app) {
      PinnedFields(s.jobs[k], workspace, app, 1);
      assert AfterRequeue(s.jobs[k], s1.jobs[k], now);
      SamePool(s.jobs[k], s1.jobs[k]);
    }
  }

  lemma {:induction false} RoomMeansBelowCap(s: Snapshot, order: seq<JobId>, now: Time, job: Job)
    requires Inv(s) && Enumerates(order, s.jobs.Keys)
    ensures HasRoom(s, now, job.payload) <==> !CapReached(RequeueAll(s, order, now).jobs, job)
  {
    var workspace, app := JobWorkspace(job), JobAppKey(job);
    PinnedFields(job, workspace, app, 1);
    RequeuedPeers(s, order, now, job, workspace, app);
    hide Inv, RequeueAll, InWorkspace, InApp, PinsCap, JobWorkspace, JobAppKey, JobMaxConcurrent, Busy, RunningPeers;
    forall n, w, a ensures (InWorkspace(job.payload, w) <==> w == workspace) && (InApp(job.payload, a) <==> a == app)
                           && (PinsCap(job.payload, n) <==> JobMaxConcurrent(job) == Some(n)) {
      PinnedFields(job, w, a, n);
    }
    var limit := JobMaxConcurrent(job);
    if limit.Some? { assert PinsCap(job.payload, limit.value) && InWorkspace(job.payload, workspace) && InApp(job.payload, app); }
  }

  lemma {:induction false} MayTakeMeansClaimable(s: Snapshot, order: seq<JobId>, tags: set<string>, labels: set<string>, now: Time, j: JobId)
    requires Inv(s) && Enumerates(order, s.jobs.Keys)
    ensures MayTake(s, tags, labels, now, j) <==> Claimable(RequeueAll(s, order, now), tags, labels, j)
  {
    hide Inv, RequeueAll, Admits, HasRoom, ClaimAllowed, CapReached;
    RequeuedAll(s, order, now);
    if j in s.jobs {
      var s1 := RequeueAll(s, order, now);
      assert AfterRequeue(s.jobs[j], s1.jobs[j], now);
      AdmittedFields(s1.jobs[j], tags, labels);
      RoomMeansBelowCap(s, order, now, s1.jobs[j]);
    }
  }

  /** The record of the job a claim hands out. */
  function Taken(job: Job, worker: string, ttl: int, now: Time): Job {
    job.(state := JobRunning, attempt := job.attempt + 1, leaseOwner := worker,
         leaseExpiresAt := Some(now + if ttl <= 0 then 30_000_000_000 else ttl), startedAt := Some(now), updatedAt := now)
  }

  lemma AssignedRecord(s: Snapshot, j: JobId, worker: string, ttl: int, now: Time)
    requires Inv(s) && j in s.jobs && s.jobs[j].state == JobQueued
    ensures var s' := Assign(s, j, worker, now + EffectiveTtl(ttl), now);
      && s'.jobs == s.jobs[j := Taken(s.jobs[j], worker, ttl, now)]
      && s.jobs[j].runId in s'.runs && s'.runs[s.jobs[j].runId].state == RunRunning
      && s'.events != [] && s'.events[|s'.events| - 1] == Event(s'.sequence, s.jobs[j].runId, EvJobClaimed(j, worker, s.jobs[j].attempt + 1), now)
  {
    hide Inv, RunOk, JobOk;
    Facts(s, j);
  }

  /**
   * A claim takes the first of the jobs that wait, are admitted by the worker's
   * tags and labels and find room under their cap, in the order of priority,
   * age and identifier, and leases it from now on; it takes none exactly when
   * there is none, and then nothing changes. Every other job is as requeueing
   * left it.
   */
  lemma ClaimExactly(s: Snapshot, op: Op, now: Time)
    requires Inv(s) && op.OpClaim? && Enabled(s, op, now)
    ensures op.pick.None? <==> forall j :: !MayTake(s, op.tags, op.labels, now, j)
    ensures op.pick.None? ==> Attempt(s, op, now) == Failure(NoQueuedJob) && Next(s, op, now) == s
    ensures op.pick.Some? ==>
      var j, s' := op.pick.value, Next(s, op, now);
      && MayTake(s, op.tags, op.labels, now, j)
      && (forall k | MayTake(s, op.tags, op.labels, now, k) && k != j :: Precedes(s.jobs[j], s.jobs[k]))
      && s'.jobs.Keys == s.jobs.Keys
      && (exists waiting :: AfterRequeue(s.jobs[j], waiting, now) && s'.jobs[j] == Taken(waiting, op.worker, op.ttl, now))
      && (forall k | k in s.jobs && k != j :: AfterRequeue(s.jobs[k], s'.jobs[k], now))
      && s.jobs[j].runId in s'.runs && s'.runs[s.jobs[j].runId].state == RunRunning
      && s'.events != [] && s'.events[|s'.events| - 1] == Event(s'.sequence, s.jobs[j].runId, EvJobClaimed(j, op.worker, s.jobs[j].attempt + 1), now)
  {
    hide Inv, RequeueAll, Assign, Claimable, MayTake, AfterRequeue, Taken;
    forall j ensures MayTake(s, op.tags, op.labels, now, j) <==> Claimable(RequeueAll(s, op.order, now), op.tags, op.labels, j) {
      MayTakeMeansClaimable(s, op.order, op.tags, op.labels, now, j);
    }
    if op.pick.Some? {
      ClaimHandsOut(s, op, now);
    }
  }

  lemma {:induction false} ClaimHandsOut(s: Snapshot, op: Op, now: Time)
    requires Inv(s) && op.OpClaim? && op.pick.Some? && Enabled(s, op, now)
    requires forall j :: MayTake(s, op.tags, op.labels, now, j) <==> Claimable(RequeueAll(s, op.order, now), op.tags, op.labels, j)
    ensures var j, s' := op.pick.value, Next(s, op, now);
      && MayTake(s, op.tags, op.labels, now, j)
      && (forall k | MayTake(s, op.tags, op.labels, now, k) && k != j :: k in s.jobs && Precedes(s.jobs[j], s.jobs[k]))
      && s'.jobs.Keys == s.jobs.Keys
      && (exists waiting :: AfterRequeue(s.jobs[j], waiting, now) && s'.jobs[j] == Taken(waiting, op.worker, op.ttl, now))
      && (forall k | k in s.jobs && k != j :: AfterRequeue(s.jobs[k], s'.jobs[k], now))
      && s.jobs[j].runId in s'.runs && s'.runs[s.jobs[j].runId].state == RunRunning
      && s'.events != [] && s'.events[|s'.events| - 1] == Event(s'.sequence, s.jobs[j].runId, EvJobClaimed(j, op.worker, s.jobs[j].attempt + 1), now)
  {
    hide Inv, RequeueAll, Assign, ClaimAllowed, CapReached, MayTake, Taken;
    var s1, j := RequeueAll(s, op.order, now), op.pick.value;
    RequeuedAll(s, op.order, now);
    RequeueAllKeeps(s, op.order, now);
    AssignedRecord(s1, j, op.worker, op.ttl, now);
    assert AfterRequeue(s.jobs[j], s1.jobs[j], now);
    forall k | MayTake(s, op.tags, op.labels, now, k) && k != j ensures k in s.jobs && Precedes(s.jobs[j], s.jobs[k]) {
      assert Claimable(s1, op.tags, op.labels, k);
      assert AfterRequeue(s.jobs[k], s1.jobs[k], now);
    }
  }

  // The cap.

  /** The event that records the claim under which a job runs now. */
  predicate IsClaimOf(e: Event, s: Snapshot, k: JobId)
    requires k in s.jobs
  {
    e in s.events && e.body.EvJobClaimed? && e.body.jobId == k && e.body.attempt == s.jobs[k].attempt
  }

  ghost predicate ClaimedNoLater(s: Snapshot, k: JobId, j: JobId)
    requires k in s.jobs && j in s.jobs
  {
    exists e, f :: IsClaimOf(e, s, k) && IsClaimOf(f, s, j) && e.id <= f.id
  }

  lemma {:induction false} ClaimsAreLogged(events: seq<Event>, e: Event)
    requires e in events && e.body.EvJobClaimed?
    ensures e in ClaimLog(events, e.body.jobId)
  {
    if e != events[|events| - 1] { ClaimsAreLogged(events[..|events| - 1], e); }
  }

  lemma StampOf(s: Snapshot, e: Event, k: JobId)
    requires Inv(s) && k in s.jobs && IsClaimOf(e, s, k)
    ensures Stamp(s, k) == e.id
  {
    hide ClaimLog, Replay;
    ClaimsAreLogged(s.events, e);
    assert JobOk(s, k);
    var claims := ClaimLog(s.events, k);
    var i :| 0 <= i < |claims| && claims[i] == e;
  }

  /** The running jobs of a workspace and app that were claimed no later than j. */
  ghost function ClaimedUpTo(s: Snapshot, j: JobId, workspace: string, app: string): set<JobId>
    requires j in s.jobs
  {
    set k | k in s.jobs && s.jobs[k].state == JobRunning && InWorkspace(s.jobs[k].payload, workspace) && InApp(s.jobs[k].payload, app)
            && ClaimedNoLater(s, k, j)
  }

  lemma WithinCap(s: Snapshot, j: JobId, n: int, workspace: string, app: string)
    requires Inv(s) && CapInv(s) && j in s.jobs && s.jobs[j].state == JobRunning && PinsCap(s.jobs[j].payload, n)
    requires InWorkspace(s.jobs[j].payload, workspace) && InApp(s.jobs[j].payload, app) && app != ""
    ensures |ClaimedUpTo(s, j, workspace, app)| <= n
  {
    hide Inv, Stamp, JobWorkspace, JobAppKey, JobMaxConcurrent, InWorkspace, InApp, PinsCap, IsClaimOf;
    PinnedFields(s.jobs[j], workspace, app, n);
    forall k | k in ClaimedUpTo(s, j, workspace, app) ensures k in EarlierPeers(s, j) {
      PinnedFields(s.jobs[k], workspace, app, n);
      var e, f :| IsClaimOf(e, s, k) && IsClaimOf(f, s, j) && e.id <= f.id;
      StampOf(s, e, k);
      StampOf(s, f, j);
    }
    SubsetSize(ClaimedUpTo(s, j, workspace, app), EarlierPeers(s, j));
    assert CapOk(s, j);
  }

  /**
   * In every reachable state, a running job that pins the cap n has at most n
   * running jobs of its workspace and app that were claimed no later than it,
   * itself included, whatever those pin.
   */
  lemma PinnedCapAlways(ss: seq<Snapshot>, calls: seq<Call>, i: nat, j: JobId, n: int, workspace: string, app: string)
    requires Trace(ss, calls) && i < |ss| && j in ss[i].jobs && ss[i].jobs[j].state == JobRunning && PinsCap(ss[i].jobs[j].payload, n)
    requires InWorkspace(ss[i].jobs[j].payload, workspace) && InApp(ss[i].jobs[j].payload, app) && app != ""
    ensures |ClaimedUpTo(ss[i], j, workspace, app)| <= n
  {
    hide Inv, CapInv, Trace, ClaimedUpTo;
    InvAlways(ss, calls, i);
    WithinCap(ss[i], j, n, workspace, app);
  }

  /** If all running jobs of a workspace and app pin the cap n, there are at most n of them. */
  lemma PinnedUniformly(ss: seq<Snapshot>, calls: seq<Call>, i: nat, workspace: string, app: string, n: int)
    requires Trace(ss, calls) && i < |ss| && app != "" && n > 0
    requires forall k | k in ss[i].jobs && ss[i].jobs[k].state == JobRunning && InWorkspace(ss[i].jobs[k].payload, workspace)
                        && InApp(ss[i].jobs[k].payload, app) :: PinsCap(ss[i].jobs[k].payload, n)
    ensures |set k | k in ss[i].jobs && ss[i].jobs[k].state == JobRunning && InWorkspace(ss[i].jobs[k].payload, workspace)
                     && InApp(ss[i].jobs[k].payload, app)| <= n
  {
    var s := ss[i];
    var running := set k | k in s.jobs && s.jobs[k].state == JobRunning && InWorkspace(s.jobs[k].payload, workspace) && InApp(s.jobs[k].payload, app);
    if running != {} {
      var j :| j in running;
      hide Inv, CapInv, Trace, JobWorkspace, JobAppKey, JobMaxConcurrent, InWorkspace, InApp, PinsCap;
      PinnedFields(s.jobs[j], workspace, app, n);
      forall k | k in s.jobs ensures k in RunningPeers(s.jobs, s.jobs[j]) <==> k in running { PinnedFields(s.jobs[k], workspace, app, n); }
      assert RunningPeers(s.jobs, s.jobs[j]) == running;
      forall k | k in running ensures JobMaxConcurrent(s.jobs[k]) == Some(n) { PinnedFields(s.jobs[k], workspace, app, n); }
      hide RunningPeers;
      UniformCapAlways(ss, calls, i, s.jobs[j], n);
    }
  }

  // Leases and completions.

  /** The lease names the attempt under which the job runs. */
  predicate Holds(s: Snapshot, lease: Lease) {
    && lease.jobId in s.jobs && s.jobs[lease.jobId].state == JobRunning
    && s.jobs[lease.jobId].leaseOwner == lease.workerId && s.jobs[lease.jobId].attempt == lease.attempt
  }

  /** And it has not run out: at the very instant of expiry it still counts. */
  predicate HoldsAt(s: Snapshot, lease: Lease, now: Time) {
    Holds(s, lease) && (s.jobs[lease.jobId].leaseExpiresAt.Some? ==> now <= s.jobs[lease.jobId].leaseExpiresAt.value)
  }

  /** A heartbeat renews a held lease from now on, whether it has lapsed or not, and changes nothing else. */
  lemma HeartbeatExactly(s: Snapshot, lease: Lease, ttl: int, now: Time)
    requires Inv(s)
    ensures var s' := Next(s, OpHeartbeat(lease, ttl), now);
      s' == if Holds(s, lease)
            then s.(jobs := s.jobs[lease.jobId := s.jobs[lease.jobId].(leaseExpiresAt := Some(now + if ttl <= 0 then 30_000_000_000 else ttl), updatedAt := now)])
            else s
    ensures HoldsLease(s, lease) <==> Holds(s, lease)
  {
    hide Inv, RunOk, JobOk;
    if Holds(s, lease) { Facts(s, lease.jobId); }
  }

  /** Only one job and its run change. */
  predicate OnlyChanges(s: Snapshot, s': Snapshot, j: JobId, r: RunId) {
    && j in s'.jobs && r in s'.runs && s'.jobs == s.jobs[j := s'.jobs[j]] && s'.runs == s.runs[r := s'.runs[r]] && s'.logs == s.logs
  }

  /** The step adds one event, numbered next. */
  predicate Logs(s: Snapshot, s': Snapshot, r: RunId, body: EventBody, now: Time) {
    s'.events == s.events + [Event(s.sequence + 1, r, body, now)] && s'.sequence == s.sequence + 1
  }

  /** A job that carries a cancellation ends with its run canceled, in the name of whoever asked. */
  predicate EndsCanceled(s: Snapshot, s': Snapshot, j: JobId, actor: string, reason: string, message: string, now: Time)
    requires j in s.jobs && s.jobs[j].runId in s.runs
  {
    var r := s.jobs[j].runId;
    && OnlyChanges(s, s', j, r) && s'.tasks == s.tasks
    && s'.jobs[j] == s.jobs[j].(state := JobFailed, leaseExpiresAt := None, canceledBy := Some(actor), canceledReason := Some(reason), updatedAt := now)
    && s'.runs[r] == s.runs[r].(state := RunCanceled, updatedAt := now, error := Some(JobStopped(message, actor, reason)),
                                result := Some(JobResult(j, s.runs[r].app, s.runs[r].action, message, -1, message)))
    && Logs(s, s', r, EvJobCanceled(j, actor, reason), now)
  }

  /** How a run ends, or pauses, with the result handed in. */
  predicate EndsWith(s: Snapshot, s': Snapshot, op: Op, now: Time)
    requires op.OpSucceed? || op.OpFail? || op.OpWait?
    requires op.lease.jobId in s.jobs && s.jobs[op.lease.jobId].runId in s.runs
  {
    var j := op.lease.jobId;
    var r := s.jobs[j].runId;
    var job, run := s.jobs[j], s.runs[r];
    && OnlyChanges(s, s', j, r)
    && match op
       case OpSucceed(_, result) =>
         && s'.tasks == s.tasks && s'.jobs[j] == job.(state := JobSucceeded, leaseExpiresAt := None, updatedAt := now)
         && s'.runs[r] == run.(state := RunSucceeded, output := result.output, result := Some(result), error := None, taskId := "", updatedAt := now)
         && Logs(s, s', r, EvRunSucceeded(j), now)
       case OpFail(_, result) =>
         var message := if result.error == "" && result.exitCode != 0 then "action exited with code " + Decimal(result.exitCode) else result.error;
         && s'.tasks == s.tasks && s'.jobs[j] == job.(state := JobFailed, leaseExpiresAt := None, updatedAt := now)
         && s'.runs[r] == run.(state := RunFailed, result := Some(result.(error := message)),
                               error := Some(ActionFailed(message, result.exitCode)), updatedAt := now)
         && Logs(s, s', r, EvRunFailed(j, message, result.exitCode), now)
       case OpWait(_, result, draft, freshTaskId) =>
         var t := if draft.id == "" then freshTaskId else draft.id;
         && t in s'.tasks && s'.tasks == s.tasks[t := s'.tasks[t]]
         && s'.tasks[t] == HumanTask(t, r, TaskPending, draft.title, None, if draft.createdAt == 0 then now else draft.createdAt, None)
         && s'.jobs[j] == job.(state := JobSucceeded, leaseExpiresAt := None, updatedAt := now)
         && s'.runs[r] == run.(state := RunWaitingHuman, result := Some(result), error := None, taskId := t, updatedAt := now)
         && Logs(s, s', r, EvTaskCreated(j, t), now)
       case _ => false
  }

  // The task to be stored has an identifier that is taken.
  predicate TaskClash(s: Snapshot, op: Op) {
    op.OpWait? && (if op.draft.id == "" then op.freshTaskId else op.draft.id) in s.tasks
  }

  /** A completion is accepted exactly from the holder of a lease that has not run out, unless the task it brings is there already. */
  lemma AcceptedExactly(s: Snapshot, op: Op, now: Time)
    requires Inv(s) && (op.OpSucceed? || op.OpFail? || op.OpWait?)
    ensures Attempt(s, op, now).Success? <==>
      HoldsAt(s, op.lease, now) && (s.jobs[op.lease.jobId].canceledBy.None? ==> !TaskClash(s, op))
    ensures op.lease.jobId !in s.jobs ==> Attempt(s, op, now) == Failure(NotFound)
    ensures op.lease.jobId in s.jobs && !HoldsAt(s, op.lease, now) ==> Attempt(s, op, now) == Failure(InvalidLease)
    ensures Attempt(s, op, now).Failure? ==> Next(s, op, now) == s
  {
    hide Inv, RunOk, JobOk, FailureMessage, ApplyCanceled;
    if op.lease.jobId in s.jobs { Facts(s, op.lease.jobId); }
  }

  /**
   * What an accepted completion reports goes to its job and run and to nothing
   * else; a job that carries a cancellation ends canceled whatever is reported.
   */
  lemma CompletionExactly(s: Snapshot, op: Op, now: Time)
    requires Inv(s) && Enabled(s, op, now) && (op.OpSucceed? || op.OpFail? || op.OpWait?) && Attempt(s, op, now).Success?
    ensures var j, s' := op.lease.jobId, Next(s, op, now);
      && j in s.jobs && s.jobs[j].runId in s.runs
      && (if s.jobs[j].canceledBy.Some? && s.jobs[j].canceledReason.Some?
          then EndsCanceled(s, s', j, s.jobs[j].canceledBy.value, s.jobs[j].canceledReason.value, "job canceled", now)
          else s.jobs[j].canceledBy.None? && EndsWith(s, s', op, now))
  {
    hide Inv, RunOk, JobOk, Decimal;
    Facts(s, op.lease.jobId);
  }

  // New jobs.

  /** The next job of a run: queued, fresh, and pinned to what the run's deployment says. */
  predicate IsNewJob(job: Job, run: Run, input: Input, id: JobId, now: Time) {
    var d, p := run.deployment, job.payload;
    && job.id == id && job.runId == run.id && job.state == JobQueued && job.attempt == 0 && job.priority == 100
    && job.leaseOwner == "" && job.leaseExpiresAt.None? && job.startedAt.None? && job.canceledBy.None? && job.canceledReason.None?
    && job.createdAt == now && job.updatedAt == now
    && p.app == run.app && p.action == run.action && p.input == input && p.triggerKind == run.adapter && p.legacy.None?
    && p.workspace == NormalizeWorkspace(d.workspace) && p.tag == d.routeTag && p.routeTag == d.routeTag
    && p.maxConcurrent == d.maxConcurrent && p.requiredLabels == d.requiredLabels && p.requiredCapabilities == d.requiredCapabilities
    && p.createdBy == (if Trim(run.createdBy) != "" then Trim(run.createdBy) else "system")
    && p.permissionedAs == (if Trim(run.permissionedAs) != "" then Trim(run.permissionedAs) else p.createdBy)
  }

  /**
   * Resuming succeeds exactly for a pending task, valid input and a run that
   * waits: the task keeps the answer, the run resumes, and its next job carries
   * the run's input with that answer.
   */
  lemma ResumeExactly(s: Snapshot, op: Op, now: Time)
    requires Inv(s) && op.OpResume? && Enabled(s, op, now)
    ensures Attempt(s, op, now).Success? <==> op.taskId in s.tasks && s.tasks[op.taskId].state == TaskPending && op.resume.Valid?
    ensures op.taskId !in s.tasks ==> Attempt(s, op, now) == Failure(NotFound)
    ensures op.taskId in s.tasks && s.tasks[op.taskId].state != TaskPending ==> Attempt(s, op, now) == Failure(InvalidState)
    ensures Attempt(s, op, now).Failure? ==> Next(s, op, now) == s
    ensures Attempt(s, op, now).Success? ==>
      var s', t, r := Next(s, op, now), s.tasks[op.taskId], s.tasks[op.taskId].runId;
      var answer := if op.resume.text == "" then "{}" else op.resume.text;
      && r in s.runs && s.runs[r].state == RunWaitingHuman && OnlyChanges(s, s', op.newJobId, r)
      && s'.tasks == s.tasks[op.taskId := t.(state := TaskCompleted, resumeInput := Some(answer), completedAt := Some(now))]
      && s'.runs[r] == s.runs[r].(state := RunResuming, taskId := "", updatedAt := now)
      && IsNewJob(s'.jobs[op.newJobId], s.runs[r], Resumed(s.runs[r].input, op.taskId, answer), op.newJobId, now)
      && Logs(s, s', r, EvTaskResumed(op.taskId, op.newJobId), now)
  {
    hide Inv, RunOk, JobOk, Trim, NormalizeWorkspace;
    if op.taskId in s.tasks {
      TaskHasRun(s, op.taskId);
      RunFacts(s, s.tasks[op.taskId].runId);
    }
  }

  /** A retry reopens exactly a failed, canceled or expired run, blank, with a next job for the caller's input. */
  lemma RetryExactly(s: Snapshot, op: Op, now: Time)
    requires Inv(s) && op.OpRetry? && Enabled(s, op, now)
    ensures Attempt(s, op, now).Success? <==>
      op.runId in s.runs && (s.runs[op.runId].state == RunFailed || s.runs[op.runId].state == RunCanceled || s.runs[op.runId].state == RunExpired)
    ensures Attempt(s, op, now).Failure? ==> Attempt(s, op, now).error == (if op.runId in s.runs then InvalidState else NotFound) && Next(s, op, now) == s
    ensures Attempt(s, op, now).Success? ==>
      var s', r := Next(s, op, now), op.runId;
      && OnlyChanges(s, s', op.newJobId, r) && s'.tasks == s.tasks
      && s'.runs[r] == s.runs[r].(state := RunQueued, output := "", result := None, error := None, taskId := "", updatedAt := now)
      && IsNewJob(s'.jobs[op.newJobId], s.runs[r], Caller(s.runs[r].input), op.newJobId, now)
      && Logs(s, s', r, EvRunRetried(op.newJobId), now)
  {
    hide Inv, RunOk, JobOk, Trim, NormalizeWorkspace;
    if op.runId in s.runs { RunFacts(s, op.runId); }
  }

  /** A run is stored with its first job unless either identifier is taken. */
  lemma CreateExactly(s: Snapshot, run: Run, job: Job, now: Time)
    ensures var op := OpCreate(run, job);
      && (Attempt(s, op, now).Success? <==> run.id !in s.runs && job.id !in s.jobs)
      && (Attempt(s, op, now).Failure? ==> Attempt(s, op, now).error == Conflict && Next(s, op, now) == s)
      && (Attempt(s, op, now).Success? ==>
            var s' := Next(s, op, now);
            && s'.tasks == s.tasks && s'.logs == s.logs && s'.sequence == s.sequence + 2
            && s'.events == s.events + [Event(s.sequence + 1, run.id, EvRunCreated(run.app, run.action), now), Event(s.sequence + 2, run.id, EvJobEnqueued(job.id), now)]
            && s'.runs == s.runs[run.id := run.(createdAt := if run.createdAt == 0 then now else run.createdAt, updatedAt := now)]
            && s'.jobs == s.jobs[job.id := job.(createdAt := if job.createdAt == 0 then now else job.createdAt, updatedAt := now)])
  {}

  // Cancellation.

  /** In whose name a job is canceled: the first of these that is not blank. */
  predicate CancelsAs(name: string, actor: string, run: Run, p: Payload) {
    if Trim(actor) != "" then name == Trim(actor)
    else if Trim(run.permissionedAs) != "" then name == Trim(run.permissionedAs)
    else if Trim(run.createdBy) != "" then name == Trim(run.createdBy)
    else if Trim(p.permissionedAs) != "" then name == Trim(p.permissionedAs)
    else if Trim(p.createdBy) != "" then name == Trim(p.createdBy)
    else name == "system"
  }

  /**
   * Canceling a job of the workspace ends a queued one at once with its run,
   * and marks a running one; any other job, and a job of another workspace, is
   * left as it is.
   */
  lemma CancelJobExactly(s: Snapshot, op: Op, now: Time, workspace: string)
    requires Inv(s) && op.OpCancelJob? && (op.jobId in s.jobs ==> InWorkspace(s.jobs[op.jobId].payload, workspace))
    ensures Attempt(s, op, now).Success?
    ensures CancelOutcome(s, op.workspace, op.jobId) == Some(
      if op.jobId !in s.jobs || workspace != NormalizeWorkspace(op.workspace) then CancelResult(false, false, false, false)
      else match s.jobs[op.jobId].state
        case JobQueued => CancelResult(true, true, false, false)
        case JobRunning => CancelResult(true, false, true, false)
        case _ => CancelResult(true, false, false, true))
    ensures var s', j := Next(s, op, now), op.jobId;
      if j !in s.jobs || workspace != NormalizeWorkspace(op.workspace) || !(s.jobs[j].state == JobQueued || s.jobs[j].state == JobRunning) then s' == s
      else
        && j in s'.jobs && s'.jobs[j].canceledBy.Some? && s.jobs[j].runId in s.runs
        && CancelsAs(s'.jobs[j].canceledBy.value, op.actor, s.runs[s.jobs[j].runId], s.jobs[j].payload)
        && if s.jobs[j].state == JobQueued then EndsCanceled(s, s', j, s'.jobs[j].canceledBy.value, op.reason, "job canceled before execution", now)
           else s' == s.(jobs := s.jobs[j := s.jobs[j].(canceledBy := s'.jobs[j].canceledBy, canceledReason := Some(op.reason), updatedAt := now)])
  {
    hide Inv, RunOk, JobOk, Trim, NormalizeWorkspace, CancelActor, InWorkspace, JobWorkspace;
    if op.jobId in s.jobs {
      Facts(s, op.jobId);
      PinnedFields(s.jobs[op.jobId], workspace, "", 1);
      ActorIsFirst(op.actor, s.runs[s.jobs[op.jobId].runId], s.jobs[op.jobId]);
    }
  }

  lemma ActorIsFirst(actor: string, run: Run, job: Job)
    ensures CancelsAs(CancelActor(job, run, actor), actor, run, job.payload)
  {
    hide Trim;
    var a, b, c, d, e := Trim(actor), Trim(run.permissionedAs), Trim(run.createdBy), Trim(job.payload.permissionedAs), Trim(job.payload.createdBy);
    assert [a, b, c, d, e, "system"] == [a] + ([b] + ([c] + ([d] + ([e] + (["system"] + [])))));
    FirstOrRest(a, [b, c, d, e, "system"]);
    FirstOrRest(b, [c, d, e, "system"]);
    FirstOrRest(c, [d, e, "system"]);
    FirstOrRest(d, [e, "system"]);
    FirstOrRest(e, ["system"]);
    FirstOrRest("system", []);
  }

  /** Canceling a run that has not ended stops it, its queued and running jobs and its pending tasks, together and nothing else. */
  lemma CancelRunExactly(s: Snapshot, op: Op, now: Time)
    requires Inv(s) && op.OpCancelRun?
    ensures Attempt(s, op, now).Success? <==>
      op.runId in s.runs && (s.runs[op.runId].state == RunQueued || s.runs[op.runId].state == RunRunning
                             || s.runs[op.runId].state == RunResuming || s.runs[op.runId].state == RunWaitingHuman)
    ensures Attempt(s, op, now).Failure? ==> Attempt(s, op, now).error == (if op.runId in s.runs then InvalidState else NotFound) && Next(s, op, now) == s
    ensures Attempt(s, op, now).Success? ==>
      var s', r := Next(s, op, now), op.runId;
      && s'.jobs.Keys == s.jobs.Keys && s'.tasks.Keys == s.tasks.Keys && s'.logs == s.logs && Logs(s, s', r, EvRunCanceled(op.reason), now)
      && s'.runs == s.runs[r := s.runs[r].(state := RunCanceled, error := Some(RunStopped(op.reason)), updatedAt := now)]
      && (forall j | j in s.jobs :: s'.jobs[j] ==
            if s.jobs[j].runId == r && (s.jobs[j].state == JobQueued || s.jobs[j].state == JobRunning)
            then s.jobs[j].(state := JobFailed, leaseOwner := "", leaseExpiresAt := None, updatedAt := now) else s.jobs[j])
      && (forall t | t in s.tasks :: s'.tasks[t] ==
            if s.tasks[t].runId == r && s.tasks[t].state == TaskPending then s.tasks[t].(state := TaskExpired) else s.tasks[t])
  {
    hide Inv;
  }

  // Housekeeping.

  /** A run that is queued, running or resuming, with no record of it touched since the cutoff. */
  predicate Idle(s: Snapshot, r: RunId, stuckBefore: Time) {
    && r in s.runs && (s.runs[r].state == RunQueued || s.runs[r].state == RunRunning || s.runs[r].state == RunResuming)
    && s.runs[r].updatedAt < stuckBefore && (forall k | k in s.jobs && s.jobs[k].runId == r :: s.jobs[k].updatedAt < stuckBefore)
  }

  /** Expiry ends exactly the idle runs and their queued and running jobs; nothing else moves. */
  lemma ExpireExactly(s: Snapshot, stuckBefore: Time, now: Time)
    requires Inv(s)
    ensures forall r :: Stuck(s, r, stuckBefore) <==> Idle(s, r, stuckBefore)
    ensures var s' := Next(s, OpExpire(stuckBefore), now);
      && s'.runs.Keys == s.runs.Keys && s'.jobs.Keys == s.jobs.Keys && s' == s.(runs := s'.runs, jobs := s'.jobs)
      && (forall r | r in s.runs :: s'.runs[r] == if Idle(s, r, stuckBefore) then s.runs[r].(state := RunExpired, updatedAt := now) else s.runs[r])
      && (forall j | j in s.jobs :: s'.jobs[j] ==
            if Idle(s, s.jobs[j].runId, stuckBefore) && (s.jobs[j].state == JobQueued || s.jobs[j].state == JobRunning)
            then s.jobs[j].(state := JobFailed, updatedAt := now,
                            canceledReason := Some("expired by retention policy: no progress before " + Decimal(stuckBefore)))
            else s.jobs[j])
  {
    hide Inv, Decimal;
    forall r ensures Idle(s, r, stuckBefore) <==> Stuck(s, r, stuckBefore) {}
  }

  predicate Over(s: Snapshot, r: RunId, successOlderThan: Time, failureOlderThan: Time) {
    && r in s.runs
    && match s.runs[r].state
       case RunSucceeded => s.runs[r].updatedAt < successOlderThan
       case RunFailed => s.runs[r].updatedAt < failureOlderThan
       case RunCanceled => s.runs[r].updatedAt < failureOlderThan
       case RunExpired => s.runs[r].updatedAt < failureOlderThan
       case _ => false
  }

  /** Pruning takes exactly the runs that ended before their outcome's cutoff, with all their records, and alters nothing that stays. */
  lemma PruneExactly(s: Snapshot, s': Snapshot, successOlderThan: Time, failureOlderThan: Time, now: Time)
    requires Inv(s) && s' == Next(s, OpPrune(successOlderThan, failureOlderThan), now)
    ensures (forall r :: r in s'.runs <==> r in s.runs && !Over(s, r, successOlderThan, failureOlderThan))
      && (forall j :: j in s'.jobs <==> j in s.jobs && s.jobs[j].runId in s'.runs)
      && (forall t :: t in s'.tasks <==> t in s.tasks && s.tasks[t].runId in s'.runs)
      && (forall j :: j in s'.logs <==> j in s.logs && j in s'.jobs)
      && (forall r | r in s'.runs :: s'.runs[r] == s.runs[r]) && (forall j | j in s'.jobs :: s'.jobs[j] == s.jobs[j])
      && (forall t | t in s'.tasks :: s'.tasks[t] == s.tasks[t]) && (forall j | j in s'.logs :: s'.logs[j] == s.logs[j])
      && s'.sequence == s.sequence
  {
    hide Inv, KeepEvents, Settled, Over, JobsOf;
    PrunedKeys(s, successOlderThan, failureOlderThan);
    OverIsSettled(s, successOlderThan, failureOlderThan);
    PrunedRecords(s, s', successOlderThan, failureOlderThan);
    hide Next, Prune;
  }

  lemma OverIsSettled(s: Snapshot, successOlderThan: Time, failureOlderThan: Time)
    ensures forall r :: r in Settled(s, successOlderThan, failureOlderThan) <==> Over(s, r, successOlderThan, failureOlderThan)
  {}

  lemma PrunedRecords(s: Snapshot, s': Snapshot, successOlderThan: Time, failureOlderThan: Time)
    requires s' == Prune(s, successOlderThan, failureOlderThan)
    ensures s'.runs == s.runs - Settled(s, successOlderThan, failureOlderThan) && s'.sequence == s.sequence
    ensures forall j | j in s'.jobs :: j in s.jobs && s'.jobs[j] == s.jobs[j]
    ensures forall t | t in s'.tasks :: t in s.tasks && s'.tasks[t] == s.tasks[t]
    ensures forall j | j in s'.logs :: j in s.logs && s'.logs[j] == s.logs[j]
  {
    hide KeepEvents, Settled, JobsOf;
  }

  /** A queued job of the workspace, app and action takes the new tag if that is not blank and not the one it has. */
  predicate TakesTag(job: Job, spec: RetagSpec, tag: string) {
    && job.state == JobQueued && InWorkspace(job.payload, NormalizeWorkspace(spec.workspace)) && job.payload.app == spec.app
    && (spec.action == None || spec.action == Some(job.payload.action))
    && job.payload.action in spec.tags && tag == Trim(spec.tags[job.payload.action]) && tag != "" && job.payload.tag != tag
  }

  lemma RetagExactly(s: Snapshot, spec: RetagSpec, now: Time, j: JobId, tag: string)
    requires j in s.jobs
    ensures Retags(s.jobs[j], spec) <==> exists t :: TakesTag(s.jobs[j], spec, t)
    ensures var s' := Next(s, OpRetag(spec), now);
      && s' == s.(jobs := s'.jobs) && s'.jobs.Keys == s.jobs.Keys
      && (TakesTag(s.jobs[j], spec, tag) ==> s'.jobs[j] == s.jobs[j].(payload := s.jobs[j].payload.(tag := tag), updatedAt := now))
      && ((forall t :: !TakesTag(s.jobs[j], spec, t)) ==> s'.jobs[j] == s.jobs[j])
  {
    PinnedFields(s.jobs[j], NormalizeWorkspace(spec.workspace), "", 1);
    hide InWorkspace, JobWorkspace, NormalizeWorkspace, Trim;
    if Retags(s.jobs[j], spec) {
      assert TakesTag(s.jobs[j], spec, Trim(spec.tags[s.jobs[j].payload.action]));
    }
  }

  /** Log chunks add up behind what a job has logged so far; an empty one needs no job. */
  lemma LogsExactly(s: Snapshot, j: JobId, chunk: string, now: Time)
    ensures var op, s' := OpAppendLogs(j, chunk), Next(s, OpAppendLogs(j, chunk), now);
      && (Attempt(s, op, now).Success? <==> chunk == "" || j in s.jobs) && s' == s.(logs := s'.logs)
      && (chunk == "" || j !in s.jobs ==> s' == s)
      && (chunk != "" && j in s.jobs ==> j in s'.logs && s'.logs == s.logs[j := s'.logs[j]] && s'.logs[j] == (if j in s.logs then s.logs[j] else "") + chunk)
  {}
}
