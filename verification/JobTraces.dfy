/**
 * Theorems about whole runs of the store: any number of callers and workers,
 * any interleaving of their calls, any clock.
 */
module JobTraces {
  import opened Wrappers
  import opened JobModel
  import opened JobSteps
  import opened JobInvariant
  import opened JobPreservation
  import opened JobEvolution
  import opened JobCap

  datatype Call = Call(op: Op, now: Time)

  /** ss[0] is the new store; call i takes ss[i] to ss[i + 1]. */
  ghost predicate Trace(ss: seq<Snapshot>, calls: seq<Call>) {
    && |ss| == |calls| + 1 && ss[0] == EMPTY
    && forall i {:trigger calls[i]} :: 0 <= i < |calls| ==> StepsTo(ss[i], calls[i], ss[i + 1])
  }

  ghost predicate StepsTo(s: Snapshot, call: Call, s': Snapshot) {
    Enabled(s, call.op, call.now) && s' == Next(s, call.op, call.now)
  }

  /** A job identifier is not drawn again once its job is gone. */
  ghost predicate IdsFresh(ss: seq<Snapshot>) {
    forall i, k, j :: 0 <= i < k < |ss| && j in ss[i].jobs && j in ss[k].jobs ==> j in ss[k - 1].jobs
  }

  lemma {:induction false} InvAlways(ss: seq<Snapshot>, calls: seq<Call>, i: nat)
    requires Trace(ss, calls) && i < |ss|
    ensures Inv(ss[i]) && CapInv(ss[i])
  {
    if i > 0 {
      InvAlways(ss, calls, i - 1);
      hide Inv, CapInv, Next, Enabled;
      var call := calls[i - 1];
      assert StepsTo(ss[i - 1], call, ss[i]);
      NextKeeps(ss[i - 1], call.op, call.now);
      CapKeeps(ss[i - 1], call.op, call.now);
    }
  }

  function ActiveJobs(s: Snapshot, r: RunId): set<JobId> {
    set j | j in s.jobs && s.jobs[j].runId == r && JobActive(s.jobs[j])
  }

  function PendingTasks(s: Snapshot, r: RunId): set<TaskId> {
    set t | t in s.tasks && s.tasks[t].runId == r && s.tasks[t].state.TaskPending?
  }

  /** What the invariant says of one run. */
  lemma RunShape(s: Snapshot, r: RunId)
    requires Inv(s) && r in s.runs
    ensures |ActiveJobs(s, r)| == if IsActive(s.runs[r].state) then 1 else 0
    ensures forall j | j in ActiveJobs(s, r) && s.jobs[j].state.JobRunning? :: s.runs[r].state.RunRunning?
    ensures PendingTasks(s, r) == if s.runs[r].state.RunWaitingHuman? then {s.runs[r].taskId} else {}
  {
    assert RunOk(s, r);
    var v := Replay(s.events, r);
    hide Replay, ClaimLog;
    forall j | j in ActiveJobs(s, r) ensures v.job == Some(j) && IsActive(s.runs[r].state) { assert JobOk(s, j); }
    forall t | t in PendingTasks(s, r) ensures s.runs[r].state.RunWaitingHuman? && s.runs[r].taskId == t { assert TaskOk(s, t); }
    if IsActive(s.runs[r].state) {
      assert ActiveJobs(s, r) == {v.job.value};
    } else {
      assert ActiveJobs(s, r) == {};
    }
  }

  /**
   * In every reachable state a run has exactly one queued or running job while
   * it is queued, running or resuming and none otherwise; a running job's run
   * is running; and a run waits for a human exactly when it owns one pending
   * task, the one it names.
   */
  lemma RunsAndJobsAgree(ss: seq<Snapshot>, calls: seq<Call>, i: nat, r: RunId)
    requires Trace(ss, calls) && i < |ss| && r in ss[i].runs
    ensures var s := ss[i];
      && (|ActiveJobs(s, r)| == if IsActive(s.runs[r].state) then 1 else 0)
      && (forall j | j in ActiveJobs(s, r) && s.jobs[j].state.JobRunning? :: s.runs[r].state.RunRunning?)
      && (PendingTasks(s, r) == if s.runs[r].state.RunWaitingHuman? then {s.runs[r].taskId} else {})
      && (s.runs[r].state.RunWaitingHuman? <==> PendingTasks(s, r) != {})
  {
    hide Inv, CapInv, Trace;
    InvAlways(ss, calls, i);
    RunShape(ss[i], r);
  }

  /**
   * The event log agrees with the records: replaying a run's surviving events
   * gives its state, except that an expiry writes no event and leaves the last
   * active state; a job's attempt is its number of claims, which are numbered
   * in order; and event identifiers increase up to the sequence counter.
   */
  lemma EventsAgree(ss: seq<Snapshot>, calls: seq<Call>, i: nat)
    requires Trace(ss, calls) && i < |ss|
    ensures forall r | r in ss[i].runs && !ss[i].runs[r].state.RunExpired? :: Replay(ss[i].events, r).state == Some(ss[i].runs[r].state)
    ensures forall r | r in ss[i].runs && ss[i].runs[r].state.RunExpired? ::
              Replay(ss[i].events, r).state.Some? && IsActive(Replay(ss[i].events, r).state.value)
    ensures forall j | j in ss[i].jobs :: |ClaimLog(ss[i].events, j)| == ss[i].jobs[j].attempt
    ensures forall j, k | j in ss[i].jobs && 0 <= k < |ClaimLog(ss[i].events, j)| ::
              ClaimLog(ss[i].events, j)[k].body.EvJobClaimed? && ClaimLog(ss[i].events, j)[k].body.attempt == k + 1
    ensures InOrder(ss[i].events) && forall e | e in ss[i].events :: 0 < e.id <= ss[i].sequence
  {
    hide CapInv, Trace, Replay, ClaimLog;
    InvAlways(ss, calls, i);
    var s := ss[i];
    forall r | r in s.runs ensures ViewOk(s, r) { assert RunOk(s, r); }
    forall j | j in s.jobs ensures AttemptsOk(s, j) { assert JobOk(s, j); }
  }

  /** The sequence counter only grows, and what a step appends is numbered above it. */
  ghost predicate LogGrows(s: Snapshot, s': Snapshot) {
    && s.sequence <= s'.sequence
    && forall e | e in s'.events && e !in s.events :: s.sequence < e.id <= s'.sequence
  }

  lemma LogGrowsOn(a: Snapshot, b: Snapshot, c: Snapshot)
    requires LogGrows(a, b) && LogGrows(b, c)
    ensures LogGrows(a, c)
  {}

  lemma {:induction false} RequeueLogGrows(s: Snapshot, order: seq<JobId>, now: Time)
    ensures LogGrows(s, RequeueAll(s, order, now))
  {
    if order != [] {
      var mid, id := RequeueAll(s, order[..|order| - 1], now), order[|order| - 1];
      RequeueLogGrows(s, order[..|order| - 1], now);
      if id in mid.jobs {
        LogGrowsOn(s, mid, RequeueOne(mid, id, now));
      }
    }
  }

  lemma {:induction false} KeptAreOld(events: seq<Event>, doomed: set<RunId>)
    ensures forall e | e in KeepEvents(events, doomed) :: e in events
  {
    if events != [] {
      KeptAreOld(events[..|events| - 1], doomed);
    }
  }

  lemma AssignGrows(s: Snapshot, j: JobId, worker: string, expiresAt: Time, now: Time)
    requires j in s.jobs
    ensures LogGrows(s, Assign(s, j, worker, expiresAt, now))
  {}

  lemma ClaimLogGrows(s: Snapshot, op: Op, now: Time)
    requires op.OpClaim?
    ensures LogGrows(s, Next(s, op, now))
  {
    hide RequeueAll, Assign, LogGrows;
    var s1 := RequeueAll(s, op.order, now);
    RequeueLogGrows(s, op.order, now);
    LogGrowsOn(s, s, s) by { SameLog(s, s); }
    if op.pick.Some? && op.pick.value in s1.jobs {
      AssignGrows(s1, op.pick.value, op.worker, now + EffectiveTtl(op.ttl), now);
      LogGrowsOn(s, s1, Next(s, op, now));
    }
  }

  lemma SameLog(s: Snapshot, s': Snapshot)
    requires s'.events == s.events && s'.sequence == s.sequence
    ensures LogGrows(s, s')
  {}

  lemma CompleteLogGrows(s: Snapshot, op: Op, now: Time)
    requires op.OpSucceed? || op.OpFail? || op.OpWait?
    ensures LogGrows(s, Next(s, op, now))
  {
    hide FailureMessage;
  }

  lemma NextLogGrows(s: Snapshot, op: Op, now: Time)
    ensures LogGrows(s, Next(s, op, now))
  {
    hide NewActionJob, CancelActor, JobWorkspace, Stuck, Retags, KeepEvents, Claim, CompleteSucceeded, CompleteFailed, CompleteWaitingHuman;
    match op
    case OpClaim(_, _, _, _, _, _) => ClaimLogGrows(s, op, now);
    case OpSucceed(_, _) => CompleteLogGrows(s, op, now);
    case OpFail(_, _) => CompleteLogGrows(s, op, now);
    case OpWait(_, _, _, _) => CompleteLogGrows(s, op, now);
    case OpPrune(a, b) => KeptAreOld(s.events, Settled(s, a, b));
    case _ =>
  }

  /** Event identifiers are never used twice, not even across pruning. */
  lemma {:induction false} EventIdsAreNeverReused(ss: seq<Snapshot>, calls: seq<Call>, i: nat, k: nat)
    requires Trace(ss, calls) && i <= k < |ss|
    ensures LogGrows(ss[i], ss[k])
    ensures forall e, f | e in ss[i].events && f in ss[k].events && e.id == f.id :: e == f
    decreases k
  {
    hide Inv, CapInv, Next, Enabled;
    InvAlways(ss, calls, i);
    LogOf(ss[i]);
    if i < k {
      EventIdsAreNeverReused(ss, calls, i, k - 1);
      var call := calls[k - 1];
      assert StepsTo(ss[k - 1], call, ss[k]);
      NextLogGrows(ss[k - 1], call.op, call.now);
      LogGrowsOn(ss[i], ss[k - 1], ss[k]);
    }
    forall e, f | e in ss[i].events && f in ss[k].events && e.id == f.id ensures e == f {
      assert LogGrows(ss[i], ss[k]);
    }
  }

  lemma LogOf(s: Snapshot)
    requires Inv(s)
    ensures forall e | e in s.events :: e.id <= s.sequence
    ensures forall e, f | e in s.events && f in s.events && e.id == f.id :: e == f
  {}

  /**
   * In every reachable state, the running jobs of a job's workspace and app
   * that were claimed no later than it are within the cap it pins.
   */
  lemma CapAlways(ss: seq<Snapshot>, calls: seq<Call>, i: nat, j: JobId)
    requires Trace(ss, calls) && i < |ss| && j in ss[i].jobs && ss[i].jobs[j].state.JobRunning?
    requires JobMaxConcurrent(ss[i].jobs[j]).Some? && JobAppKey(ss[i].jobs[j]) != ""
    ensures |EarlierPeers(ss[i], j)| <= JobMaxConcurrent(ss[i].jobs[j]).value
  {
    hide Inv, Trace, ClaimLog, JobMaxConcurrent, JobAppKey, EarlierPeers;
    InvAlways(ss, calls, i);
    assert CapOk(ss[i], j);
  }

  lemma UniformCapAlways(ss: seq<Snapshot>, calls: seq<Call>, i: nat, job: Job, cap: int)
    requires Trace(ss, calls) && i < |ss| && JobAppKey(job) != "" && cap > 0
    requires forall k | k in RunningPeers(ss[i].jobs, job) :: JobMaxConcurrent(ss[i].jobs[k]) == Some(cap)
    ensures |RunningPeers(ss[i].jobs, job)| <= cap
  {
    hide Inv, CapInv, Trace, JobMaxConcurrent, JobAppKey, RunningPeers;
    InvAlways(ss, calls, i);
    UniformCap(ss[i], job, cap);
  }

  /** Between two states of a trace, a job present in both only evolves. */
  lemma {:induction false} JobsEvolveAlways(ss: seq<Snapshot>, calls: seq<Call>, i: nat, k: nat, j: JobId)
    requires Trace(ss, calls) && IdsFresh(ss) && i <= k < |ss| && j in ss[i].jobs && j in ss[k].jobs
    ensures Evolves(ss[i].jobs[j], ss[k].jobs[j])
    decreases k
  {
    if i < k {
      assert j in ss[k - 1].jobs;
      JobsEvolveAlways(ss, calls, i, k - 1, j);
      InvAlways(ss, calls, k - 1);
      hide Inv, CapInv, Next, Enabled;
      var call := calls[k - 1];
      assert StepsTo(ss[k - 1], call, ss[k]);
      JobsEvolve(ss[k - 1], call.op, call.now);
      EvolvesOn(ss[i].jobs[j], ss[k - 1].jobs[j], ss[k].jobs[j]);
    }
  }

  predicate Completes(call: Call, lease: Lease) {
    (call.op.OpSucceed? || call.op.OpFail? || call.op.OpWait?) && call.op.lease == lease
  }

  /** The store commits the completion. */
  predicate Accepted(s: Snapshot, call: Call, lease: Lease) {
    Completes(call, lease) && Attempt(s, call.op, call.now).Success?
  }

  /** The call hands out the job under the given attempt. */
  predicate Claims(s: Snapshot, call: Call, j: JobId, attempt: nat) {
    && call.op.OpClaim? && call.op.pick == Some(j) && Attempt(s, call.op, call.now).Success?
    && j in Next(s, call.op, call.now).jobs && Next(s, call.op, call.now).jobs[j].attempt == attempt
  }

  lemma AcceptedHolds(s: Snapshot, call: Call, lease: Lease)
    requires Inv(s) && Accepted(s, call, lease)
    ensures HoldsLease(s, lease)
    ensures var s' := Next(s, call.op, call.now); lease.jobId in s'.jobs && !JobActive(s'.jobs[lease.jobId])
  {
    hide Inv, RunOk, JobOk, FailureMessage;
    Facts(s, lease.jobId);
  }

  /** A job has at most one accepted completion in its life. */
  lemma OneCompletion(ss: seq<Snapshot>, calls: seq<Call>, i: nat, k: nat, a: Lease, b: Lease)
    requires Trace(ss, calls) && IdsFresh(ss) && i < |calls| && k < |calls| && a.jobId == b.jobId
    requires Accepted(ss[i], calls[i], a) && Accepted(ss[k], calls[k], b)
    ensures i == k
  {
    assert |ss| == |calls| + 1;
    hide Trace, IdsFresh, Accepted, Next;
    InvAlways(ss, calls, i);
    InvAlways(ss, calls, k);
    AcceptedHolds(ss[i], calls[i], a);
    AcceptedHolds(ss[k], calls[k], b);
    hide Inv, CapInv;
    if i < k { IdleAfterCompletion(ss, calls, i, k, a); }
    if k < i { IdleAfterCompletion(ss, calls, k, i, b); }
  }

  /** After an accepted completion the job is never active again. */
  lemma IdleAfterCompletion(ss: seq<Snapshot>, calls: seq<Call>, i: nat, k: nat, lease: Lease)
    requires Trace(ss, calls) && IdsFresh(ss) && i < k < |ss| && Accepted(ss[i], calls[i], lease)
    ensures lease.jobId in ss[k].jobs ==> !JobActive(ss[k].jobs[lease.jobId])
  {
    hide Inv, CapInv, Accepted, Next;
    InvAlways(ss, calls, i);
    assert StepsTo(ss[i], calls[i], ss[i + 1]);
    AcceptedHolds(ss[i], calls[i], lease);
    if lease.jobId in ss[k].jobs { JobsEvolveAlways(ss, calls, i + 1, k, lease.jobId); }
  }

  /** Attempts issued for a job are distinct and increase with time. */
  lemma AttemptsIncrease(ss: seq<Snapshot>, calls: seq<Call>, i: nat, k: nat, j: JobId, a: nat, b: nat)
    requires Trace(ss, calls) && IdsFresh(ss) && i < k < |calls|
    requires Claims(ss[i], calls[i], j, a) && Claims(ss[k], calls[k], j, b)
    ensures a < b
  {
    hide Inv, CapInv, Next, RequeueAll, Assign, IsPick;
    InvAlways(ss, calls, k);
    assert StepsTo(ss[i], calls[i], ss[i + 1]) && StepsTo(ss[k], calls[k], ss[k + 1]);
    ClaimIssues(ss[k], calls[k], j);
    JobsEvolveAlways(ss, calls, i + 1, k, j);
  }

  /** A claim issues the attempt after the last one. */
  lemma ClaimIssues(s: Snapshot, call: Call, j: JobId)
    requires Inv(s) && Enabled(s, call.op, call.now) && call.op.OpClaim? && call.op.pick == Some(j) && Attempt(s, call.op, call.now).Success?
    ensures j in s.jobs && j in Next(s, call.op, call.now).jobs && Next(s, call.op, call.now).jobs[j].state.JobRunning?
    ensures Next(s, call.op, call.now).jobs[j].attempt == s.jobs[j].attempt + 1
  {
    hide Inv, RequeueAll, Assign, ClaimLog, Evolves;
    var s1 := RequeueAll(s, call.op.order, call.now);
    RequeueAllKeeps(s, call.op.order, call.now);
    CalmRequeueAll(s, call.op.order, call.now);
    assert Calm(s, s1, j);
    HandsOut(s1, j, call.op.worker, call.now + EffectiveTtl(call.op.ttl), call.now);
  }

  /** The accepted completion comes from the highest attempt ever issued. */
  lemma CompletionIsFromLatestAttempt(ss: seq<Snapshot>, calls: seq<Call>, i: nat, k: nat, lease: Lease, attempt: nat)
    requires Trace(ss, calls) && IdsFresh(ss) && i < |calls| && k < |calls|
    requires Claims(ss[i], calls[i], lease.jobId, attempt) && Accepted(ss[k], calls[k], lease)
    ensures attempt <= lease.attempt && i < k
  {
    assert |ss| == |calls| + 1;
    hide Trace, IdsFresh, Next, Accepted, Claims;
    ClaimComesFirst(ss, calls, i, k, lease, attempt);
    ClaimedIsActive(ss, calls, i, lease.jobId, attempt);
    CompletedHolds(ss, calls, k, lease);
    JobsEvolveAlways(ss, calls, i + 1, k, lease.jobId);
  }

  lemma TraceLength(ss: seq<Snapshot>, calls: seq<Call>)
    requires Trace(ss, calls)
    ensures |ss| == |calls| + 1
  {}

  lemma ClaimComesFirst(ss: seq<Snapshot>, calls: seq<Call>, i: nat, k: nat, lease: Lease, attempt: nat)
    requires Trace(ss, calls) && IdsFresh(ss) && i < |calls| && k < |calls|
    requires Claims(ss[i], calls[i], lease.jobId, attempt) && Accepted(ss[k], calls[k], lease)
    ensures i < k
  {
    hide *;
    TraceLength(ss, calls);
    AcceptedIsNoClaim(ss[k], calls[k], lease);
    ClaimedIsActive(ss, calls, i, lease.jobId, attempt);
    if k < i { IdleAfterCompletion(ss, calls, k, i + 1, lease); }
  }

  lemma CompletedHolds(ss: seq<Snapshot>, calls: seq<Call>, k: nat, lease: Lease)
    requires Trace(ss, calls) && k < |calls| && Accepted(ss[k], calls[k], lease)
    ensures HoldsLease(ss[k], lease)
  {
    hide Inv, CapInv, Accepted, Next;
    InvAlways(ss, calls, k);
    AcceptedHolds(ss[k], calls[k], lease);
  }

  /** A claim leaves the job it hands out running under the attempt it issues. */
  lemma ClaimedIsActive(ss: seq<Snapshot>, calls: seq<Call>, i: nat, j: JobId, attempt: nat)
    requires Trace(ss, calls) && i < |calls| && Claims(ss[i], calls[i], j, attempt)
    ensures j in ss[i + 1].jobs && JobActive(ss[i + 1].jobs[j]) && ss[i + 1].jobs[j].attempt == attempt && calls[i].op.OpClaim?
  {
    hide Inv, CapInv, Next, RequeueAll, Assign, IsPick;
    InvAlways(ss, calls, i);
    assert StepsTo(ss[i], calls[i], ss[i + 1]);
    ClaimIssues(ss[i], calls[i], j);
  }

  lemma AcceptedIsNoClaim(s: Snapshot, call: Call, lease: Lease)
    requires Accepted(s, call, lease)
    ensures !call.op.OpClaim?
  {}

  /**
   * Once a lease has been superseded or requeued, every later heartbeat under
   * it reports that it is not owned and every completion under it is refused.
   */
  lemma StaleLeaseStaysStale(ss: seq<Snapshot>, calls: seq<Call>, i: nat, k: nat, lease: Lease)
    requires Trace(ss, calls) && IdsFresh(ss) && i <= k < |calls|
    requires lease.jobId in ss[i].jobs && lease.attempt <= ss[i].jobs[lease.jobId].attempt && !HoldsLease(ss[i], lease)
    ensures !HoldsLease(ss[k], lease)
    ensures Completes(calls[k], lease) ==> Attempt(ss[k], calls[k].op, calls[k].now).Failure?
    ensures forall ttl, now :: Heartbeat(ss[k], lease, ttl, now) == ss[k]
  {
    hide Next, Enabled, ClaimLog;
    if lease.jobId in ss[k].jobs {
      JobsEvolveAlways(ss, calls, i, k, lease.jobId);
    }
    assert CompletionRefusal(ss[k], lease, calls[k].now).Some?;
  }

  /**
   * No late completion changes a settled run: a completion under any lease of
   * any of its jobs is refused.
   */
  lemma SettledRunRefusesCompletions(ss: seq<Snapshot>, calls: seq<Call>, i: nat, lease: Lease)
    requires Trace(ss, calls) && i < |calls| && Completes(calls[i], lease)
    requires lease.jobId in ss[i].jobs && ss[i].jobs[lease.jobId].runId in ss[i].runs
    requires !IsActive(ss[i].runs[ss[i].jobs[lease.jobId].runId].state)
    ensures Attempt(ss[i], calls[i].op, calls[i].now).Failure? && ss[i + 1] == ss[i]
  {
    hide Inv, CapInv, RunOk, JobOk;
    InvAlways(ss, calls, i);
    Facts(ss[i], lease.jobId);
    assert StepsTo(ss[i], calls[i], ss[i + 1]);
    assert CompletionRefusal(ss[i], lease, calls[i].now).Some?;
  }
}
