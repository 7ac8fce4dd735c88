/** Idempotent admission: how concurrent callers with one key agree on one run (internal/execution/service.go). */
module AdmissionModel {
  import opened Wrappers
  import opened Text
  import opened JobModel

  // What decides the run identifier: the client is "" when the caller names none.
  datatype Identity = Identity(workspace: string, app: string, action: string, key: string, client: string)

  /** The bytes hashed by deterministicRunID. */
  function Preimage(id: Identity): string {
    id.workspace + "\0" + id.app + "\0" + id.action + "\0" + id.key + if id.client == "" then "" else "\0client:" + id.client
  }

  function FirstNul(s: string): nat {
    if s == "" || s[0] == '\0' then 0 else 1 + FirstNul(s[1..])
  }

  lemma {:induction false} FirstNulAfter(a: string, b: string)
    requires '\0' !in a
    ensures FirstNul(a + "\0" + b) == |a|
  {
    if a != "" {
      FirstNulAfter(a[1..], b);
      assert (a + "\0" + b)[1..] == a[1..] + "\0" + b;
    }
  }

  lemma SplitAtNul(a: string, b: string, c: string, d: string)
    requires a + "\0" + b == c + "\0" + d && '\0' !in a && '\0' !in c
    ensures a == c && b == d
  {
    FirstNulAfter(a, b);
    FirstNulAfter(c, d);
    var s := a + "\0" + b;
    assert s[..|a|] == a && s[|a| + 1..] == b;
    assert s[..|c|] == c && s[|c| + 1..] == d;
  }

  // What follows the action: the key, and the client if there is one.
  function Tail(id: Identity): string {
    id.key + if id.client == "" then "" else "\0client:" + id.client
  }

  lemma TailIsInjective(a: Identity, b: Identity)
    requires '\0' !in a.key && '\0' !in b.key && Tail(a) == Tail(b)
    ensures a.key == b.key && a.client == b.client
  {
    KeyEnds(a);
    KeyEnds(b);
    assert a.key == Tail(a)[..|a.key|] && b.key == Tail(b)[..|b.key|];
    if a.client != "" {
      assert a.client == ("\0client:" + a.client)[8..] == Tail(a)[|a.key|..][8..];
      assert b.client == ("\0client:" + b.client)[8..] == Tail(b)[|b.key|..][8..];
    }
  }

  /** The first NUL of the tail, or its end, is where the key ends. */
  lemma KeyEnds(a: Identity)
    requires '\0' !in a.key
    ensures FirstNul(Tail(a)) == |a.key| && (a.client == "" <==> |Tail(a)| == |a.key|)
  {
    if a.client == "" {
      assert Tail(a) == a.key;
      NoNul(a.key);
    } else {
      assert Tail(a) == a.key + "\0" + ("client:" + a.client);
      FirstNulAfter(a.key, "client:" + a.client);
    }
  }

  lemma {:induction false} NoNul(s: string)
    requires '\0' !in s
    ensures FirstNul(s) == |s|
  {
    if s != "" { NoNul(s[1..]); }
  }

  // Application and action keys are validated; the workspace is taken to be free of NUL as they are.
  predicate Named(id: Identity) {
    '\0' !in id.workspace && '\0' !in id.app && '\0' !in id.action
  }

  // An identity as CreateRun makes it of a request: the key is trimmed and not empty, the client is a stored one's.
  predicate Requested(id: Identity) {
    Named(id) && id.key != "" && Trim(id.key) == id.key && Trim(id.client) == id.client
  }

  /** The preimage names workspace, app and action, and what follows them. */
  lemma SamePreimage(a: Identity, b: Identity)
    requires Named(a) && Named(b)
    ensures Preimage(a) == Preimage(b) <==> a.workspace == b.workspace && a.app == b.app && a.action == b.action && Tail(a) == Tail(b)
  {
    var a2, b2 := a.action + "\0" + Tail(a), b.action + "\0" + Tail(b);
    var a1, b1 := a.app + "\0" + a2, b.app + "\0" + b2;
    assert Preimage(a) == a.workspace + "\0" + a1 && Preimage(b) == b.workspace + "\0" + b1;
    if Preimage(a) == Preimage(b) {
      SplitAtNul(a.workspace, a1, b.workspace, b1);
      SplitAtNul(a.app, a2, b.app, b2);
      SplitAtNul(a.action, Tail(a), b.action, Tail(b));
    }
  }

  /** The preimage names one identity when workspace, app, action and key are free of NUL. */
  lemma PreimageIsInjective(a: Identity, b: Identity)
    requires Named(a) && Named(b) && '\0' !in a.key && '\0' !in b.key && Preimage(a) == Preimage(b)
    ensures a == b
  {
    SamePreimage(a, b);
    TailIsInjective(a, b);
  }

  const CLIENT := "\0client:"

  /** The text reads as a key of length i with a client after it, both trimmed. */
  predicate SpellsClientAt(s: string, i: nat) {
    0 < i && i + 8 < |s| && s[i..i + 8] == CLIENT && !IsSpace(s[i - 1]) && !IsSpace(s[i + 8])
  }

  // Another way to read what follows the action.
  function ReadAt(a: Identity, i: nat): Identity
    requires SpellsClientAt(Tail(a), i)
  {
    a.(key := Tail(a)[..i], client := Tail(a)[i + 8..])
  }

  lemma TailEnds(a: Identity)
    requires Requested(a)
    ensures var t := Tail(a); t != "" && t[0] == a.key[0] && !IsSpace(t[0]) && !IsSpace(t[|t| - 1])
    ensures if a.client != "" then SpellsClientAt(Tail(a), |a.key|) else Tail(a) == a.key
  {
    hide Trim, IsSpace;
    TrimmedEnds(a.key);
    if a.client != "" {
      TrimmedEnds(a.client);
      assert Tail(a) == a.key + CLIENT + a.client;
    } else {
      assert Tail(a) == a.key;
    }
  }

  lemma ReadsAlike(a: Identity, i: nat)
    requires Requested(a) && SpellsClientAt(Tail(a), i)
    ensures Requested(ReadAt(a, i)) && Preimage(ReadAt(a, i)) == Preimage(a)
  {
    hide Trim, IsSpace, Preimage, Tail;
    var b := ReadAt(a, i);
    TailEnds(a);
    TrimmedEnds(b.key);
    TrimmedEnds(b.client);
    TailReads(a, i);
    hide SpellsClientAt;
    SamePreimage(a, b);
  }

  lemma TailReads(a: Identity, i: nat)
    requires SpellsClientAt(Tail(a), i)
    ensures Tail(ReadAt(a, i)) == Tail(a)
  {
    var t := Tail(a);
    hide IsSpace;
    assert t == t[..i] + t[i..i + 8] + t[i + 8..];
    assert Tail(ReadAt(a, i)) == t[..i] + (CLIENT + t[i + 8..]);
    hide Tail;
  }

  /**
   * Two requests share their preimage exactly where a client is at stake: some
   * other request has the preimage of this one if and only if this one names a
   * client or its key spells one out.
   */
  lemma SharedPreimage(a: Identity)
    requires Requested(a)
    ensures (exists b :: Requested(b) && b != a && Preimage(b) == Preimage(a))
            <==> a.client != "" || exists i: nat :: SpellsClientAt(a.key, i)
  {
    TailEnds(a);
    if a.client != "" {
      var b := a.(key := Tail(a), client := "");
      TrimmedEnds(b.key);
      assert Trim("") == "" && Tail(b) == Tail(a);
      hide Preimage, Tail, Trim;
      SamePreimage(a, b);
      assert Requested(b) && b != a && Preimage(b) == Preimage(a);
    } else {
      hide Preimage, Tail, SpellsClientAt, Trim;
      if i: nat :| SpellsClientAt(a.key, i) {
        ReadsAlike(a, i);
        var b := ReadAt(a, i);
        assert b.client != "" by { ClientIsNamed(a, i); }
        assert Requested(b) && b != a && Preimage(b) == Preimage(a);
      }
      if b :| Requested(b) && b != a && Preimage(b) == Preimage(a) {
        SamePreimage(a, b);
        TailEnds(b);
        assert SpellsClientAt(a.key, |b.key|);
      }
    }
  }

  lemma ClientIsNamed(a: Identity, i: nat)
    requires SpellsClientAt(Tail(a), i)
    ensures ReadAt(a, i).client != ""
  {}

  lemma {:induction false} FirstNulIsFirst(s: string)
    ensures FirstNul(s) <= |s| && '\0' !in s[..FirstNul(s)]
    ensures FirstNul(s) == |s| <==> '\0' !in s
  {
    if s != "" && s[0] != '\0' {
      FirstNulIsFirst(s[1..]);
      assert s[..FirstNul(s)] == [s[0]] + s[1..][..FirstNul(s[1..])];
      assert s == [s[0]] + s[1..];
    }
  }

  /**
   * A key that contains NUL is taken for a request whose key does not, exactly
   * when a client is spelled out from the first NUL on.
   */
  lemma KeyImpersonatesExactly(a: Identity)
    requires Requested(a) && '\0' in a.key
    ensures (exists b :: Requested(b) && '\0' !in b.key && Preimage(b) == Preimage(a)) <==> SpellsClientAt(Tail(a), FirstNul(a.key))
  {
    hide Preimage, Trim, SpellsClientAt;
    FirstNulOfTail(a);
    hide Tail, FirstNul;
    if SpellsClientAt(Tail(a), FirstNul(a.key)) {
      ReadsAlike(a, FirstNul(a.key));
      var b := ReadAt(a, FirstNul(a.key));
      assert Requested(b) && '\0' !in b.key && Preimage(b) == Preimage(a);
    }
    if b :| Requested(b) && '\0' !in b.key && Preimage(b) == Preimage(a) {
      SamePreimage(a, b);
      KeyEnds(b);
      TailEnds(b);
    }
  }

  lemma FirstNulOfTail(a: Identity)
    requires '\0' in a.key
    ensures FirstNul(Tail(a)) == FirstNul(a.key) < |Tail(a)| && '\0' !in Tail(a)[..FirstNul(a.key)] && '\0' in Tail(a)
  {
    var i := FirstNul(a.key);
    FirstNulIsFirst(a.key);
    FirstNulHere(a.key);
    var rest := Tail(a)[i + 1..];
    assert Tail(a)[..i] == a.key[..i] && Tail(a)[i] == a.key[i];
    assert Tail(a) == a.key[..i] + "\0" + rest;
    FirstNulAfter(a.key[..i], rest);
  }

  lemma {:induction false} FirstNulHere(s: string)
    requires '\0' in s
    ensures FirstNul(s) < |s| && s[FirstNul(s)] == '\0'
  {
    if s[0] != '\0' {
      assert s == [s[0]] + s[1..];
      FirstNulHere(s[1..]);
    }
  }

  /** A key that spells out a client is that client's key. */
  lemma KeyCanImpersonateClient(workspace: string, app: string, action: string, key: string, client: string)
    requires client != ""
    ensures var forged := Identity(workspace, app, action, key + "\0client:" + client, "");
      var honest := Identity(workspace, app, action, key, client);
      forged != honest && Preimage(forged) == Preimage(honest)
  {}

  // Looking a run up by its identifier.

  function JobsOfRun(s: Snapshot, workspace: string, r: RunId): set<JobId> {
    set j | j in s.jobs && s.jobs[j].runId == r && JobWorkspace(s.jobs[j]) == NormalizeWorkspace(workspace)
  }

  predicate CreatedBefore(a: Job, b: Job) {
    a.createdAt < b.createdAt || (a.createdAt == b.createdAt && Less(a.id, b.id))
  }

  /** The first load of GetJobByRunID: the run's earliest job in the workspace. */
  ghost predicate IsEarliest(s: Snapshot, workspace: string, r: RunId, pick: Option<JobId>) {
    match pick
    case None => JobsOfRun(s, workspace, r) == {}
    case Some(j) =>
      && j in JobsOfRun(s, workspace, r)
      && forall k | k in JobsOfRun(s, workspace, r) && k != j :: CreatedBefore(s.jobs[j], s.jobs[k])
  }

  /** The earliest job of a run is the first created, and of those created together the one with the least identifier. */
  lemma EarliestExactly(s: Snapshot, workspace: string, r: RunId, j: JobId)
    ensures IsEarliest(s, workspace, r, Some(j)) <==> (
      && j in s.jobs && s.jobs[j].runId == r && JobWorkspace(s.jobs[j]) == NormalizeWorkspace(workspace)
      && forall k | k in s.jobs && k != j && s.jobs[k].runId == r && JobWorkspace(s.jobs[k]) == NormalizeWorkspace(workspace) ::
           s.jobs[j].createdAt < s.jobs[k].createdAt || (s.jobs[j].createdAt == s.jobs[k].createdAt && Less(s.jobs[j].id, s.jobs[k].id)))
  {
    hide JobWorkspace, NormalizeWorkspace, Less;
  }

  datatype Lookup = Absent | Dangling | Found(job: Job, run: Run)

  /** The second load: GetJob of the job the first one selected. */
  function GetJob(s: Snapshot, workspace: string, j: JobId): Lookup {
    if j !in s.jobs || JobWorkspace(s.jobs[j]) != NormalizeWorkspace(workspace) then Absent
    else if s.jobs[j].runId !in s.runs then Dangling
    else Found(s.jobs[j], s.runs[s.jobs[j].runId])
  }
}

/** The protocol itself: callers take one atomic step of the store at a time, and anyone else may act in between. */
module AdmissionProtocol {
  import opened Wrappers
  import opened Text
  import opened JobModel
  import opened JobSteps
  import opened JobInvariant
  import opened JobPreservation
  import opened JobEvolution
  import opened AdmissionModel

  // Where a caller of CreateRun stands; `again` is the lookup after a conflict.
  datatype Phase =
    | Looking(again: bool)
    | Reading(job: JobId, again: bool)
    | Creating
    | Admitted(run: RunId, job: JobId, replayed: bool)
    | Refused

  // The store, the time of its last call, and the callers that share one key.
  datatype System = System(s: Snapshot, clock: Time, callers: map<nat, Phase>)

  datatype Move =
    | Other(op: Op)
    | Arrive(c: nat)
    | Select(c: nat, pick: Option<JobId>)
    | Read(c: nat)
    | GiveUp(c: nat)
    | Create(c: nat, run: Run, job: Job)

  const START := System(EMPTY, 0, map[])

  /** One step of the system for the key whose run is r in the workspace. */
  ghost predicate Steps(workspace: string, r: RunId, y: System, move: Move, now: Time, y': System) {
    && y.clock < now == y'.clock
    && match move
       case Other(op) =>
         Enabled(y.s, op, now) && (op.OpCreate? ==> op.run.id != r && op.job.createdAt <= now) && y'.s == Next(y.s, op, now) && y'.callers == y.callers
       case Arrive(c) => c !in y.callers && y'.s == y.s && y'.callers == y.callers[c := Looking(false)]
       case Select(c, pick) =>
         && c in y.callers && y.callers[c].Looking? && IsEarliest(y.s, workspace, r, pick) && y'.s == y.s
         && y'.callers == y.callers[c := AfterSelect(y.callers[c].again, pick)]
       case Read(c) =>
         && c in y.callers && y.callers[c].Reading? && y'.s == y.s
         && y'.callers == y.callers[c := AfterRead(y.callers[c].again, GetJob(y.s, workspace, y.callers[c].job))]
       case GiveUp(c) => c in y.callers && y.callers[c].Creating? && y'.s == y.s && y'.callers == y.callers[c := Refused]
       case Create(c, run, job) =>
         && c in y.callers && y.callers[c].Creating? && run.id == r && FreshRecords(run, job) && job.createdAt <= now
         && JobWorkspace(job) == NormalizeWorkspace(workspace) && y'.s == Next(y.s, OpCreate(run, job), now)
         && y'.callers == y.callers[c := AfterCreate(CreateRun(y.s, run, job, now), run, job)]
  }

  function AfterSelect(again: bool, pick: Option<JobId>): Phase {
    if pick.Some? then Reading(pick.value, again) else if again then Refused else Creating
  }

  function AfterRead(again: bool, found: Lookup): Phase {
    match found
    case Found(job, run) => Admitted(run.id, job.id, true)
    case Dangling => Refused
    case Absent => if again then Refused else Creating
  }

  function AfterCreate(step: Step, run: Run, job: Job): Phase {
    if step.Success? then Admitted(run.id, job.id, false) else Looking(true)
  }

  /** A history of the system from the empty store in which the run is not pruned. */
  ghost predicate History(workspace: string, r: RunId, ys: seq<System>, moves: seq<Move>) {
    && |ys| == |moves| + 1 && ys[0] == START
    && (forall i {:trigger moves[i]} :: 0 <= i < |moves| ==> StepsAt(workspace, r, ys[i], moves[i], ys[i + 1]))
  }

  ghost predicate StepsAt(workspace: string, r: RunId, y: System, move: Move, y': System) {
    Steps(workspace, r, y, move, y'.clock, y') && (r in y.s.runs ==> r in y'.s.runs)
  }

  // What every step keeps: the run's first job is its earliest, and it is the job every caller has or is about to get.

  ghost predicate FirstJob(s: Snapshot, workspace: string, r: RunId, j: JobId) {
    && j in JobsOfRun(s, workspace, r)
    && forall k | k in s.jobs && s.jobs[k].runId == r && k != j :: s.jobs[j].createdAt < s.jobs[k].createdAt
  }

  predicate Fresh(phase: Phase) {
    phase.Admitted? && !phase.replayed
  }

  ghost predicate CallerOk(s: Snapshot, workspace: string, r: RunId, phase: Phase) {
    match phase
    case Reading(j, _) => r in s.runs && FirstJob(s, workspace, r, j)
    case Admitted(run, j, _) => r in s.runs && run == r && FirstJob(s, workspace, r, j)
    case _ => true
  }

  ghost predicate StoreOk(s: Snapshot, clock: Time, workspace: string, r: RunId) {
    && Inv(s)
    && (forall j | j in s.jobs && s.jobs[j].runId == r :: s.jobs[j].createdAt <= clock)
    && (r in s.runs ==> exists j :: FirstJob(s, workspace, r, j))
  }

  ghost predicate Agreed(y: System, workspace: string, r: RunId) {
    && StoreOk(y.s, y.clock, workspace, r)
    && (forall c | c in y.callers :: CallerOk(y.s, workspace, r, y.callers[c]))
    && (forall c, d | c in y.callers && d in y.callers && Fresh(y.callers[c]) && Fresh(y.callers[d]) :: c == d)
  }

  lemma CompletionsAddNone(s: Snapshot, op: Op, now: Time)
    requires Inv(s) && (op.OpSucceed? || op.OpFail? || op.OpWait?)
    ensures Next(s, op, now).jobs.Keys == s.jobs.Keys
  {
    hide Inv, RunOk, JobOk, FailureMessage;
    if op.lease.jobId in s.jobs { Facts(s, op.lease.jobId); }
  }

  /** Only creations, resumes and retries add a job, and the last two date it now. */
  lemma NewJobs(s: Snapshot, op: Op, now: Time, j: JobId)
    requires Inv(s) && Enabled(s, op, now) && j !in s.jobs && j in Next(s, op, now).jobs
    ensures var job := Next(s, op, now).jobs[j];
      || (op.OpCreate? && job.runId == op.run.id && op.run.id !in s.runs)
      || (job.createdAt == now && job.runId in s.runs)
  {
    hide Inv, RunOk, JobOk, TaskOk, ClaimLog, Replay, Trim, NormalizeWorkspace, JobWorkspace, FailureMessage, Stuck, Retags, RequeueAll, Assign, KeepEvents;
    hide CompleteSucceeded, CompleteFailed, CompleteWaitingHuman, Claim;
    forall k | k in s.jobs ensures s.jobs[k].id == k { Facts(s, k); }
    match op
    case OpClaim(_, _, _, _, _, _) => ClaimEvolves(s, op, now);
    case OpSucceed(_, _) => CompletionsAddNone(s, op, now);
    case OpFail(_, _) => CompletionsAddNone(s, op, now);
    case OpWait(_, _, _, _) => CompletionsAddNone(s, op, now);
    case OpResume(taskId, _, _) => if taskId in s.tasks { TaskHasRun(s, taskId); RunFacts(s, s.tasks[taskId].runId); }
    case OpRetry(runId, _) => if runId in s.runs { RunFacts(s, runId); }
    case _ =>
  }

  /** A job leaves the store only with its run. */
  lemma JobsStay(s: Snapshot, op: Op, now: Time, j: JobId)
    requires Inv(s) && Enabled(s, op, now) && j in s.jobs && s.jobs[j].runId in Next(s, op, now).runs
    ensures j in Next(s, op, now).jobs
  {
    hide Inv, RunOk, JobOk, TaskOk, ClaimLog, Replay, Trim, NormalizeWorkspace, JobWorkspace, FailureMessage, Stuck, Retags, RequeueAll, Assign, KeepEvents;
    if op.OpClaim? { ClaimEvolves(s, op, now); }
  }

  lemma WorkspaceStays(a: Job, b: Job)
    requires Evolves(a, b)
    ensures JobWorkspace(a) == JobWorkspace(b) && a.runId == b.runId && a.createdAt == b.createdAt
  {}

  /** While the run is there, its first job stays its first job. */
  lemma FirstJobStays(s: Snapshot, clock: Time, op: Op, now: Time, workspace: string, r: RunId, j: JobId)
    requires StoreOk(s, clock, workspace, r) && Enabled(s, op, now) && clock < now && r in s.runs && r in Next(s, op, now).runs
    requires FirstJob(s, workspace, r, j)
    ensures FirstJob(Next(s, op, now), workspace, r, j)
  {
    hide Inv, Enabled, Next, Evolves, JobWorkspace, NormalizeWorkspace;
    var s' := Next(s, op, now);
    JobsStay(s, op, now, j);
    JobsEvolve(s, op, now);
    WorkspaceStays(s.jobs[j], s'.jobs[j]);
    forall k | k in s'.jobs && s'.jobs[k].runId == r && k != j ensures s'.jobs[j].createdAt < s'.jobs[k].createdAt {
      if k in s.jobs { WorkspaceStays(s.jobs[k], s'.jobs[k]); } else { NewJobs(s, op, now, k); }
    }
  }

  lemma JobsAreDated(s: Snapshot, clock: Time, op: Op, now: Time, workspace: string, r: RunId)
    requires StoreOk(s, clock, workspace, r) && Enabled(s, op, now) && clock < now
    requires op.OpCreate? ==> op.run.id != r
    ensures forall j | j in Next(s, op, now).jobs && Next(s, op, now).jobs[j].runId == r :: Next(s, op, now).jobs[j].createdAt <= now
  {
    hide Inv, Enabled, Next, Evolves, JobWorkspace, NormalizeWorkspace;
    var s' := Next(s, op, now);
    JobsEvolve(s, op, now);
    forall j | j in s'.jobs && s'.jobs[j].runId == r ensures s'.jobs[j].createdAt <= now {
      if j in s.jobs { WorkspaceStays(s.jobs[j], s'.jobs[j]); } else { NewJobs(s, op, now, j); }
    }
  }

  /** Only a creation adds a run. */
  lemma RunsAppear(s: Snapshot, op: Op, now: Time, r: RunId)
    requires Inv(s) && Enabled(s, op, now) && r !in s.runs && (op.OpCreate? ==> op.run.id != r)
    ensures r !in Next(s, op, now).runs
  {
    hide Inv, RunOk, JobOk, TaskOk, ClaimLog, Replay, Trim, NormalizeWorkspace, JobWorkspace, FailureMessage, Stuck, Retags, KeepEvents;
    match op
    case OpClaim(order, pick, _, _, _, _) => RunsOfClaim(s, op, now);
    case OpSucceed(lease, _) => if lease.jobId in s.jobs { Facts(s, lease.jobId); }
    case OpFail(lease, _) => if lease.jobId in s.jobs { Facts(s, lease.jobId); }
    case OpWait(lease, _, _, _) => if lease.jobId in s.jobs { Facts(s, lease.jobId); }
    case OpResume(taskId, _, _) => if taskId in s.tasks { TaskHasRun(s, taskId); RunFacts(s, s.tasks[taskId].runId); }
    case OpRetry(runId, _) => if runId in s.runs { RunFacts(s, runId); }
    case OpCancelJob(_, jobId, _, _) => if jobId in s.jobs { Facts(s, jobId); }
    case _ =>
  }

  lemma RunsOfClaim(s: Snapshot, op: Op, now: Time)
    requires Inv(s) && op.OpClaim? && Enabled(s, op, now)
    ensures Next(s, op, now).runs.Keys == s.runs.Keys
  {
    hide Inv, RunOk, JobOk, TaskOk, ClaimLog, Replay, Claimable;
    RequeueKeepsRuns(s, op.order, now);
    RequeueAllKeeps(s, op.order, now);
    var s1 := RequeueAll(s, op.order, now);
    if op.pick.Some? && op.pick.value in s1.jobs { Facts(s1, op.pick.value); }
  }

  lemma {:induction false} RequeueKeepsRuns(s: Snapshot, order: seq<JobId>, now: Time)
    requires Inv(s)
    ensures RequeueAll(s, order, now).runs.Keys == s.runs.Keys
  {
    if order != [] {
      hide Inv, RunOk, JobOk, TaskOk, ClaimLog, Replay;
      var front, id := order[..|order| - 1], order[|order| - 1];
      RequeueKeepsRuns(s, front, now);
      RequeueAllKeeps(s, front, now);
      var mid := RequeueAll(s, front, now);
      if id in mid.jobs { Facts(mid, id); }
    }
  }

  /** The step that creates the run makes its job the first. */
  lemma CreationIsFirst(s: Snapshot, clock: Time, run: Run, job: Job, now: Time, workspace: string)
    requires StoreOk(s, clock, workspace, run.id) && FreshRecords(run, job) && CreateRun(s, run, job, now).Success?
    requires JobWorkspace(job) == NormalizeWorkspace(workspace) && job.createdAt <= now
    ensures var s' := CreateRun(s, run, job, now).value;
      run.id in s'.runs && FirstJob(s', workspace, run.id, job.id) && forall j | j in s'.jobs && s'.jobs[j].runId == run.id :: s'.jobs[j].createdAt <= now
  {
    hide RunOk, JobOk, TaskOk, NormalizeWorkspace, Trim, ClaimLog, Replay;
    forall j | j in s.jobs ensures s.jobs[j].runId != run.id { Facts(s, j); }
    hide Inv;
  }

  /** What anyone else's call leaves of the run. */
  lemma OtherKeeps(s: Snapshot, clock: Time, op: Op, now: Time, workspace: string, r: RunId)
    requires StoreOk(s, clock, workspace, r) && Enabled(s, op, now) && clock < now
    requires (op.OpCreate? ==> op.run.id != r) && (r in s.runs ==> r in Next(s, op, now).runs)
    ensures StoreOk(Next(s, op, now), now, workspace, r)
    ensures forall phase :: CallerOk(s, workspace, r, phase) ==> CallerOk(Next(s, op, now), workspace, r, phase)
  {
    hide Inv, Enabled, Next, FirstJob;
    NextKeeps(s, op, now);
    JobsAreDated(s, clock, op, now, workspace, r);
    if r in s.runs {
      forall j | FirstJob(s, workspace, r, j) ensures FirstJob(Next(s, op, now), workspace, r, j) {
        FirstJobStays(s, clock, op, now, workspace, r, j);
      }
    } else {
      RunsAppear(s, op, now, r);
    }
  }

  /** The lookup of a run that is there selects its first job. */
  lemma SelectsFirst(s: Snapshot, clock: Time, workspace: string, r: RunId, j: JobId)
    requires StoreOk(s, clock, workspace, r) && IsEarliest(s, workspace, r, Some(j))
    ensures r in s.runs && FirstJob(s, workspace, r, j)
  {
    hide RunOk, JobOk, TaskOk, Less, JobWorkspace, NormalizeWorkspace;
    Facts(s, j);
    var first :| FirstJob(s, workspace, r, first);
    hide Inv;
  }

  lemma ReadsFirst(s: Snapshot, clock: Time, workspace: string, r: RunId, j: JobId)
    requires StoreOk(s, clock, workspace, r) && r in s.runs && FirstJob(s, workspace, r, j)
    ensures GetJob(s, workspace, j) == Found(s.jobs[j], s.runs[r]) && s.jobs[j].id == j && s.runs[r].id == r
  {}

  lemma MoveKeeps(workspace: string, r: RunId, y: System, move: Move, y': System)
    requires Agreed(y, workspace, r) && StepsAt(workspace, r, y, move, y')
    ensures Agreed(y', workspace, r)
  {
    hide Inv, Enabled, Next, FirstJob, IsEarliest, GetJob, CreateRun, NormalizeWorkspace, JobWorkspace, FreshRecords;
    match move
    case Other(op) => OtherKeeps(y.s, y.clock, op, y'.clock, workspace, r);
    case Create(c, run, job) => CreateKeeps(workspace, r, y, c, run, job, y');
    case Select(c, pick) => if pick.Some? { SelectsFirst(y.s, y.clock, workspace, r, pick.value); }
    case Read(c) => ReadsFirst(y.s, y.clock, workspace, r, y.callers[c].job);
    case _ =>
  }

  lemma CreateKeeps(workspace: string, r: RunId, y: System, c: nat, run: Run, job: Job, y': System)
    requires Agreed(y, workspace, r) && StepsAt(workspace, r, y, Create(c, run, job), y')
    ensures Agreed(y', workspace, r)
  {
    hide Inv, FirstJob, NormalizeWorkspace, JobWorkspace, FreshRecords;
    assert Next(y.s, OpCreate(run, job), y'.clock) == y'.s;
    assert Enabled(y.s, OpCreate(run, job), y'.clock);
    NextKeeps(y.s, OpCreate(run, job), y'.clock);
    if CreateRun(y.s, run, job, y'.clock).Success? {
      CreationIsFirst(y.s, y.clock, run, job, y'.clock, workspace);
      assert r !in y.s.runs;
      hide CreateRun, Next, Enabled;
      assert forall d | d in y.callers :: !y.callers[d].Reading? && !y.callers[d].Admitted? by {
        forall d | d in y.callers ensures !y.callers[d].Reading? && !y.callers[d].Admitted? { assert CallerOk(y.s, workspace, r, y.callers[d]); }
      }
    }
  }

  /**
   * What the caller at c gets of each of its moves. While the run is there the
   * lookup finds its first job and answers with it, and a creation is turned
   * into another lookup; while it is not, the caller goes on to create it, and
   * is the one told that it is new.
   */
  lemma EveryMoveAnswers(workspace: string, r: RunId, y: System, move: Move, y': System, c: nat)
    requires Agreed(y, workspace, r) && StepsAt(workspace, r, y, move, y') && c in y.callers
    ensures move.Select? && move.c == c && r in y.s.runs ==>
      y'.callers[c].Reading? && FirstJob(y.s, workspace, r, y'.callers[c].job) && y'.callers[c].again == y.callers[c].again
    ensures move.Select? && move.c == c && r !in y.s.runs ==> y'.callers[c] == if y.callers[c].again then Refused else Creating
    ensures move.Read? && move.c == c ==> y'.callers[c] == Admitted(r, y.callers[c].job, true)
    ensures move.Create? && move.c == c && r in y.s.runs ==> y'.callers[c] == Looking(true) && y'.s == y.s
    ensures move.Create? && move.c == c && r !in y.s.runs && move.job.id !in y.s.jobs ==>
      y'.callers[c] == Admitted(r, move.job.id, false) && r in y'.s.runs && move.job.id in y'.s.jobs && y'.s.jobs[move.job.id].runId == r
  {
    hide Inv, Enabled, Next, FirstJob, NormalizeWorkspace, JobWorkspace, FreshRecords, Less;
    match move
    case Select(x, pick) => if x == c { SelectsWhenThere(y.s, y.clock, workspace, r, pick); }
    case Read(x) => if x == c { ReadsFirst(y.s, y.clock, workspace, r, y.callers[c].job); }
    case Create(x, run, job) => if x == c { CreatesOrNot(y.s, run, job, y'.clock); }
    case _ =>
  }

  lemma SelectsWhenThere(s: Snapshot, clock: Time, workspace: string, r: RunId, pick: Option<JobId>)
    requires StoreOk(s, clock, workspace, r) && IsEarliest(s, workspace, r, pick)
    ensures r in s.runs <==> pick.Some?
    ensures pick.Some? ==> FirstJob(s, workspace, r, pick.value)
  {
    hide Inv, NormalizeWorkspace, JobWorkspace, Less;
    if pick.Some? { SelectsFirst(s, clock, workspace, r, pick.value); }
  }

  lemma CreatesOrNot(s: Snapshot, run: Run, job: Job, now: Time)
    requires FreshRecords(run, job)
    ensures run.id in s.runs ==> CreateRun(s, run, job, now).Failure? && Next(s, OpCreate(run, job), now) == s
    ensures run.id !in s.runs && job.id !in s.jobs ==>
      var s' := Next(s, OpCreate(run, job), now);
      CreateRun(s, run, job, now).Success? && run.id in s'.runs && job.id in s'.jobs && s'.jobs[job.id].runId == run.id
  {}

  lemma {:induction false} AgreedAlways(workspace: string, r: RunId, ys: seq<System>, moves: seq<Move>, i: nat)
    requires History(workspace, r, ys, moves) && i < |ys|
    ensures Agreed(ys[i], workspace, r)
  {
    if i == 0 {
      hide RunOk, JobOk, TaskOk;
    } else {
      hide Agreed, StepsAt;
      AgreedAlways(workspace, r, ys, moves, i - 1);
      assert moves[i - 1] == moves[i - 1];
      MoveKeeps(workspace, r, ys[i - 1], moves[i - 1], ys[i]);
    }
  }

  /**
   * However their steps interleave with each other and with everyone else's:
   * callers sharing a key that are admitted all get the one run of that key and
   * its one earliest job, and at most one of them is told it is not a replay.
   */
  lemma OneRunPerKey(workspace: string, r: RunId, ys: seq<System>, moves: seq<Move>, i: nat, c: nat, d: nat)
    requires History(workspace, r, ys, moves) && i < |ys| && c in ys[i].callers && d in ys[i].callers
    requires ys[i].callers[c].Admitted? && ys[i].callers[d].Admitted?
    ensures var a, b := ys[i].callers[c], ys[i].callers[d];
      && a.run == b.run == r && r in ys[i].s.runs && a.job == b.job
      && IsEarliest(ys[i].s, workspace, r, Some(a.job))
      && (!a.replayed && !b.replayed ==> c == d)
  {
    hide History, Inv;
    AgreedAlways(workspace, r, ys, moves, i);
    var y := ys[i];
    assert CallerOk(y.s, workspace, r, y.callers[c]) && CallerOk(y.s, workspace, r, y.callers[d]);
    assert Fresh(y.callers[c]) && Fresh(y.callers[d]) ==> c == d;
    hide JobWorkspace, NormalizeWorkspace, Less;
  }

  /** A run present once can be created by no later caller, and an admitted caller's answer stays right. */
  lemma {:induction false} AnswersStayRight(workspace: string, r: RunId, ys: seq<System>, moves: seq<Move>, i: nat, k: nat, c: nat)
    requires History(workspace, r, ys, moves) && i <= k < |ys| && c in ys[i].callers && ys[i].callers[c].Admitted?
    ensures c in ys[k].callers && ys[k].callers[c] == ys[i].callers[c] && r in ys[k].s.runs
    ensures FirstJob(ys[k].s, workspace, r, ys[i].callers[c].job)
    decreases k
  {
    hide Agreed, StepsAt, FirstJob;
    AgreedAlways(workspace, r, ys, moves, k);
    if i < k {
      AnswersStayRight(workspace, r, ys, moves, i, k - 1, c);
      assert moves[k - 1] == moves[k - 1];
      StaysAdmitted(workspace, r, ys[k - 1], moves[k - 1], ys[k], c);
    }
    CallerSays(ys[k], workspace, r, c);
  }

  lemma StaysAdmitted(workspace: string, r: RunId, y: System, move: Move, y': System, c: nat)
    requires StepsAt(workspace, r, y, move, y') && c in y.callers && y.callers[c].Admitted?
    ensures c in y'.callers && y'.callers[c] == y.callers[c]
  {
    hide Next, Enabled, IsEarliest, GetJob, CreateRun, JobWorkspace, NormalizeWorkspace, FreshRecords;
  }

  lemma CallerSays(y: System, workspace: string, r: RunId, c: nat)
    requires Agreed(y, workspace, r) && c in y.callers && y.callers[c].Admitted?
    ensures r in y.s.runs && FirstJob(y.s, workspace, r, y.callers[c].job)
  {}
}

/** The lookup and the service call themselves, over the store's class. */
module AdmissionService {
  import opened Wrappers
  import opened Text
  import opened JobModel
  import opened JobSteps
  import opened JobInvariant
  import opened JobPreservation
  import opened JobStore
  import opened AdmissionModel

  /** The selection loop of GetJobByRunID. */
  method SelectEarliest(jobs: map<JobId, Job>, workspace: string, r: RunId, ghost s: Snapshot) returns (pick: Option<JobId>)
    requires s.jobs == jobs && forall j | j in jobs :: jobs[j].id == j
    ensures IsEarliest(s, workspace, r, pick)
  {
    hide JobWorkspace, NormalizeWorkspace;
    pick := None;
    var todo := jobs.Keys;
    while todo != {}
      invariant todo <= jobs.Keys
      invariant pick.None? ==> forall k | k in JobsOfRun(s, workspace, r) :: k in todo
      invariant pick.Some? ==> pick.value in JobsOfRun(s, workspace, r) && pick.value !in todo
      invariant pick.Some? ==> forall k | k in JobsOfRun(s, workspace, r) && k !in todo && k != pick.value :: CreatedBefore(jobs[pick.value], jobs[k])
      decreases todo
    {
      var j :| j in todo;
      todo := todo - {j};
      var job := jobs[j];
      if job.runId != r || JobWorkspace(job) != NormalizeWorkspace(workspace) {
        continue;
      }
      assert j in JobsOfRun(s, workspace, r);
      if pick.None? || CreatedBefore(job, jobs[pick.value]) {
        if pick.Some? {
          forall k | k in JobsOfRun(s, workspace, r) && k !in todo && k != j ensures CreatedBefore(job, jobs[k]) {
            if k != pick.value { CreationOrder(job, jobs[pick.value], jobs[k]); }
          }
        }
        pick := Some(j);
      } else {
        CreatedOneWay(job, jobs[pick.value]);
      }
    }
  }

  lemma CreationOrder(a: Job, b: Job, c: Job)
    requires CreatedBefore(a, b) && CreatedBefore(b, c)
    ensures CreatedBefore(a, c)
  {
    if Less(a.id, b.id) && Less(b.id, c.id) { LessIsTransitive(a.id, b.id, c.id); }
  }

  lemma CreatedOneWay(a: Job, b: Job)
    requires a.id != b.id && !CreatedBefore(a, b)
    ensures CreatedBefore(b, a)
  {
    LessIsTotal(a.id, b.id);
  }

  /** GetJobByRunID when nobody acts between its two loads. */
  method GetJobByRunId(store: LocalStore, workspace: string, r: RunId) returns (found: Option<(Job, Run)>)
    requires store.Valid()
    ensures found.None? ==> JobsOfRun(store.Snap(), workspace, r) == {}
    ensures found.Some? ==> IsEarliest(store.Snap(), workspace, r, Some(found.value.0.id)) && r in store.runs
                            && found.value == (store.jobs[found.value.0.id], store.runs[r])
  {
    hide JobWorkspace, NormalizeWorkspace, Less, RunOk, JobOk, TaskOk;
    ghost var s := store.Snap();
    forall j | j in store.jobs ensures store.jobs[j].id == j && store.jobs[j].runId in store.runs { Facts(s, j); }
    hide Inv;
    var pick := SelectEarliest(store.jobs, workspace, r, s);
    if pick.None? {
      return None;
    }
    var job := store.jobs[pick.value];
    found := Some((job, store.runs[job.runId]));
  }

  datatype Admission = Admission(run: Run, job: Job, replayed: bool)

  /**
   * The store half of Service.CreateRun for a keyed request: look the run up,
   * create it if it is not there, and look again if somebody else just did.
   */
  method CreateRun(store: LocalStore, workspace: string, run: Run, job: Job, now: Time) returns (r: Result<Admission, StoreError>)
    requires store.Valid() && FreshRecords(run, job)
    modifies store
    ensures store.Valid()
    ensures JobsOfRun(old(store.Snap()), workspace, run.id) != {} ==>
              store.Snap() == old(store.Snap()) && r.Success? && r.value.replayed && IsEarliest(store.Snap(), workspace, run.id, Some(r.value.job.id))
    ensures run.id !in old(store.runs) && job.id !in old(store.jobs) ==>
              Success(store.Snap()) == JobSteps.CreateRun(old(store.Snap()), run, job, now) && r == Success(Admission(run, job, false))
    ensures r.Failure? ==> store.Snap() == old(store.Snap())
  {
    hide JobWorkspace, NormalizeWorkspace, Less, FreshRecords, RunOk, JobOk, TaskOk;
    ghost var before := store.Snap();
    var existing := GetJobByRunId(store, workspace, run.id);
    if existing.Some? {
      Owned(before, workspace, run.id, existing.value.0.id);
      return Success(Admission(existing.value.1, existing.value.0, true));
    }
    hide Inv;
    var err := store.CreateRunAndEnqueue(run, job, now);
    if err.None? {
      return Success(Admission(run, job, false));
    }
    var again := GetJobByRunId(store, workspace, run.id);
    if again.Some? {
      return Success(Admission(again.value.1, again.value.0, true));
    }
    r := Failure(Conflict);
  }

  lemma Owned(s: Snapshot, workspace: string, r: RunId, j: JobId)
    requires Inv(s) && IsEarliest(s, workspace, r, Some(j))
    ensures j in s.jobs && s.jobs[j].runId == r && r in s.runs
  {}
}
