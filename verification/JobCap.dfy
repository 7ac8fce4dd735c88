/** The concurrency cap, over whole runs and with releases that pin different caps. */
module JobCap {
  import opened Wrappers
  import opened JobModel
  import opened JobSteps
  import opened JobInvariant
  import opened JobPreservation
  import opened JobEvolution

  lemma {:induction false} SubsetSize<T>(a: set<T>, b: set<T>)
    requires a <= b
    ensures |a| <= |b|
  {
    if a != {} {
      var x :| x in a;
      SubsetSize(a - {x}, b - {x});
    }
  }

  lemma {:induction false} ClaimsAreEvents(events: seq<Event>, j: JobId)
    ensures forall e | e in ClaimLog(events, j) :: e in events
  {
    if events != [] {
      ClaimsAreEvents(events[..|events| - 1], j);
    }
  }

  lemma StampBound(s: Snapshot, j: JobId)
    requires EventsOk(s)
    ensures Stamp(s, j) <= s.sequence
  {
    hide ClaimLog;
    ClaimsAreEvents(s.events, j);
    var claims := ClaimLog(s.events, j);
    if claims != [] {
      assert claims[|claims| - 1] in s.events;
    }
  }

  /** Two records of one job count against the same cap. */
  lemma SamePool(a: Job, b: Job)
    requires a.payload.(tag := "") == b.payload.(tag := "")
    ensures JobWorkspace(a) == JobWorkspace(b) && JobAppKey(a) == JobAppKey(b) && JobMaxConcurrent(a) == JobMaxConcurrent(b)
  {}

  lemma CalmPeers(s: Snapshot, s': Snapshot, j: JobId)
    requires AllCalm(s, s') && j in s'.jobs && s'.jobs[j].state.JobRunning?
    ensures j in s.jobs && s.jobs[j].state.JobRunning? && EarlierPeers(s', j) <= EarlierPeers(s, j)
  {
    hide ClaimLog, JobWorkspace, JobAppKey, JobMaxConcurrent;
    assert Calm(s, s', j);
    forall k | k in EarlierPeers(s', j) ensures k in EarlierPeers(s, j) {
      assert Calm(s, s', k);
      SamePool(s.jobs[k], s'.jobs[k]);
      SamePool(s.jobs[j], s'.jobs[j]);
    }
  }

  lemma CapCalm(s: Snapshot, s': Snapshot)
    requires AllCalm(s, s') && CapInv(s)
    ensures CapInv(s')
  {
    hide ClaimLog, JobWorkspace, JobAppKey, JobMaxConcurrent, EarlierPeers, AllCalm;
    forall j | j in s'.jobs && s'.jobs[j].state.JobRunning? ensures CapOk(s', j) {
      CalmPeers(s, s', j);
      SubsetSize(EarlierPeers(s', j), EarlierPeers(s, j));
      CalmPool(s, s', j);
      assert CapOk(s, j);
    }
  }

  lemma CalmPool(s: Snapshot, s': Snapshot, j: JobId)
    requires AllCalm(s, s') && j in s'.jobs && j in s.jobs
    ensures JobAppKey(s.jobs[j]) == JobAppKey(s'.jobs[j]) && JobMaxConcurrent(s.jobs[j]) == JobMaxConcurrent(s'.jobs[j])
  {}

  /** Handing out j: what the other running jobs see. */
  lemma HandedOthers(s: Snapshot, s': Snapshot, j: JobId, k: JobId)
    requires j in s.jobs && j in s'.jobs && s'.jobs == s.jobs[j := s'.jobs[j]] && k in s.jobs && k != j
    requires Stamp(s', j) == s'.sequence > s.sequence && EventsOk(s)
    requires forall i | i in s.jobs && i != j :: ClaimLog(s'.events, i) == ClaimLog(s.events, i)
    ensures EarlierPeers(s', k) <= EarlierPeers(s, k)
  {
    hide ClaimLog, JobWorkspace, JobAppKey, JobMaxConcurrent;
    StampBound(s, k);
  }

  lemma HandedSelf(s: Snapshot, s': Snapshot, j: JobId)
    requires j in s.jobs && j in s'.jobs && s'.jobs == s.jobs[j := s'.jobs[j]] && Evolves(s.jobs[j], s'.jobs[j])
    ensures EarlierPeers(s', j) <= RunningPeers(s.jobs, s.jobs[j]) + {j}
  {}

  lemma CapHandOut(s: Snapshot, s': Snapshot, j: JobId)
    requires CapInv(s) && EventsOk(s) && j in s.jobs && !CapReached(s.jobs, s.jobs[j])
    requires j in s'.jobs && s'.jobs == s.jobs[j := s'.jobs[j]] && Evolves(s.jobs[j], s'.jobs[j])
    requires Stamp(s', j) == s'.sequence > s.sequence
    requires forall i | i in s.jobs && i != j :: ClaimLog(s'.events, i) == ClaimLog(s.events, i)
    ensures CapInv(s')
  {
    hide ClaimLog, JobWorkspace, JobAppKey, JobMaxConcurrent, EarlierPeers, RunningPeers, Stamp, EventsOk;
    forall k | k in s'.jobs ensures CapOk(s', k) {
      SamePool(s.jobs[j], s'.jobs[j]);
      if k == j {
        HandedSelf(s, s', j);
        SubsetSize(EarlierPeers(s', j), RunningPeers(s.jobs, s.jobs[j]) + {j});
      } else {
        HandedOthers(s, s', j, k);
        SubsetSize(EarlierPeers(s', k), EarlierPeers(s, k));
        assert CapOk(s, k);
      }
    }
  }

  /** Every operation keeps the cap. */
  lemma CapKeeps(s: Snapshot, op: Op, now: Time)
    requires Inv(s) && CapInv(s) && Enabled(s, op, now)
    ensures CapInv(Next(s, op, now))
  {
    hide Inv, CapInv, AllCalm, RequeueAll, Assign, CapReached, ClaimLog, Evolves;
    var s' := Next(s, op, now);
    if !op.OpClaim? {
      CalmStep(s, op, now);
      CapCalm(s, s');
    } else if op.pick.Some? {
      var s1 := RequeueAll(s, op.order, now);
      RequeueAllKeeps(s, op.order, now);
      CalmRequeueAll(s, op.order, now);
      CapCalm(s, s1);
      HandsOut(s1, op.pick.value, op.worker, now + EffectiveTtl(op.ttl), now);
      assert EventsOk(s1) by { InvEvents(s1); }
      CapHandOut(s1, s', op.pick.value);
    }
  }

  lemma InvEvents(s: Snapshot)
    requires Inv(s)
    ensures EventsOk(s)
  {}

  lemma {:induction false} LatestOf(s: Snapshot, jobs: set<JobId>) returns (j: JobId)
    requires jobs != {}
    ensures j in jobs && forall k | k in jobs :: Stamp(s, k) <= Stamp(s, j)
  {
    hide Stamp;
    j :| j in jobs;
    if jobs != {j} {
      var k := LatestOf(s, jobs - {j});
      if Stamp(s, j) <= Stamp(s, k) { j := k; }
    }
  }

  /** When every job of an app pins the same cap, no more than that many of them ever run at once. */
  lemma UniformCap(s: Snapshot, job: Job, cap: int)
    requires CapInv(s) && JobAppKey(job) != "" && cap > 0
    requires forall k | k in RunningPeers(s.jobs, job) :: JobMaxConcurrent(s.jobs[k]) == Some(cap)
    ensures |RunningPeers(s.jobs, job)| <= cap
  {
    hide ClaimLog, JobWorkspace, JobAppKey, JobMaxConcurrent, Stamp;
    var peers := RunningPeers(s.jobs, job);
    if peers != {} {
      var j := LatestOf(s, peers);
      assert EarlierPeers(s, j) == peers;
      assert CapOk(s, j);
    }
  }
}
