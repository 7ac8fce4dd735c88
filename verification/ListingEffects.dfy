/** What listings and counters show, in the states and fields of the records (internal/state/job_views.go). */
module ListingEffects {
  import opened Wrappers
  import opened Text
  import opened Sorting
  import opened JobModel
  import opened JobEffects
  import opened Paging
  import opened JobSummary

  /** What each word of the status filter lists. */
  predicate InStatus(filter: string, r: Listed) {
    var canceled, job, run := r.run.state == RunCanceled, r.job.state, r.run.state;
    if filter == "" || filter == "all" then true
    else if filter == "canceled" then canceled
    else if filter == "queued" then !canceled && job == JobQueued
    else if filter == "running" then !canceled && job == JobRunning
    else if filter == "success" then !canceled && (job == JobSucceeded || (job == JobFailed && (run == RunSucceeded || run == RunWaitingHuman)))
    else if filter == "failure" then !canceled && job == JobFailed && run != RunSucceeded && run != RunWaitingHuman
    else filter == "completed" && (canceled || job == JobSucceeded || job == JobFailed)
  }

  predicate Shows(r: Listed, q: Query) {
    var p := r.job.payload;
    && InWorkspace(p, NormalizeWorkspace(q.workspace))
    && (q.app == "" || p.app == q.app) && (q.action == "" || p.action == q.action)
    && (q.triggerKind == "" || (if p.triggerKind == "" then "api" else p.triggerKind) == q.triggerKind)
    && (q.since.Some? ==> q.since.value <= r.job.createdAt) && (q.until.Some? ==> r.job.createdAt <= q.until.value)
    && InStatus(q.status, r)
  }

  predicate Older(createdAt: Time, id: JobId, than: Time, thanId: JobId) {
    createdAt < than || (createdAt == than && Less(id, thanId))
  }

  lemma StatusFields(r: Listed, filter: string)
    ensures StatusMatches(filter, Status(r)) <==> InStatus(filter, r)
  {}

  lemma ShownFields(r: Listed, q: Query)
    ensures Kept(r, q) <==> Shows(r, q) && (q.cursor.Some? ==> Older(r.job.createdAt, r.job.id, q.cursor.value.createdAt, q.cursor.value.id))
  {
    hide InStatus, StatusMatches, Status, JobWorkspace, InWorkspace, NormalizeWorkspace;
    StatusFields(r, q.status);
    PinnedFields(r.job, NormalizeWorkspace(q.workspace), "", 1);
  }

  /** The list holds exactly the records the query asks for that lie behind its cursor, newest first; a limit keeps the front of it. */
  lemma ListExactly(records: seq<Listed>, q: Query)
    requires DistinctIds(records)
    ensures var all := List(records, q.(limit := 0));
      && (forall r :: r in all <==> (r in records && Shows(r, q)
                      && (q.cursor.Some? ==> Older(r.job.createdAt, r.job.id, q.cursor.value.createdAt, q.cursor.value.id))))
      && (forall i, k | 0 <= i < k < |all| :: Older(all[k].job.createdAt, all[k].job.id, all[i].job.createdAt, all[i].job.id))
      && List(records, q) == if 0 < q.limit < |all| then all[..q.limit] else all
  {
    hide Sort, Keep, Kept, Shows, Older, NewerFirst;
    KeepIgnoresLimit(records, q, 0);
    WholeIsOrdered(records, q);
    assert List(records, q.(limit := 0)) == Whole(records, q);
    forall r ensures Kept(r, q) <==> Shows(r, q) && (q.cursor.Some? ==> Older(r.job.createdAt, r.job.id, q.cursor.value.createdAt, q.cursor.value.id)) {
      ShownFields(r, q);
    }
    var all := Whole(records, q);
    forall i, k | 0 <= i < k < |all| ensures Older(all[k].job.createdAt, all[k].job.id, all[i].job.createdAt, all[i].job.id) {
      assert NewerFirst(all[i], all[k]);
      OlderMeans(all[i], all[k]);
    }
  }

  lemma OlderMeans(a: Listed, b: Listed)
    ensures NewerFirst(a, b) <==> Older(b.job.createdAt, b.job.id, a.job.createdAt, a.job.id)
  {}

  /** A page is the front of the list, says whether there is more, and points at its last record if so; sizes run from 1 to 500, by default 50. */
  lemma PageExactly(records: seq<Listed>, q: Query, requested: Option<int>)
    requires DistinctIds(records)
    ensures PageSize(requested) == (match requested
      case None => Some(50)
      case Some(n) => if 1 <= n <= 500 then Some(n) else None)
    ensures PageSize(requested).Some? ==>
      var n, all := PageSize(requested).value, List(records, q.(limit := 0));
      var page := PageOf(records, q, n);
      && page.hasMore == (|all| > n) && page.items == (if |all| > n then all[..n] else all)
      && page.next == (if |all| > n then Some(Position(all[n - 1].job.createdAt, all[n - 1].job.id)) else None)
  {
    if PageSize(requested).Some? {
      KeepIgnoresLimit(records, q, 0);
      PageIsPrefix(records, q, PageSize(requested).value);
      hide Sort, Keep;
    }
  }

  // The counters.

  datatype Counter = Queued | Running | Completed | Failed | Canceled

  function Of(c: Counts, counter: Counter): nat {
    match counter
    case Queued => c.queued
    case Running => c.running
    case Completed => c.completed
    case Failed => c.failed
    case Canceled => c.canceled
  }

  // The job or its run has ended, no longer ago than the cutoff.
  predicate EndedSince(r: Listed, cutoff: Time) {
    && (r.job.state == JobSucceeded || r.job.state == JobFailed
        || r.run.state == RunSucceeded || r.run.state == RunFailed || r.run.state == RunCanceled || r.run.state == RunExpired)
    && cutoff <= if r.run.updatedAt == 0 then r.job.updatedAt else r.run.updatedAt
  }

  predicate CountsAs(r: Listed, counter: Counter, cutoff: Time) {
    match counter
    case Queued => r.job.state == JobQueued
    case Running => r.job.state == JobRunning
    case Completed => EndedSince(r, cutoff)
    case Failed => EndedSince(r, cutoff) && InStatus("failure", r)
    case Canceled => EndedSince(r, cutoff) && r.run.state == RunCanceled
  }

  lemma OneCounts(r: Listed, counter: Counter, cutoff: Time)
    ensures Of(One(r, cutoff), counter) == if CountsAs(r, counter, cutoff) then 1 else 0
  {}

  predicate IsCounted(r: Listed, workspace: string, cutoff: Time, keyOf: Job -> string, group: Option<string>, counter: Counter) {
    && InWorkspace(r.job.payload, NormalizeWorkspace(workspace)) && (group.Some? ==> keyOf(r.job) == group.value) && CountsAs(r, counter, cutoff)
  }

  /** The records that a counter of a group counts, by their place. */
  function Counted(records: seq<Listed>, workspace: string, cutoff: Time, keyOf: Job -> string, group: Option<string>, counter: Counter): set<int> {
    set i | 0 <= i < |records| && IsCounted(records[i], workspace, cutoff, keyOf, group, counter)
  }

  /** Each counter is the number of the workspace's and the group's records that count as it. */
  lemma {:induction false} CountsExactly(records: seq<Listed>, workspace: string, cutoff: Time, keyOf: Job -> string, group: Option<string>, counter: Counter)
    ensures Of(Count(records, workspace, cutoff, keyOf, group), counter) == |Counted(records, workspace, cutoff, keyOf, group, counter)|
  {
    if records == [] {
      assert Counted(records, workspace, cutoff, keyOf, group, counter) == {};
    } else {
      var front, last := records[..|records| - 1], records[|records| - 1];
      CountsExactly(front, workspace, cutoff, keyOf, group, counter);
      assert records == front + [last];
      CountStep(front, last, workspace, cutoff, keyOf, group);
      OneMoreCounted(front, last, workspace, cutoff, keyOf, group, counter);
      PinnedFields(last.job, NormalizeWorkspace(workspace), "", 1);
      OneCounts(last, counter, cutoff);
      hide JobWorkspace, InWorkspace, NormalizeWorkspace, One, CountsAs, Counted, Count;
    }
  }

  lemma OneMoreCounted(records: seq<Listed>, r: Listed, workspace: string, cutoff: Time, keyOf: Job -> string, group: Option<string>, counter: Counter)
    ensures |Counted(records + [r], workspace, cutoff, keyOf, group, counter)|
      == |Counted(records, workspace, cutoff, keyOf, group, counter)| + if IsCounted(r, workspace, cutoff, keyOf, group, counter) then 1 else 0
  {
    hide IsCounted;
    var n := |records|;
    var before, after := Counted(records, workspace, cutoff, keyOf, group, counter), Counted(records + [r], workspace, cutoff, keyOf, group, counter);
    forall i ensures i in after <==> i in before || (i == n && IsCounted(r, workspace, cutoff, keyOf, group, counter)) {
      if 0 <= i < n { assert (records + [r])[i] == records[i]; }
      if i == n { assert (records + [r])[i] == r; }
    }
    assert n !in before;
    hide Counted;
    if IsCounted(r, workspace, cutoff, keyOf, group, counter) { assert after == before + {n}; } else { assert after == before; }
  }
}
