/** The job counters and their breakdowns by tag and by app (internal/state/job_views.go). */
module JobSummary {
  import opened Wrappers
  import opened Text
  import opened Sorting
  import opened JobModel
  import opened Paging

  datatype Counts = Counts(queued: nat, running: nat, completed: nat, failed: nat, canceled: nat)

  const ZERO := Counts(0, 0, 0, 0, 0)

  function Plus(a: Counts, b: Counts): Counts {
    Counts(a.queued + b.queued, a.running + b.running, a.completed + b.completed, a.failed + b.failed, a.canceled + b.canceled)
  }

  /** What countJobSummary adds for one record. */
  function One(r: Listed, cutoff: Time): Counts {
    var settled := r.job.state.JobSucceeded? || r.job.state.JobFailed? || IsTerminal(r.run.state);
    var completedAt := if r.run.updatedAt == 0 then r.job.updatedAt else r.run.updatedAt;
    var recent := settled && completedAt >= cutoff;
    Counts(if r.job.state.JobQueued? then 1 else 0, if r.job.state.JobRunning? then 1 else 0, if recent then 1 else 0,
           if recent && Status(r) == "failure" then 1 else 0, if recent && Status(r) == "canceled" then 1 else 0)
  }

  // The records counted under one value of a grouping; every record of the workspace when there is none.
  predicate Grouped(r: Listed, workspace: string, keyOf: Job -> string, group: Option<string>) {
    JobWorkspace(r.job) == NormalizeWorkspace(workspace) && (group.Some? ==> keyOf(r.job) == group.value)
  }

  function Count(records: seq<Listed>, workspace: string, cutoff: Time, keyOf: Job -> string, group: Option<string>): Counts {
    if records == [] then ZERO
    else
      var last := records[|records| - 1];
      Plus(Count(records[..|records| - 1], workspace, cutoff, keyOf, group), if Grouped(last, workspace, keyOf, group) then One(last, cutoff) else ZERO)
  }

  function Groups(records: seq<Listed>, workspace: string, keyOf: Job -> string): set<string> {
    set r | r in records && JobWorkspace(r.job) == NormalizeWorkspace(workspace) :: keyOf(r.job)
  }

  predicate Shown(c: Counts) {
    c.queued > 0 || c.running > 0 || c.completed > 0
  }

  datatype Row = Row(key: string, counts: Counts)

  function Sum(rows: seq<Row>): Counts {
    if rows == [] then ZERO else Plus(Sum(rows[..|rows| - 1]), rows[|rows| - 1].counts)
  }

  predicate HasRow(rows: seq<Row>, key: string) {
    exists i :: 0 <= i < |rows| && rows[i].key == key
  }

  lemma HasRowMore(rows: seq<Row>, row: Row, key: string)
    ensures HasRow(rows + [row], key) <==> HasRow(rows, key) || row.key == key
  {
    var more := rows + [row];
    assert more[|rows|] == row;
    assert forall i | 0 <= i < |rows| :: more[i] == rows[i];
  }

  // A row for each group that has something to show, in order.
  ghost predicate IsBreakdown(rows: seq<Row>, records: seq<Listed>, workspace: string, cutoff: Time, keyOf: Job -> string) {
    && (forall i | 0 <= i < |rows| :: rows[i].counts == Count(records, workspace, cutoff, keyOf, Some(rows[i].key)) && Shown(rows[i].counts))
    && (forall i, k | 0 <= i < k < |rows| :: rows[i].key != rows[k].key && !Less(rows[k].key, rows[i].key))
    && (forall g | g in Groups(records, workspace, keyOf) && Shown(Count(records, workspace, cutoff, keyOf, Some(g))) :: HasRow(rows, g))
  }

  predicate IsQueued(r: Listed, workspace: string) {
    JobWorkspace(r.job) == NormalizeWorkspace(workspace) && r.job.state.JobQueued?
  }

  // Since when the oldest queued job of the workspace waits.
  ghost predicate IsOldest(oldest: Option<Time>, records: seq<Listed>, workspace: string) {
    && (oldest.None? <==> forall r | r in records :: !IsQueued(r, workspace))
    && (oldest.Some? ==> (exists r :: r in records && IsQueued(r, workspace) && r.job.createdAt == oldest.value)
                         && forall r | r in records && IsQueued(r, workspace) :: oldest.value <= r.job.createdAt)
  }

  lemma OldestSoFar(oldest: Option<Time>, records: seq<Listed>, r: Listed, workspace: string)
    requires IsOldest(oldest, records, workspace)
    ensures IsOldest(if IsQueued(r, workspace) && (oldest.None? || r.job.createdAt < oldest.value) then Some(r.job.createdAt) else oldest,
                     records + [r], workspace)
  {
    hide IsQueued;
    assert forall x :: x in records + [r] <==> x in records || x == r;
    if oldest.Some? {
      var x :| x in records && IsQueued(x, workspace) && x.job.createdAt == oldest.value;
      assert x in records + [r];
    }
    assert r in records + [r];
  }

  // The loop.

  method Tally(groups: map<string, Counts>, key: string, one: Counts) returns (tallied: map<string, Counts>)
    ensures tallied == groups[key := Plus(if key in groups then groups[key] else ZERO, one)]
  {
    var counts := if key in groups then groups[key] else ZERO;
    tallied := groups[key := Plus(counts, one)];
  }

  ghost predicate Tallied(groups: map<string, Counts>, records: seq<Listed>, workspace: string, cutoff: Time, keyOf: Job -> string) {
    && groups.Keys == Groups(records, workspace, keyOf)
    && forall g | g in groups :: groups[g] == Count(records, workspace, cutoff, keyOf, Some(g))
  }

  /** summarizeJobs: the totals, both breakdowns and the oldest queued time in one pass. */
  method Summarize(records: seq<Listed>, workspace: string, cutoff: Time)
    returns (total: Counts, byTag: seq<Row>, byApp: seq<Row>, oldest: Option<Time>)
    ensures total == Count(records, workspace, cutoff, JobTag, None)
    ensures IsBreakdown(byTag, records, workspace, cutoff, JobTag)
    ensures IsBreakdown(byApp, records, workspace, cutoff, AppOf)
    ensures IsOldest(oldest, records, workspace)
  {
    total, oldest := ZERO, None;
    var tags: map<string, Counts>, apps: map<string, Counts> := map[], map[];
    for i := 0 to |records|
      invariant total == Count(records[..i], workspace, cutoff, JobTag, None)
      invariant Tallied(tags, records[..i], workspace, cutoff, JobTag)
      invariant Tallied(apps, records[..i], workspace, cutoff, AppOf)
      invariant IsOldest(oldest, records[..i], workspace)
    {
      var r := records[i];
      assert records[..i + 1] == records[..i] + [r];
      OneMore(records[..i], r, workspace, cutoff, JobTag, tags);
      OneMore(records[..i], r, workspace, cutoff, AppOf, apps);
      OldestSoFar(oldest, records[..i], r, workspace);
      hide Tallied, Count, JobTag, AppOf, JobWorkspace, NormalizeWorkspace, One, IsOldest;
      if JobWorkspace(r.job) != NormalizeWorkspace(workspace) {
        continue;
      }
      var one := One(r, cutoff);
      total := Plus(total, one);
      tags := Tally(tags, JobTag(r.job), one);
      apps := Tally(apps, AppOf(r.job), one);
      if r.job.state.JobQueued? && (oldest.None? || r.job.createdAt < oldest.value) {
        oldest := Some(r.job.createdAt);
      }
    }
    assert records[..|records|] == records;
    byTag := Breakdown(tags, records, workspace, cutoff, JobTag);
    byApp := Breakdown(apps, records, workspace, cutoff, AppOf);
  }

  function AppOf(job: Job): string {
    job.payload.app
  }

  lemma {:induction false} CountStep(records: seq<Listed>, r: Listed, workspace: string, cutoff: Time, keyOf: Job -> string, group: Option<string>)
    ensures Count(records + [r], workspace, cutoff, keyOf, group) ==
      Plus(Count(records, workspace, cutoff, keyOf, group), if Grouped(r, workspace, keyOf, group) then One(r, cutoff) else ZERO)
  {}

  lemma {:induction false} CountOfNone(workspace: string, cutoff: Time, keyOf: Job -> string, group: Option<string>)
    ensures Count([], workspace, cutoff, keyOf, group) == ZERO
  {
  }

  lemma PlusLaws(a: Counts, b: Counts, c: Counts)
    ensures Plus(Plus(a, b), c) == Plus(Plus(a, c), b) && Plus(a, ZERO) == a && Plus(a, Plus(b, c)) == Plus(Plus(a, b), c)
  {
  }

  lemma GroupsStep(records: seq<Listed>, r: Listed, workspace: string, keyOf: Job -> string)
    ensures Groups(records + [r], workspace, keyOf) ==
      Groups(records, workspace, keyOf) + if JobWorkspace(r.job) == NormalizeWorkspace(workspace) then {keyOf(r.job)} else {}
  {}

  lemma {:induction false} NoneCounted(records: seq<Listed>, workspace: string, cutoff: Time, keyOf: Job -> string, group: string)
    requires group !in Groups(records, workspace, keyOf)
    ensures Count(records, workspace, cutoff, keyOf, Some(group)) == ZERO
  {
    hide Count, Groups, One, Plus, JobWorkspace, NormalizeWorkspace;
    CountOfNone(workspace, cutoff, keyOf, Some(group));
    if records != [] {
      var front, last := records[..|records| - 1], records[|records| - 1];
      assert records == front + [last];
      GroupsStep(front, last, workspace, keyOf);
      CountStep(front, last, workspace, cutoff, keyOf, Some(group));
      NoneCounted(front, workspace, cutoff, keyOf, group);
      PlusLaws(ZERO, ZERO, ZERO);
    }
  }

  lemma {:induction false} OneMore(records: seq<Listed>, r: Listed, workspace: string, cutoff: Time, keyOf: Job -> string, groups: map<string, Counts>)
    requires Tallied(groups, records, workspace, cutoff, keyOf)
    ensures var mine, key := JobWorkspace(r.job) == NormalizeWorkspace(workspace), keyOf(r.job);
      var more, all := records + [r], Count(records, workspace, cutoff, keyOf, None);
      && Count(more, workspace, cutoff, keyOf, None) == (if mine then Plus(all, One(r, cutoff)) else all)
      && Tallied(if mine then groups[key := Plus(if key in groups then groups[key] else ZERO, One(r, cutoff))] else groups, more, workspace, cutoff, keyOf)
  {
    hide Count, Groups, One, Plus, JobWorkspace, NormalizeWorkspace;
    var more := records + [r];
    GroupsStep(records, r, workspace, keyOf);
    CountStep(records, r, workspace, cutoff, keyOf, None);
    PlusLaws(Count(records, workspace, cutoff, keyOf, None), ZERO, ZERO);
    if keyOf(r.job) !in groups { NoneCounted(records, workspace, cutoff, keyOf, keyOf(r.job)); }
    forall g | g in Groups(more, workspace, keyOf) ensures Count(more, workspace, cutoff, keyOf, Some(g)) ==
      if Grouped(r, workspace, keyOf, Some(g)) then Plus(Count(records, workspace, cutoff, keyOf, Some(g)), One(r, cutoff)) else Count(records, workspace, cutoff, keyOf, Some(g))
    {
      CountStep(records, r, workspace, cutoff, keyOf, Some(g));
      PlusLaws(Count(records, workspace, cutoff, keyOf, Some(g)), ZERO, ZERO);
    }
  }

  method Breakdown(groups: map<string, Counts>, ghost records: seq<Listed>, ghost workspace: string, ghost cutoff: Time, ghost keyOf: Job -> string)
    returns (rows: seq<Row>)
    requires Tallied(groups, records, workspace, cutoff, keyOf)
    ensures IsBreakdown(rows, records, workspace, cutoff, keyOf)
  {
    hide Count, Less, Groups, HasRow;
    var keys := SortedKeys(groups.Keys);
    rows := [];
    for i := 0 to |keys|
      invariant forall k | 0 <= k < |rows| :: rows[k].key in keys[..i] && rows[k].key in groups && rows[k].counts == groups[rows[k].key] && Shown(rows[k].counts)
      invariant forall j, k | 0 <= j < k < |rows| :: rows[j].key != rows[k].key && !Less(rows[k].key, rows[j].key)
      invariant forall k | 0 <= k < i && Shown(groups[keys[k]]) :: HasRow(rows, keys[k])
    {
      var key := keys[i];
      assert keys[..i + 1] == keys[..i] + [key];
      if Shown(groups[key]) {
        forall k | 0 <= k <= i { HasRowMore(rows, Row(key, groups[key]), keys[k]); }
        rows := rows + [Row(key, groups[key])];
      }
    }
    forall g | g in Groups(records, workspace, keyOf) && Shown(Count(records, workspace, cutoff, keyOf, Some(g))) ensures HasRow(rows, g) {
      assert g in groups;
      var k :| 0 <= k < |keys| && keys[k] == g;
    }
  }

  method SortedKeys(s: set<string>) returns (keys: seq<string>)
    ensures Enumerates(keys, s) && SortedBy(keys, Less)
  {
    keys := [];
    var todo := s;
    while todo != {}
      invariant todo <= s && Distinct(keys)
      invariant forall k :: k in keys <==> k in s && k !in todo
      decreases todo
    {
      var k :| k in todo;
      todo := todo - {k};
      keys := keys + [k];
    }
    forall a: string, b: string ensures Less(a, b) ==> !Less(b, a) { LessIsTotal(a, b); }
    forall a: string, b: string, c: string | !Less(b, a) && !Less(c, b) ensures !Less(c, a) {
      LessIsTotal(a, b);
      LessIsTotal(b, c);
      LessIsTotal(a, c);
      if Less(a, b) && Less(b, c) { LessIsTransitive(a, b, c); }
    }
    SortEnumeration(keys, s, Less);
    keys := Sort(keys, Less);
  }

  // Nothing is lost in a breakdown.

  /** The counts of the given groups, added up. */
  function SumOver(keys: seq<string>, records: seq<Listed>, workspace: string, cutoff: Time, keyOf: Job -> string): Counts {
    if keys == [] then ZERO
    else Plus(SumOver(keys[..|keys| - 1], records, workspace, cutoff, keyOf), Count(records, workspace, cutoff, keyOf, Some(keys[|keys| - 1])))
  }

  /** One more record adds once to the sum, if its group is among those summed. */
  lemma {:induction false} SumStep(keys: seq<string>, records: seq<Listed>, r: Listed, workspace: string, cutoff: Time, keyOf: Job -> string)
    requires Distinct(keys)
    ensures SumOver(keys, records + [r], workspace, cutoff, keyOf) ==
      Plus(SumOver(keys, records, workspace, cutoff, keyOf),
           if JobWorkspace(r.job) == NormalizeWorkspace(workspace) && keyOf(r.job) in keys then One(r, cutoff) else ZERO)
  {
    hide Count, One, Plus, JobWorkspace, NormalizeWorkspace;
    if keys == [] {
      PlusLaws(ZERO, ZERO, ZERO);
    } else {
      var front, last := keys[..|keys| - 1], keys[|keys| - 1];
      SumStep(front, records, r, workspace, cutoff, keyOf);
      CountStep(records, r, workspace, cutoff, keyOf, Some(last));
      assert keys == front + [last] && last !in front;
      var a, b, one := SumOver(front, records, workspace, cutoff, keyOf), Count(records, workspace, cutoff, keyOf, Some(last)), One(r, cutoff);
      PlusLaws(a, one, b);
      PlusLaws(a, b, one);
      PlusLaws(a, ZERO, b);
      PlusLaws(b, ZERO, ZERO);
      PlusLaws(Plus(a, b), ZERO, ZERO);
    }
  }

  lemma {:induction false} CountSplits(keys: seq<string>, records: seq<Listed>, workspace: string, cutoff: Time, keyOf: Job -> string)
    requires Distinct(keys)
    requires forall r | r in records && JobWorkspace(r.job) == NormalizeWorkspace(workspace) && keyOf(r.job) !in keys :: One(r, cutoff) == ZERO
    ensures SumOver(keys, records, workspace, cutoff, keyOf) == Count(records, workspace, cutoff, keyOf, None)
  {
    hide Count, SumOver, One, Plus, JobWorkspace, NormalizeWorkspace, Distinct;
    CountOfNone(workspace, cutoff, keyOf, None);
    if records == [] {
      SumOfNothing(keys, workspace, cutoff, keyOf);
    } else {
      var front, last := records[..|records| - 1], records[|records| - 1];
      assert records == front + [last];
      assert last in records && forall x | x in front :: x in records;
      CountSplits(keys, front, workspace, cutoff, keyOf);
      SumStep(keys, front, last, workspace, cutoff, keyOf);
      CountStep(front, last, workspace, cutoff, keyOf, None);
    }
  }

  lemma {:induction false} SumOfNothing(keys: seq<string>, workspace: string, cutoff: Time, keyOf: Job -> string)
    ensures SumOver(keys, [], workspace, cutoff, keyOf) == ZERO
  {
    hide Count, One, Plus, JobWorkspace, NormalizeWorkspace;
    forall g: string { CountOfNone(workspace, cutoff, keyOf, Some(g)); }
    if keys != [] {
      SumOfNothing(keys[..|keys| - 1], workspace, cutoff, keyOf);
      PlusLaws(ZERO, ZERO, ZERO);
    }
  }

  predicate Within(a: Counts, b: Counts) {
    a.queued <= b.queued && a.running <= b.running && a.completed <= b.completed && a.failed <= b.failed && a.canceled <= b.canceled
  }

  /** No record counts more than its group. */
  lemma {:induction false} MemberCounts(records: seq<Listed>, r: Listed, workspace: string, cutoff: Time, keyOf: Job -> string)
    requires r in records && JobWorkspace(r.job) == NormalizeWorkspace(workspace)
    ensures Within(One(r, cutoff), Count(records, workspace, cutoff, keyOf, Some(keyOf(r.job))))
  {
    hide Count, One, JobWorkspace, NormalizeWorkspace;
    var front, last := records[..|records| - 1], records[|records| - 1];
    assert records == front + [last];
    CountStep(front, last, workspace, cutoff, keyOf, Some(keyOf(r.job)));
    if r != last { MemberCounts(front, r, workspace, cutoff, keyOf); }
  }

  function RowKeys(rows: seq<Row>): seq<string> {
    seq(|rows|, i requires 0 <= i < |rows| => rows[i].key)
  }

  lemma {:induction false} SumOfRows(rows: seq<Row>, records: seq<Listed>, workspace: string, cutoff: Time, keyOf: Job -> string)
    requires forall i | 0 <= i < |rows| :: rows[i].counts == Count(records, workspace, cutoff, keyOf, Some(rows[i].key))
    ensures Sum(rows) == SumOver(RowKeys(rows), records, workspace, cutoff, keyOf)
  {
    hide Count, Plus;
    if rows != [] {
      SumOfRows(rows[..|rows| - 1], records, workspace, cutoff, keyOf);
      assert RowKeys(rows)[..|rows| - 1] == RowKeys(rows[..|rows| - 1]);
    }
  }

  /**
   * Each breakdown adds up: the rows listed sum to the totals in every counter,
   * so what is left out of the list counted nothing.
   */
  lemma {:induction false} BreakdownAddsUp(rows: seq<Row>, records: seq<Listed>, workspace: string, cutoff: Time, keyOf: Job -> string)
    requires IsBreakdown(rows, records, workspace, cutoff, keyOf)
    ensures Sum(rows) == Count(records, workspace, cutoff, keyOf, None)
  {
    var keys := RowKeys(rows);
    SumOfRows(rows, records, workspace, cutoff, keyOf);
    forall r | r in records && JobWorkspace(r.job) == NormalizeWorkspace(workspace) && keyOf(r.job) !in keys ensures One(r, cutoff) == ZERO {
      UnlistedCountsNothing(rows, records, workspace, cutoff, keyOf, r);
    }
    CountSplits(keys, records, workspace, cutoff, keyOf);
  }

  lemma UnlistedCountsNothing(rows: seq<Row>, records: seq<Listed>, workspace: string, cutoff: Time, keyOf: Job -> string, r: Listed)
    requires IsBreakdown(rows, records, workspace, cutoff, keyOf)
    requires r in records && JobWorkspace(r.job) == NormalizeWorkspace(workspace) && keyOf(r.job) !in RowKeys(rows)
    ensures One(r, cutoff) == ZERO
  {
    hide JobWorkspace, NormalizeWorkspace, Count;
    MemberCounts(records, r, workspace, cutoff, keyOf);
    assert keyOf(r.job) in Groups(records, workspace, keyOf);
    assert forall i | 0 <= i < |rows| :: rows[i].key == RowKeys(rows)[i];
  }
}
