/** Listing jobs page by page (internal/state/job_views.go, internal/server/jobs.go). */
module Paging {
  import opened Wrappers
  import opened Text
  import opened Sorting
  import opened JobModel

  // jobRunRecord.
  datatype Listed = Listed(job: Job, run: Run)

  datatype Position = Position(createdAt: Time, id: JobId)

  datatype Query = Query(
    workspace: string, status: string, app: string, action: string, triggerKind: string,
    since: Option<Time>, until: Option<Time>, cursor: Option<Position>, limit: int)

  /** jobTriggerKind. */
  function TriggerKind(job: Job): string {
    if job.payload.triggerKind != "" then job.payload.triggerKind else "api"
  }

  /** jobTerminalStatus. */
  function Status(r: Listed): string {
    if r.run.state.RunCanceled? then "canceled"
    else if r.job.state.JobQueued? then "queued"
    else if r.job.state.JobRunning? then "running"
    else if r.job.state.JobSucceeded? || r.run.state.RunSucceeded? || r.run.state.RunWaitingHuman? then "success"
    else "failure"
  }

  predicate StatusMatches(filter: string, status: string) {
    if filter == "" || filter == "all" then true
    else if filter == "completed" then status == "success" || status == "failure" || status == "canceled"
    else status == filter
  }

  predicate InView(r: Listed, q: Query) {
    && JobWorkspace(r.job) == NormalizeWorkspace(q.workspace)
    && (q.app != "" ==> r.job.payload.app == q.app) && (q.action != "" ==> r.job.payload.action == q.action)
    && (q.triggerKind != "" ==> TriggerKind(r.job) == q.triggerKind)
    && (q.since.Some? ==> r.job.createdAt >= q.since.value) && (q.until.Some? ==> r.job.createdAt <= q.until.value)
    && StatusMatches(q.status, Status(r))
  }

  predicate PastCursor(r: Listed, cursor: Option<Position>) {
    cursor.Some? ==>
      !(r.job.createdAt > cursor.value.createdAt
        || (r.job.createdAt == cursor.value.createdAt && !Less(r.job.id, cursor.value.id)))
  }

  predicate Kept(r: Listed, q: Query) {
    InView(r, q) && PastCursor(r, q.cursor)
  }

  predicate NewerFirst(a: Listed, b: Listed) {
    a.job.createdAt > b.job.createdAt || (a.job.createdAt == b.job.createdAt && Less(b.job.id, a.job.id))
  }

  /** The filter loop. */
  function Keep(records: seq<Listed>, q: Query): seq<Listed> {
    if records == [] then []
    else
      var last := records[|records| - 1];
      Keep(records[..|records| - 1], q) + if Kept(last, q) then [last] else []
  }

  function Cut(items: seq<Listed>, limit: int): seq<Listed> {
    if limit > 0 && |items| > limit then items[..limit] else items
  }

  /** listJobsFromRecords. */
  function List(records: seq<Listed>, q: Query): seq<Listed> {
    Cut(Sort(Keep(records, q), NewerFirst), q.limit)
  }

  method ListJobsFromRecords(records: seq<Listed>, q: Query) returns (items: seq<Listed>)
    ensures items == List(records, q)
  {
    items := [];
    for i := 0 to |records|
      invariant items == Keep(records[..i], q)
    {
      assert records[..i + 1][..i] == records[..i];
      var r := records[i];
      if JobWorkspace(r.job) != NormalizeWorkspace(q.workspace) || (q.app != "" && r.job.payload.app != q.app)
         || (q.action != "" && r.job.payload.action != q.action) || (q.triggerKind != "" && TriggerKind(r.job) != q.triggerKind) {
        continue;
      }
      if (q.since.Some? && r.job.createdAt < q.since.value) || (q.until.Some? && r.job.createdAt > q.until.value)
         || !StatusMatches(q.status, Status(r)) {
        continue;
      }
      if q.cursor.Some? {
        var c := q.cursor.value;
        if r.job.createdAt > c.createdAt || (r.job.createdAt == c.createdAt && !Less(r.job.id, c.id)) {
          continue;
        }
      }
      items := items + [r];
    }
    assert records[..|records|] == records;
    items := Sort(items, NewerFirst);
    if q.limit > 0 && |items| > q.limit {
      items := items[..q.limit];
    }
  }

  datatype Page = Page(items: seq<Listed>, hasMore: bool, next: Option<Position>)

  /** handleJobList: ask for one more than the page holds, to know whether there is a next one. */
  function PageOf(records: seq<Listed>, q: Query, limit: nat): Page
    requires limit > 0
  {
    var items := List(records, q.(limit := limit + 1));
    if |items| > limit then Page(items[..limit], true, Some(Position(items[limit - 1].job.createdAt, items[limit - 1].job.id)))
    else Page(items, false, None)
  }

  /** A page size from the request: 50 unless given, and refused outside 1 to 500. */
  function PageSize(requested: Option<int>): Option<nat> {
    if requested.None? then Some(50) else if requested.value <= 0 || requested.value > 500 then None else Some(requested.value)
  }

  method HandleJobList(records: seq<Listed>, q: Query, requested: Option<int>) returns (page: Option<Page>)
    ensures page == if PageSize(requested).None? then None else Some(PageOf(records, q, PageSize(requested).value))
  {
    var size := PageSize(requested);
    if size.None? {
      return None;
    }
    var limit := size.value;
    var items := ListJobsFromRecords(records, q.(limit := limit + 1));
    var hasMore := |items| > limit;
    if hasMore {
      items := items[..limit];
    }
    var next := if hasMore then Some(Position(items[|items| - 1].job.createdAt, items[|items| - 1].job.id)) else None;
    page := Some(Page(items, hasMore, next));
  }

  // The cursor on the wire.

  // Base64 and the textual form of a time.
  datatype Codec = Codec(format: Time -> string, parse: string -> Option<Time>, pack: string -> string, unpack: string -> Option<string>)

  ghost predicate Lawful(c: Codec) {
    && (forall t :: c.parse(c.format(t)) == Some(t) && '|' !in c.format(t))
    && (forall x :: c.unpack(c.pack(x)) == Some(x))
  }

  predicate IsHex(c: char) {
    '0' <= c <= '9' || 'a' <= c <= 'f' || 'A' <= c <= 'F'
  }

  predicate CanonicalUuid(id: string) {
    |id| == 36 && forall i | 0 <= i < 36 :: if i == 8 || i == 13 || i == 18 || i == 23 then id[i] == '-' else IsHex(id[i])
  }

  function EncodeCursor(c: Codec, p: Position): string {
    c.pack(c.format(p.createdAt) + "|" + p.id)
  }

  function Bar(s: string): (i: nat)
    ensures i <= |s|
  {
    if s == "" || s[0] == '|' then 0 else 1 + Bar(s[1..])
  }

  /** decodeJobCursor: None where it reports a malformed cursor. */
  function DecodeCursor(c: Codec, raw: string): Option<Position> {
    var data := c.unpack(raw);
    if data.None? || Bar(data.value) == |data.value| then None
    else
      var createdAt, id := c.parse(data.value[..Bar(data.value)]), data.value[Bar(data.value) + 1..];
      if createdAt.None? || !CanonicalUuid(id) then None else Some(Position(createdAt.value, id))
  }

  lemma {:induction false} BarAfter(a: string, b: string)
    requires '|' !in a
    ensures Bar(a + "|" + b) == |a|
  {
    if a != "" {
      BarAfter(a[1..], b);
      assert (a + "|" + b)[1..] == a[1..] + "|" + b;
    }
  }

  /** A cursor comes back as it was sent exactly when its job identifier is a canonical UUID; otherwise it is refused. */
  lemma CursorRoundTrip(c: Codec, p: Position)
    requires Lawful(c)
    ensures DecodeCursor(c, EncodeCursor(c, p)) == if CanonicalUuid(p.id) then Some(p) else None
  {
    var text := c.format(p.createdAt);
    assert c.parse(text) == Some(p.createdAt) && '|' !in text;
    BarAfter(text, p.id);
    var data := text + "|" + p.id;
    assert c.unpack(c.pack(data)) == Some(data);
    assert data[..|text|] == text && data[|text| + 1..] == p.id;
  }

  // Following the pages.

  ghost predicate DistinctIds(records: seq<Listed>) {
    forall i, k :: 0 <= i < k < |records| ==> records[i].job.id != records[k].job.id
  }

  lemma NewerIsWeak()
    ensures StrictWeak(NewerFirst)
  {
    forall a: Listed, b: Listed ensures NewerFirst(a, b) ==> !NewerFirst(b, a) { LessIsTotal(a.job.id, b.job.id); }
    forall a: Listed, b: Listed, c: Listed | !NewerFirst(b, a) && !NewerFirst(c, b) ensures !NewerFirst(c, a) {
      LessIsTotal(a.job.id, b.job.id);
      LessIsTotal(b.job.id, c.job.id);
      LessIsTotal(a.job.id, c.job.id);
      if Less(c.job.id, b.job.id) && Less(b.job.id, a.job.id) { LessIsTransitive(c.job.id, b.job.id, a.job.id); }
    }
  }

  lemma {:induction false} KeepKeeps(records: seq<Listed>, q: Query, r: Listed)
    ensures r in Keep(records, q) <==> r in records && Kept(r, q)
  {
    if records != [] {
      KeepKeeps(records[..|records| - 1], q, r);
      assert records == records[..|records| - 1] + [records[|records| - 1]];
    }
  }

  lemma {:induction false} KeepIsDistinct(records: seq<Listed>, q: Query)
    requires DistinctIds(records)
    ensures DistinctIds(Keep(records, q))
  {
    if records != [] {
      var front, last := records[..|records| - 1], records[|records| - 1];
      KeepIsDistinct(front, q);
      forall r | r in Keep(front, q) ensures r.job.id != last.job.id { KeepKeeps(front, q, r); }
    }
  }

  // In order, each record once.
  ghost predicate Ordered(xs: seq<Listed>) {
    forall i, k :: 0 <= i < k < |xs| ==> NewerFirst(xs[i], xs[k])
  }

  /** The list before its limit is applied: the records kept, newest first. */
  function Whole(records: seq<Listed>, q: Query): seq<Listed> {
    Sort(Keep(records, q), NewerFirst)
  }

  lemma WholeIsOrdered(records: seq<Listed>, q: Query)
    requires DistinctIds(records)
    ensures Ordered(Whole(records, q))
    ensures forall r :: r in Whole(records, q) <==> r in records && Kept(r, q)
  {
    hide Sort, Keep, NewerFirst, Kept;
    var kept, whole := Keep(records, q), Whole(records, q);
    NewerIsWeak();
    KeepIsDistinct(records, q);
    SortSorts(kept, NewerFirst);
    SameElements(whole, kept);
    forall r ensures r in whole <==> r in records && Kept(r, q) { KeepKeeps(records, q, r); }
    assert Distinct(kept);
    forall x ensures multiset(whole)[x] <= 1 { MultiplicityOfDistinct(kept, x); }
    DistinctByMultiset(whole);
    forall i, k | 0 <= i < k < |whole| ensures NewerFirst(whole[i], whole[k]) {
      assert whole[i] in kept && whole[k] in kept;
      IdsDiffer(kept, whole[i], whole[k]);
      NewerIsTotal(whole[i], whole[k]);
    }
  }

  lemma IdsDiffer(xs: seq<Listed>, a: Listed, b: Listed)
    requires DistinctIds(xs) && a in xs && b in xs && a != b
    ensures a.job.id != b.job.id
  {
  }

  lemma NewerIsTotal(a: Listed, b: Listed)
    requires a.job.id != b.job.id
    ensures NewerFirst(a, b) || NewerFirst(b, a)
  {
    LessIsTotal(a.job.id, b.job.id);
  }

  lemma NewerOneWay(a: Listed, b: Listed)
    ensures !(NewerFirst(a, b) && NewerFirst(b, a))
  {
    LessIsTotal(a.job.id, b.job.id);
  }

  /** There is one way to put records in order. */
  lemma {:induction false} OrderIsUnique(xs: seq<Listed>, ys: seq<Listed>)
    requires Ordered(xs) && Ordered(ys) && forall r :: r in xs <==> r in ys
    ensures xs == ys
  {
    hide NewerFirst;
    assert (xs != [] ==> xs[0] in ys) && (ys != [] ==> ys[0] in xs);
    if xs != [] && ys != [] {
      var i :| 0 <= i < |ys| && ys[i] == xs[0];
      var k :| 0 <= k < |xs| && xs[k] == ys[0];
      NewerOneWay(xs[0], ys[0]);
      assert xs[0] == ys[0];
      forall r ensures r in xs[1..] <==> r in ys[1..] {
        NewerOneWay(xs[0], xs[0]);
        assert r in xs <==> r == xs[0] || r in xs[1..];
        assert r in ys <==> r == ys[0] || r in ys[1..];
      }
      OrderIsUnique(xs[1..], ys[1..]);
    }
  }

  function PositionOf(r: Listed): Position {
    Position(r.job.createdAt, r.job.id)
  }

  /** Asking past a record gives the rest of the list after it. */
  lemma CursorSplits(records: seq<Listed>, q: Query, i: nat)
    requires DistinctIds(records) && q.cursor.None? && i < |Whole(records, q)|
    ensures Whole(records, q.(cursor := Some(PositionOf(Whole(records, q)[i])))) == Whole(records, q)[i + 1..]
  {
    var whole := Whole(records, q);
    var p := whole[i];
    var q' := q.(cursor := Some(PositionOf(p)));
    WholeIsOrdered(records, q);
    WholeIsOrdered(records, q');
    hide Whole, Ordered;
    forall r ensures r in Whole(records, q') <==> r in whole[i + 1..] {
      if r in whole { PastIsNewer(p, r); }
      TailMembers(whole, i, r);
      SameView(r, q, q');
    }
    TailIsOrdered(whole, i + 1);
    OrderIsUnique(Whole(records, q'), whole[i + 1..]);
  }

  lemma SameView(r: Listed, q: Query, q': Query)
    requires q' == q.(cursor := q'.cursor) && q.cursor.None?
    ensures Kept(r, q') <==> Kept(r, q) && PastCursor(r, q'.cursor)
  {
  }

  lemma PastIsNewer(p: Listed, r: Listed)
    ensures PastCursor(r, Some(PositionOf(p))) <==> NewerFirst(p, r)
  {}

  lemma TailIsOrdered(xs: seq<Listed>, n: nat)
    requires Ordered(xs) && n <= |xs|
    ensures Ordered(xs[n..])
  {
  }

  lemma TailMembers(xs: seq<Listed>, i: nat, r: Listed)
    requires Ordered(xs) && i < |xs|
    ensures r in xs[i + 1..] <==> r in xs && NewerFirst(xs[i], r)
  {
    hide NewerFirst;
    if r in xs {
      var k :| 0 <= k < |xs| && xs[k] == r;
      NewerOneWay(xs[i], r);
      if k > i { assert xs[i + 1..][k - i - 1] == r; }
    }
  }

  /** Asking for page after page, each with the cursor of the one before; None if a cursor is refused. */
  function Follow(records: seq<Listed>, q: Query, limit: nat, codec: Codec, fuel: nat): Option<seq<Listed>>
    requires limit > 0
    decreases fuel
  {
    var page := PageOf(records, q, limit);
    if !page.hasMore then Some(page.items)
    else
      var cursor := DecodeCursor(codec, EncodeCursor(codec, page.next.value));
      if cursor.None? || fuel == 0 then None
      else
        var more := Follow(records, q.(cursor := cursor), limit, codec, fuel - 1);
        if more.None? then None else Some(page.items + more.value)
  }

  /** The job that ends each page but the last has an identifier its cursor can carry. */
  predicate Followable(items: seq<Listed>, limit: nat)
    requires limit > 0
    decreases |items|
  {
    |items| <= limit || (CanonicalUuid(items[limit - 1].job.id) && Followable(items[limit..], limit))
  }

  lemma PageIsPrefix(records: seq<Listed>, q: Query, limit: nat)
    requires limit > 0
    ensures var page, whole := PageOf(records, q, limit), Whole(records, q);
      && page.hasMore == (|whole| > limit) && page.items == Cut(whole, limit)
      && (page.hasMore ==> page.next == Some(PositionOf(whole[limit - 1])))
  {
    KeepIgnoresLimit(records, q, limit + 1);
    hide Sort, Keep;
  }

  lemma {:induction false} KeepIgnoresLimit(records: seq<Listed>, q: Query, limit: int)
    ensures Keep(records, q.(limit := limit)) == Keep(records, q)
  {
    if records != [] {
      hide JobWorkspace, NormalizeWorkspace, Less;
      KeepIgnoresLimit(records[..|records| - 1], q, limit);
    }
  }

  // The query whose list starts at the i-th record of the whole one.
  function From(q: Query, whole: seq<Listed>, i: nat): Query
    requires i <= |whole|
  {
    if i == 0 then q else q.(cursor := Some(PositionOf(whole[i - 1])))
  }

  function Expected(rest: seq<Listed>, limit: nat): Option<seq<Listed>>
    requires limit > 0
  {
    if Followable(rest, limit) then Some(rest) else None
  }

  /** Following the cursors from anywhere in the list gives the rest of it, or stops at the first cursor that is refused. */
  lemma {:induction false} FollowFrom(records: seq<Listed>, q: Query, limit: nat, codec: Codec, whole: seq<Listed>, i: nat, fuel: nat)
    requires DistinctIds(records) && q.cursor.None? && limit > 0 && Lawful(codec) && whole == Whole(records, q)
    requires i <= |whole| && fuel >= |whole| - i
    ensures Follow(records, From(q, whole, i), limit, codec, fuel) == Expected(whole[i..], limit)
    decreases fuel
  {
    hide *;
    if |whole| - i > limit {
      FollowFrom(records, q, limit, codec, whole, i + limit, fuel - 1);
      FollowMore(records, q, limit, codec, whole, i, fuel);
    } else {
      WholeFrom(records, q, whole, i);
      FollowOnce(records, From(q, whole, i), limit, codec, fuel);
      ExpectedEnd(whole[i..], limit);
    }
  }

  lemma {:induction false} FollowMore(records: seq<Listed>, q: Query, limit: nat, codec: Codec, whole: seq<Listed>, i: nat, fuel: nat)
    requires DistinctIds(records) && q.cursor.None? && limit > 0 && Lawful(codec) && whole == Whole(records, q)
    requires i + limit < |whole| && fuel > 0
    requires Follow(records, From(q, whole, i + limit), limit, codec, fuel - 1) == Expected(whole[i + limit..], limit)
    ensures Follow(records, From(q, whole, i), limit, codec, fuel) == Expected(whole[i..], limit)
  {
    var rest := whole[i..];
    WholeFrom(records, q, whole, i);
    FollowOnce(records, From(q, whole, i), limit, codec, fuel);
    NextFrom(q, whole, i, limit);
    SplitRest(whole, i, limit);
    ExpectedStep(rest, limit);
    hide *;
  }

  lemma WholeFrom(records: seq<Listed>, q: Query, whole: seq<Listed>, i: nat)
    requires DistinctIds(records) && q.cursor.None? && whole == Whole(records, q) && i <= |whole|
    ensures Whole(records, From(q, whole, i)) == whole[i..]
  {
    if i > 0 { CursorSplits(records, q, i - 1); } else { assert whole[0..] == whole; }
  }

  lemma NextFrom(q: Query, whole: seq<Listed>, i: nat, limit: nat)
    requires limit > 0 && i + limit <= |whole|
    ensures From(q, whole, i).(cursor := Some(PositionOf(whole[i..][limit - 1]))) == From(q, whole, i + limit)
  {
  }

  lemma ExpectedStep(rest: seq<Listed>, limit: nat)
    requires limit > 0 && |rest| > limit
    ensures Expected(rest, limit) == if CanonicalUuid(rest[limit - 1].job.id) then Then(rest[..limit], Expected(rest[limit..], limit)) else None
  {
    assert rest[..limit] + rest[limit..] == rest;
  }

  lemma ExpectedEnd(rest: seq<Listed>, limit: nat)
    requires limit > 0 && |rest| <= limit
    ensures Expected(rest, limit) == Some(rest)
  {
  }

  function Then(first: seq<Listed>, more: Option<seq<Listed>>): Option<seq<Listed>> {
    if more.None? then None else Some(first + more.value)
  }

  lemma FollowOnce(records: seq<Listed>, q: Query, limit: nat, codec: Codec, fuel: nat)
    requires limit > 0 && Lawful(codec)
    ensures var rest := Whole(records, q);
      Follow(records, q, limit, codec, fuel) ==
        if |rest| <= limit then Some(rest)
        else if !CanonicalUuid(rest[limit - 1].job.id) || fuel == 0 then None
        else Then(rest[..limit], Follow(records, q.(cursor := Some(PositionOf(rest[limit - 1]))), limit, codec, fuel - 1))
  {
    PageIsPrefix(records, q, limit);
    var rest := Whole(records, q);
    if |rest| > limit { CursorRoundTrip(codec, PositionOf(rest[limit - 1])); }
    hide Whole, PageOf, CanonicalUuid, DecodeCursor, EncodeCursor, Lawful;
  }

  lemma SplitRest(whole: seq<Listed>, i: nat, limit: nat)
    requires 0 < limit && i + limit <= |whole|
    ensures var rest := whole[i..];
      rest[limit - 1] == whole[i + limit - 1] && rest[limit..] == whole[i + limit..] && rest[..limit] + whole[i + limit..] == rest
  {
  }

  /**
   * Keyset pagination refines the plain list: on a fixed snapshot, for every
   * filter and every page size, the pages joined are the unpaged list, newest
   * first and each job once. The only way to be stopped is a page that ends on
   * a job whose identifier is not a canonical UUID.
   */
  lemma {:induction false} PagesAreTheList(records: seq<Listed>, q: Query, limit: nat, codec: Codec, fuel: nat)
    requires DistinctIds(records) && q.cursor.None? && q.limit <= 0 && limit > 0 && Lawful(codec) && fuel >= |List(records, q)|
    ensures var all := List(records, q);
      && Follow(records, q, limit, codec, fuel) == (if Followable(all, limit) then Some(all) else None)
      && Ordered(all) && (forall r :: r in all <==> r in records && InView(r, q))
      && ((forall r | r in records :: CanonicalUuid(r.job.id)) ==> Followable(all, limit))
  {
    WholeIsOrdered(records, q);
    assert List(records, q) == Whole(records, q);
    FollowFrom(records, q, limit, codec, Whole(records, q), 0, fuel);
    assert Whole(records, q)[0..] == Whole(records, q);
    if forall r | r in records :: CanonicalUuid(r.job.id) { UuidsAreFollowable(Whole(records, q), limit); }
  }

  lemma {:induction false} UuidsAreFollowable(items: seq<Listed>, limit: nat)
    requires limit > 0 && forall r | r in items :: CanonicalUuid(r.job.id)
    ensures Followable(items, limit)
    decreases |items|
  {
    if |items| > limit {
      hide CanonicalUuid;
      assert items[limit - 1] in items;
      UuidsAreFollowable(items[limit..], limit);
    }
  }

  /** Two jobs, a page of one, and an identifier of the fallback generator: the walk stops, and the older job is never listed. */
  lemma {:induction false} OddIdentifierStopsPaging(newer: Listed, older: Listed, q: Query, codec: Codec, fuel: nat)
    requires newer.job.id == "job_1" != older.job.id && NewerFirst(newer, older) && InView(newer, q) && InView(older, q)
    requires q.cursor.None? && q.limit <= 0 && Lawful(codec) && fuel >= 2
    ensures List([newer, older], q) == [newer, older] && Follow([newer, older], q, 1, codec, fuel) == None
  {
    var records := [newer, older];
    assert List(records, q) == Whole(records, q);
    hide InView, NewerFirst, Whole, List;
    WholeIsOrdered(records, q);
    assert forall r :: r in records <==> r in Whole(records, q);
    OrderIsUnique(records, Whole(records, q));
    PagesAreTheList(records, q, 1, codec, fuel);
    assert !CanonicalUuid(records[0].job.id);
  }
}
