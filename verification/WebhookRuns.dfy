/** Batched clean-up against the clean-up done in one go. */
module WebhookRetention {
  import opened Text
  import opened WebhookModel
  import opened WebhookInvariant

  function Records(o: Outbox): nat {
    |o.deliveries| + |o.events| + |o.subscriptions|
  }

  /**
   * What the one-shot clean-up means: no expired delivery is left, only events
   * some delivery refers to are left, and the only subscriptions gone are
   * deleted, old and referred to by nothing.
   */
  lemma OneShotIsExact(o: Outbox, p: Policy)
    requires Inv(o)
    ensures var o' := OneShot(o, p);
      && Inv(o')
      && (forall d :: d in o'.deliveries <==> d in o.deliveries && !IsExpired(o.deliveries[d], p))
      && (forall d | d in o'.deliveries :: o'.deliveries[d] == o.deliveries[d])
      && (forall e :: e in o'.events <==> exists d :: d in o'.deliveries && o'.deliveries[d].eventId == e)
      && (forall e | e in o'.events :: o'.events[e] == o.events[e])
      && (forall k :: k in o'.subscriptions <==> (k in o.subscriptions && (
            || p.subscriptionBefore == 0 || o.subscriptions[k].deletedAt.None? || o.subscriptions[k].deletedAt.value >= p.subscriptionBefore
            || exists d :: d in o'.deliveries && KeyOf(o'.deliveries[d]) == k)))
      && (forall k | k in o'.subscriptions :: o'.subscriptions[k] == o.subscriptions[k])
  {}

  lemma SubsetOfSize<K>(a: set<K>, b: set<K>)
    requires a <= b && |a| == |b|
    ensures a == b
  {
    assert b == a + (b - a);
  }

  /** A batch that could not take every expired delivery took nothing else. */
  lemma PartialBatch(o: Outbox, p: Policy, drop: Drop)
    requires IsBatch(o, p, drop) && |drop.deliveries| != |ExpiredIds(o, p)|
    ensures OneShot(Without(o, drop), p) == OneShot(o, p)
  {
    hide IsExpired, Key, Less, OlderThan, ByAge, OrphanEvents, OrphanSubscriptions;
    var o' := Without(o, drop);
    var expired := ExpiredIds(o, p);
    assert drop.events == {} && drop.subscriptions == {};
    assert o'.events == o.events && o'.subscriptions == o.subscriptions;
    assert ExpiredIds(o', p) == expired - drop.deliveries;
    assert o'.deliveries - ExpiredIds(o', p) == o.deliveries - expired;
  }

  /** A batch that took every expired delivery leaves only what refers to nothing. */
  lemma FullBatch(o: Outbox, p: Policy, drop: Drop)
    requires IsBatch(o, p, drop) && |drop.deliveries| == |ExpiredIds(o, p)|
    ensures OneShot(Without(o, drop), p) == OneShot(o, p)
  {
    hide IsExpired, KeyOf, Less, OlderThan, ByAge;
    SubsetOfSize(drop.deliveries, ExpiredIds(o, p));
    var o' := Without(o, drop);
    var rest := DropDeliveries(o, drop.deliveries);
    assert ExpiredIds(o', p) == {};
    assert o'.deliveries - {} == o'.deliveries;
    assert DropDeliveries(o', ExpiredIds(o', p)) == o';
    OrphansLeft(rest, o', p, drop);
    hide OrphanEvents, OrphanSubscriptions, ExpiredIds;
    RemoveInTwo(rest.events, drop.events, OrphanEvents(rest));
    RemoveInTwo(rest.subscriptions, drop.subscriptions, OrphanSubscriptions(rest, p));
  }

  lemma OrphansLeft(rest: Outbox, o': Outbox, p: Policy, drop: Drop)
    requires o' == Outbox(rest.deliveries, rest.events - drop.events, rest.subscriptions - drop.subscriptions)
    ensures OrphanEvents(o') == OrphanEvents(rest) - drop.events
    ensures OrphanSubscriptions(o', p) == OrphanSubscriptions(rest, p) - drop.subscriptions
  {}

  lemma RemoveInTwo<K, V>(m: map<K, V>, first: set<K>, all: set<K>)
    requires first <= all
    ensures (m - first) - (all - first) == m - all
  {
  }

  /** A batch changes nothing about where the clean-up ends. */
  lemma BatchKeepsGoal(o: Outbox, p: Policy, drop: Drop)
    requires IsBatch(o, p, drop)
    ensures OneShot(Without(o, drop), p) == OneShot(o, p)
  {
    if |drop.deliveries| == |ExpiredIds(o, p)| {
      FullBatch(o, p, drop);
    } else {
      PartialBatch(o, p, drop);
    }
  }

  /** A batch takes at most BatchSize records, none of them an active delivery, and the counts are exact. */
  lemma BatchIsBounded(o: Outbox, p: Policy, drop: Drop)
    requires IsBatch(o, p, drop)
    ensures drop.Size() <= BatchSize(p)
    ensures Records(Without(o, drop)) == Records(o) - drop.Size()
    ensures forall d | d in drop.deliveries :: d in o.deliveries && IsExpired(o.deliveries[d], p) && !IsActive(o.deliveries[d].state)
  {}

  /** A batch is empty exactly when the clean-up has nothing left to do. */
  lemma EmptyBatchMeansDone(o: Outbox, p: Policy, drop: Drop)
    requires IsBatch(o, p, drop)
    ensures drop.Size() == 0 <==> drop == NOTHING
    ensures drop == NOTHING <==> OneShot(o, p) == o
  {
    hide Key, Less, OlderThan, IsExpired;
    var rest := DropDeliveries(o, drop.deliveries);
    if drop == NOTHING {
      assert rest == o;
      assert ExpiredIds(o, p) == {} && OrphanEvents(o) == {} && OrphanSubscriptions(o, p) == {};
      assert DropDeliveries(o, {}) == o;
      assert o.events - {} == o.events && o.subscriptions - {} == o.subscriptions;
    }
    if OneShot(o, p) == o {
      assert (o.deliveries - ExpiredIds(o, p)).Keys == o.deliveries.Keys - ExpiredIds(o, p);
      assert ExpiredIds(o, p) == {};
      assert rest == o && DropDeliveries(o, {}) == o;
      assert (o.events - OrphanEvents(o)).Keys == o.events.Keys - OrphanEvents(o);
      assert (o.subscriptions - OrphanSubscriptions(o, p)).Keys == o.subscriptions.Keys - OrphanSubscriptions(o, p);
      assert OrphanEvents(o) == {} && OrphanSubscriptions(o, p) == {};
    }
  }

  lemma FirstAreDetermined<K(!new)>(a: set<K>, b: set<K>, from: set<K>, limit: nat, before: (K, K) -> bool)
    requires TakesFirst(a, from, limit, before) && TakesFirst(b, from, limit, before)
    requires forall x, y :: before(x, y) ==> !before(y, x)
    ensures a == b
  {
    if x :| x in a && x !in b {
      if b <= a { SubsetOfSize(b, a); assert false; }
      var y :| y in b && y !in a;
      var both := before(x, y) && before(y, x);
      assert false;
    } else {
      assert a <= b;
      SubsetOfSize(a, b);
    }
  }

  lemma AgeOrder(a: Delivery, b: Delivery)
    ensures !(OlderThan(a, b) && OlderThan(b, a))
    ensures a.id != b.id ==> OlderThan(a, b) || OlderThan(b, a)
  {
    LessIsTotal(a.id, b.id);
  }

  /** Which records a batch takes depends on the outbox and the policy alone. */
  lemma BatchIsDetermined(o: Outbox, p: Policy, a: Drop, b: Drop)
    requires IsBatch(o, p, a) && IsBatch(o, p, b)
    ensures a == b
  {
    forall x: string, y: string ensures Less(x, y) ==> !Less(y, x) { LessIsTotal(x, y); }
    hide IsExpired, Key, Less, OlderThan;
    forall x, y | ByAge(o)(x, y) ensures !ByAge(o)(y, x) { AgeOrder(o.deliveries[x], o.deliveries[y]); }
    FirstAreDetermined(a.deliveries, b.deliveries, ExpiredIds(o, p), BatchSize(p), ByAge(o));
    var rest := DropDeliveries(o, a.deliveries);
    FirstAreDetermined(a.events, b.events, OrphanEvents(rest), BatchSize(p) - |a.deliveries|, Less);
    FirstAreDetermined(a.subscriptions, b.subscriptions, OrphanSubscriptions(rest, p), BatchSize(p) - |a.deliveries| - |a.events|, Less);
  }

  /** A clean-up cycle: batches of any positive sizes, one after the other, with the same cutoffs. */
  ghost predicate Cycle(os: seq<Outbox>, drops: seq<Drop>, p: Policy, sizes: seq<int>) {
    && |os| == |drops| + 1 && |sizes| == |drops|
    && forall i {:trigger drops[i]} :: 0 <= i < |drops| ==> IsBatch(os[i], p.(batchSize := sizes[i]), drops[i]) && os[i + 1] == Without(os[i], drops[i])
  }

  function Taken(drops: seq<Drop>): nat {
    if drops == [] then 0 else Taken(drops[..|drops| - 1]) + drops[|drops| - 1].Size()
  }

  lemma BatchSizeIsNoGoal(o: Outbox, p: Policy, size: int)
    ensures OneShot(o, p.(batchSize := size)) == OneShot(o, p)
  {
    var q := p.(batchSize := size);
    assert ExpiredIds(o, p) == ExpiredIds(o, q);
    var rest := DropDeliveries(o, ExpiredIds(o, p));
    assert OrphanSubscriptions(rest, p) == OrphanSubscriptions(rest, q);
  }

  /**
   * Batched retention is one-shot retention: whatever the batch sizes, no batch
   * moves the goal, the records taken add up, an empty batch comes exactly when
   * the goal is reached, and every earlier batch takes something.
   */
  lemma {:induction false} CycleReachesOneShot(os: seq<Outbox>, drops: seq<Drop>, p: Policy, sizes: seq<int>)
    requires Cycle(os, drops, p, sizes)
    ensures OneShot(os[|drops|], p) == OneShot(os[0], p)
    ensures Records(os[|drops|]) + Taken(drops) == Records(os[0])
    ensures |drops| > 0 ==> (drops[|drops| - 1] == NOTHING <==> os[|drops| - 1] == OneShot(os[0], p))
    ensures (forall i | 0 <= i < |drops| :: drops[i] != NOTHING) ==> |drops| <= Records(os[0])
  {
    if drops != [] {
      var last := |drops| - 1;
      CycleReachesOneShot(os[..last + 1], drops[..last], p, sizes[..last]);
      var q := p.(batchSize := sizes[last]);
      assert drops[last] == drops[last];
      assert IsBatch(os[last], q, drops[last]) && os[last + 1] == Without(os[last], drops[last]);
      hide IsBatch, OneShot, Without, Records;
      BatchKeepsGoal(os[last], q, drops[last]);
      BatchIsBounded(os[last], q, drops[last]);
      EmptyBatchMeansDone(os[last], q, drops[last]);
      BatchSizeIsNoGoal(os[last], p, sizes[last]);
      BatchSizeIsNoGoal(os[last + 1], p, sizes[last]);
      TakenAtLeast(drops);
    }
  }

  lemma {:induction false} TakenAtLeast(drops: seq<Drop>)
    ensures (forall i | 0 <= i < |drops| :: drops[i] != NOTHING) ==> |drops| <= Taken(drops)
  {
    if drops != [] {
      TakenAtLeast(drops[..|drops| - 1]);
      var d := drops[|drops| - 1];
      if d.Size() == 0 { assert d == NOTHING; }
    }
  }
}

/** The outbox over whole runs: any number of dispatchers, any interleaving. */
module WebhookTraces {
  import opened Wrappers
  import opened Text
  import opened WebhookModel
  import opened WebhookInvariant

  datatype Call = Call(op: Op, now: Time)

  ghost predicate StepsTo(o: Outbox, call: Call, o': Outbox) {
    Enabled(o, call.op, call.now) && o' == Next(o, call.op, call.now)
  }

  ghost predicate Trace(os: seq<Outbox>, calls: seq<Call>) {
    && |os| == |calls| + 1 && os[0] == EMPTY
    && forall i {:trigger calls[i]} :: 0 <= i < |calls| ==> StepsTo(os[i], calls[i], os[i + 1])
  }

  /** A delivery identifier is not drawn again once its delivery is gone. */
  ghost predicate IdsFresh(os: seq<Outbox>) {
    forall i, k, d :: 0 <= i < k < |os| && d in os[i].deliveries && d in os[k].deliveries ==> d in os[k - 1].deliveries
  }

  lemma {:induction false} InvAlways(os: seq<Outbox>, calls: seq<Call>, i: nat)
    requires Trace(os, calls) && i < |os|
    ensures Inv(os[i])
  {
    if i > 0 {
      InvAlways(os, calls, i - 1);
      hide Inv, Next, Enabled;
      var call := calls[i - 1];
      assert StepsTo(os[i - 1], call, os[i]);
      NextKeeps(os[i - 1], call.op, call.now);
    }
  }

  /**
   * In every reachable outbox a lease is held exactly while delivering, a
   * completion time is set exactly for succeeded, failed and canceled
   * deliveries, and no delivery lacks its event or subscription.
   */
  lemma OutboxAlways(os: seq<Outbox>, calls: seq<Call>, i: nat, d: DeliveryId)
    requires Trace(os, calls) && i < |os| && d in os[i].deliveries
    ensures var o := os[i]; var r := o.deliveries[d];
      && r.eventId in o.events && KeyOf(r) in o.subscriptions
      && (r.state.DeliveryDelivering? <==> r.leaseOwner.Some? && r.leaseExpiresAt.Some?)
      && (!r.state.DeliveryDelivering? ==> r.leaseOwner.None? && r.leaseExpiresAt.None?)
      && (r.completedAt.Some? <==> r.state.DeliverySucceeded? || r.state.DeliveryFailed? || r.state.DeliveryCanceled?)
  {
    InvAlways(os, calls, i);
    assert DeliveryOk(os[i], d);
  }

  ghost predicate MissedBefore(os: seq<Outbox>, calls: seq<Call>, i: nat, d: DeliveryId)
    requires i < |os| <= |calls| + 1
  {
    exists k :: 0 <= k < i && d in Missed(os[k], calls[k].op)
  }

  /** The deliveries that wait for a deleted subscription are exactly those some deletion missed, for ever after. */
  lemma {:induction false} StrandedExactly(os: seq<Outbox>, calls: seq<Call>, i: nat, d: DeliveryId)
    requires Trace(os, calls) && i < |os|
    ensures d in Stranded(os[i]) <==> MissedBefore(os, calls, i, d)
  {
    hide Inv, Enabled, Next, Missed;
    if i > 0 {
      StrandedExactly(os, calls, i - 1, d);
      StepOf(os, calls, i - 1);
      NextStrands(os[i - 1], calls[i - 1].op, calls[i - 1].now);
      hide Stranded, Trace;
      var before := MissedBefore(os, calls, i - 1, d);
      if before {
        var k :| 0 <= k < i - 1 && d in Missed(os[k], calls[k].op);
      }
    }
  }

  ghost predicate DeletedMeansSettled(o: Outbox) {
    forall d | d in o.deliveries && KeyOf(o.deliveries[d]) in o.subscriptions && o.subscriptions[KeyOf(o.deliveries[d])].deletedAt.Some? ::
      !o.deliveries[d].state.DeliveryPending? && !o.deliveries[d].state.DeliveryRetrying?
  }

  lemma SettledUnlessStranded(o: Outbox)
    ensures DeletedMeansSettled(o) <==> Stranded(o) == {}
  {
    hide KeyOf;
    forall d | d in o.deliveries && d !in Stranded(o) && KeyOf(o.deliveries[d]) in o.subscriptions
      ensures o.subscriptions[KeyOf(o.deliveries[d])].deletedAt.Some? ==> !IsWaiting(o.deliveries[d].state) {}
    if d :| d in Stranded(o) { assert IsWaiting(o.deliveries[d].state); }
  }

  /**
   * A deleted subscription has nothing pending or retrying exactly when no
   * deletion so far missed a delivery; that is so in particular when all
   * requests name workspaces free of "/".
   */
  lemma DeletedMeansSettledExactly(os: seq<Outbox>, calls: seq<Call>, i: nat)
    requires Trace(os, calls) && i < |os|
    ensures DeletedMeansSettled(os[i]) <==> forall k | 0 <= k < i :: Missed(os[k], calls[k].op) == {}
    ensures (forall k | 0 <= k < i :: PlainRequest(calls[k].op)) ==> DeletedMeansSettled(os[i])
  {
    forall d ensures d in Stranded(os[i]) <==> MissedBefore(os, calls, i, d) { StrandedExactly(os, calls, i, d); }
    SettledUnlessStranded(os[i]);
    hide Missed, Trace, Stranded, DeletedMeansSettled;
    if forall k | 0 <= k < i :: Missed(os[k], calls[k].op) == {} {
      if d :| d in Stranded(os[i]) { assert false; }
    }
    if Stranded(os[i]) == {} {
      forall k | 0 <= k < i ensures Missed(os[k], calls[k].op) == {} {
        if d :| d in Missed(os[k], calls[k].op) { assert false; }
      }
    }
    if forall k | 0 <= k < i :: PlainRequest(calls[k].op) {
      forall k | 0 <= k < i ensures Missed(os[k], calls[k].op) == {} {
        PlainAlways(os, calls, k);
        PlainMissesNothing(os[k], calls[k].op);
      }
    }
  }

  lemma {:induction false} PlainAlways(os: seq<Outbox>, calls: seq<Call>, i: nat)
    requires Trace(os, calls) && i < |os| && forall k | 0 <= k < i :: PlainRequest(calls[k].op)
    ensures PlainNames(os[i])
  {
    if i > 0 {
      PlainAlways(os, calls, i - 1);
      StepOf(os, calls, i - 1);
      hide Inv, Enabled, Next, PlainNames, PlainRequest;
      NextIsPlain(os[i - 1], calls[i - 1].op, calls[i - 1].now);
    }
  }

  // A subscription is created, a test delivery asked for, and the subscription deleted: each request with its own spelling.
  function TestThenDelete(draft: Draft, workspaces: (string, string, string), ids: (string, string, string)): seq<Call> {
    [Call(OpCreate(workspaces.0, ids.0, "", draft, ""), 1),
     Call(OpTest(workspaces.1, ids.1, "evt_1", "whd_1"), 2),
     Call(OpDelete(workspaces.2, ids.2, ""), 3)]
  }

  /** A deletion that spells the key with another workspace than the delivery strands it, whichever of the two was the right one. */
  lemma OtherSpellingStrands(draft: Draft, workspaces: (string, string, string), ids: (string, string, string))
    requires ValidDraft(draft) && draft.enabled && Trim(ids.0) == ids.0 && "whs_" <= ids.0
    requires Key(workspaces.0, ids.0) == Key(workspaces.1, ids.1) == Key(workspaces.2, ids.2)
    requires NormalizeWorkspace(workspaces.1) != NormalizeWorkspace(workspaces.2)
    ensures exists os :: Trace(os, TestThenDelete(draft, workspaces, ids)) && Stranded(os[3]) == {"whd_1"}
  {
    var calls := TestThenDelete(draft, workspaces, ids);
    NormalizeTwice(workspaces.0);
    NormalizeTwice(workspaces.1);
    hide NormalizeWorkspace, Trim, Filters, ValidDraft;
    var s := PrepareNew(workspaces.0, ids.0, "", draft, "", 1).value;
    var k := Key(workspaces.0, ids.0);
    var o1 := EMPTY.(subscriptions := map[k := s]);
    var o2 := Next(o1, calls[1].op, 2);
    var o3 := Next(o2, calls[2].op, 3);
    var os := [EMPTY, o1, o2, o3];
    assert CreateSubscription(EMPTY, workspaces.0, ids.0, "", draft, "", 1) == Success(o1);
    assert o2 == CreateTest(o1, workspaces.1, ids.1, "evt_1", "whd_1", 2).value;
    assert o2.deliveries.Keys == {"whd_1"};
    assert KeyOf(o2.deliveries["whd_1"]) == k;
    assert StepsTo(os[0], calls[0], os[1]) && StepsTo(os[1], calls[1], os[2]) && StepsTo(os[2], calls[2], os[3]);
    assert Trace(os, calls);
    assert o3 == DeleteSubscription(o2, workspaces.2, ids.2, "", 3).value;
    assert o3.deliveries.Keys == {"whd_1"};
    assert Stranded(o3) == {"whd_1"};
  }

  /** Both ways round: "whs_c" of workspace "a/b", deleted or tested as "b/whs_c" of workspace "a". */
  lemma DeletionCanMiss(draft: Draft)
    requires ValidDraft(draft) && draft.enabled
    ensures exists os :: Trace(os, TestThenDelete(draft, ("a/b", "a/b", "a"), ("whs_c", "whs_c", "b/whs_c"))) && Stranded(os[3]) == {"whd_1"}
    ensures exists os :: Trace(os, TestThenDelete(draft, ("a/b", "a", "a/b"), ("whs_c", "b/whs_c", "whs_c"))) && Stranded(os[3]) == {"whd_1"}
  {
    assert Trim("a") == "a";
    assert TrimLeft("a/b") == "a/b" && TrimRight("a/b") == "a/b";
    assert TrimLeft("whs_c") == "whs_c" && TrimRight("whs_c") == "whs_c";
    assert "a" + "/" + "b/whs_c" == "a/b" + "/" + "whs_c";
    hide Trace, TestThenDelete, Stranded, ValidDraft;
    OtherSpellingStrands(draft, ("a/b", "a/b", "a"), ("whs_c", "whs_c", "b/whs_c"));
    OtherSpellingStrands(draft, ("a/b", "a", "a/b"), ("whs_c", "b/whs_c", "whs_c"));
  }

  lemma StepOf(os: seq<Outbox>, calls: seq<Call>, i: nat)
    requires Trace(os, calls) && i + 1 < |os|
    ensures i < |calls| && StepsTo(os[i], calls[i], os[i + 1]) && Inv(os[i])
  {
    InvAlways(os, calls, i);
    assert calls[i] == calls[i];
  }

  lemma StillThere(os: seq<Outbox>, i: nat, k: nat, d: DeliveryId)
    requires IdsFresh(os) && i < k < |os| && d in os[i].deliveries && d in os[k].deliveries
    ensures d in os[k - 1].deliveries
  {
  }

  /** A delivery's attempt never goes down, and it stays with its event and subscription. */
  lemma {:induction false} AttemptNeverDecreases(os: seq<Outbox>, calls: seq<Call>, i: nat, k: nat, d: DeliveryId)
    requires Trace(os, calls) && IdsFresh(os) && i <= k < |os| && d in os[i].deliveries && d in os[k].deliveries
    ensures os[i].deliveries[d].attempt <= os[k].deliveries[d].attempt
    ensures os[i].deliveries[d].eventId == os[k].deliveries[d].eventId && KeyOf(os[i].deliveries[d]) == KeyOf(os[k].deliveries[d])
    decreases k
  {
    hide Inv, KeyOf, Enabled, Next, Trace, IdsFresh;
    if i < k {
      StillThere(os, i, k, d);
      AttemptNeverDecreases(os, calls, i, k - 1, d);
      StepOf(os, calls, k - 1);
      DeliveriesPersist(os[k - 1], calls[k - 1].op, calls[k - 1].now, d);
    }
  }

  ghost predicate Accepted(os: seq<Outbox>, calls: seq<Call>, i: nat, d: DeliveryId, attempt: nat)
    requires |os| == |calls| + 1 && i < |calls|
  {
    var op := calls[i].op;
    op.OpComplete? && op.lease.deliveryId == d && op.lease.attempt == attempt && Complete(os[i], op.lease, op.result, calls[i].now).Success?
  }

  // No completion of this attempt can be accepted any more.
  ghost predicate Spent(o: Outbox, d: DeliveryId, attempt: nat) {
    d in o.deliveries && (o.deliveries[d].attempt > attempt || (o.deliveries[d].attempt == attempt && !o.deliveries[d].state.DeliveryDelivering?))
  }

  lemma SpentStays(o: Outbox, op: Op, now: Time, d: DeliveryId, attempt: nat)
    requires Inv(o) && Enabled(o, op, now) && Spent(o, d, attempt) && d in Next(o, op, now).deliveries
    ensures Spent(Next(o, op, now), d, attempt)
  {
    hide Inv, Enabled, Next;
    DeliveriesPersist(o, op, now, d);
  }

  lemma SpentAtOnce(o: Outbox, op: Op, now: Time, d: DeliveryId)
    requires Inv(o) && Enabled(o, op, now) && op.OpComplete? && op.lease.deliveryId == d && Complete(o, op.lease, op.result, now).Success?
    ensures Spent(Next(o, op, now), d, op.lease.attempt)
  {}

  lemma {:induction false} SpentAfter(os: seq<Outbox>, calls: seq<Call>, i: nat, k: nat, d: DeliveryId, attempt: nat)
    requires Trace(os, calls) && IdsFresh(os) && i < k < |os| && Accepted(os, calls, i, d, attempt) && d in os[k].deliveries
    ensures Spent(os[k], d, attempt)
    decreases k
  {
    hide Inv, Enabled, Next, Trace, IdsFresh;
    StepOf(os, calls, k - 1);
    var call := calls[k - 1];
    if k == i + 1 {
      SpentAtOnce(os[i], call.op, call.now, d);
    } else {
      assert d in os[i].deliveries;
      StillThere(os, i, k, d);
      SpentAfter(os, calls, i, k - 1, d, attempt);
      SpentStays(os[k - 1], call.op, call.now, d, attempt);
    }
  }

  /** However many dispatchers report, each attempt of a delivery has at most one accepted result. */
  lemma OneResultPerAttempt(os: seq<Outbox>, calls: seq<Call>, i: nat, k: nat, d: DeliveryId, attempt: nat)
    requires Trace(os, calls) && IdsFresh(os) && i < |calls| && k < |calls|
    requires Accepted(os, calls, i, d, attempt) && Accepted(os, calls, k, d, attempt)
    ensures i == k
  {
    hide IdsFresh, Next, Enabled, Inv;
    if i < k { SpentAfter(os, calls, i, k, d, attempt); }
    if k < i { SpentAfter(os, calls, k, i, d, attempt); }
  }
}
