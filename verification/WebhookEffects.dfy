/**
 * What a caller observes of the outbox: each operation on the records before
 * and after it, field by field, and how long a lease is exclusive.
 */
module WebhookEffects {
  import opened Wrappers
  import opened Text
  import opened Sorting
  import opened WebhookModel
  import opened WebhookInvariant
  import opened WebhookTraces

  /** The stored subscription a delivery is for. */
  predicate IsFor(o: Outbox, d: Delivery, s: Subscription) {
    var k := NormalizeWorkspace(d.workspace) + "/" + d.subscriptionId;
    k in o.subscriptions && o.subscriptions[k] == s
  }

  predicate Live(s: Subscription) {
    s.enabled && s.deletedAt == None
  }

  /** A delivery whose time has come: it waits and is due, or its lease has run out. */
  predicate Due(d: Delivery, now: Time) {
    match d.state
    case DeliveryPending => d.nextAttemptAt <= now
    case DeliveryRetrying => d.nextAttemptAt <= now
    case DeliveryDelivering => d.leaseExpiresAt.Some? && d.leaseExpiresAt.value <= now
    case _ => false
  }

  ghost predicate MayTake(o: Outbox, now: Time, id: DeliveryId) {
    id in o.deliveries && Due(o.deliveries[id], now) && exists s :: IsFor(o, o.deliveries[id], s) && Live(s)
  }

  lemma MayTakeMeansClaimable(o: Outbox, now: Time, id: DeliveryId)
    ensures MayTake(o, now, id) <==> Claimable(o, id, now)
  {
    hide NormalizeWorkspace;
    if Claimable(o, id, now) { assert IsFor(o, o.deliveries[id], o.subscriptions[KeyOf(o.deliveries[id])]); }
  }

  /**
   * A claim takes the earliest due of the deliveries that may be taken, the
   * older first, and leases it from now on; it takes none exactly when there is
   * none, or when no worker is named, and then nothing changes.
   */
  lemma ClaimExactly(o: Outbox, op: Op, now: Time)
    requires Inv(o) && op.OpClaim? && Enabled(o, op, now)
    ensures op.pick.None? <==> forall id :: !MayTake(o, now, id)
    ensures op.pick.None? || Trim(op.worker) == "" ==> Next(o, op, now) == o
    ensures var step := Claim(o, op.worker, op.ttl, op.pick, now);
      && (Trim(op.worker) == "" ==> step == Failure(InvalidLease))
      && (Trim(op.worker) != "" ==> if op.pick.None? then step == Failure(NoPendingDelivery) else step.Success?)
    ensures op.pick.Some? ==> MayTake(o, now, op.pick.value)
    ensures op.pick.Some? ==> forall id | MayTake(o, now, id) ::
      var a, b := o.deliveries[op.pick.value], o.deliveries[id];
      a.nextAttemptAt < b.nextAttemptAt || (a.nextAttemptAt == b.nextAttemptAt && a.createdAt <= b.createdAt)
    ensures op.pick.Some? && Trim(op.worker) != "" ==>
      var id, d := op.pick.value, o.deliveries[op.pick.value];
      Next(o, op, now) == o.(deliveries := o.deliveries[id := d.(
        state := DeliveryDelivering, attempt := d.attempt + 1, leaseOwner := Some(Trim(op.worker)),
        leaseExpiresAt := Some(now + if op.ttl <= 0 then 30_000_000_000 else op.ttl), updatedAt := now)])
  {
    hide Claimable, MayTake, Trim, Key, NormalizeWorkspace;
    forall id ensures MayTake(o, now, id) <==> Claimable(o, id, now) { MayTakeMeansClaimable(o, now, id); }
    forall id | MayTake(o, now, id) ensures id in o.deliveries { assert id in o.deliveries by { CanTake(o, now, id); } }
    if op.pick.Some? {
      CanTake(o, now, op.pick.value);
      assert DeliveryOk(o, op.pick.value);
    }
  }

  lemma CanTake(o: Outbox, now: Time, id: DeliveryId)
    requires MayTake(o, now, id)
    ensures id in o.deliveries
  {}

  /** A lease is presented as it was handed out. */
  predicate Presents(o: Outbox, lease: Lease) {
    && lease.deliveryId in o.deliveries
    && var d := o.deliveries[lease.deliveryId];
       d.state == DeliveryDelivering && d.leaseOwner == Some(lease.workerId) && d.attempt == lease.attempt && d.leaseExpiresAt == Some(lease.expiresAt)
  }

  predicate WellTimed(r: DeliveryResult) {
    || (r.state == DeliveryRetrying && r.nextAttemptAt != 0)
    || ((r.state == DeliverySucceeded || r.state == DeliveryFailed || r.state == DeliveryCanceled) && r.completedAt != 0)
  }

  /** A result is accepted exactly under the lease that is held and with its time; a retry for a deleted subscription is a cancellation now. */
  lemma CompleteExactly(o: Outbox, lease: Lease, r: DeliveryResult, now: Time, s: Subscription)
    requires Inv(o) && (lease.deliveryId in o.deliveries ==> IsFor(o, o.deliveries[lease.deliveryId], s))
    ensures var op := OpComplete(lease, r); var step, o' := Complete(o, lease, r, now), Next(o, op, now);
      && (step.Success? <==> WellTimed(r) && Presents(o, lease))
      && (!WellTimed(r) ==> step == Failure(Invalid))
      && (WellTimed(r) && lease.deliveryId !in o.deliveries ==> step == Failure(NotFound))
      && (WellTimed(r) && lease.deliveryId in o.deliveries && !Presents(o, lease) ==> step == Failure(InvalidLease))
      && (step.Failure? ==> o' == o)
      && (step.Success? ==>
            var d := o.deliveries[lease.deliveryId].(nextAttemptAt := r.nextAttemptAt, report := r.report, leaseOwner := None, leaseExpiresAt := None, updatedAt := now);
            o' == o.(deliveries := o.deliveries[lease.deliveryId :=
              if r.state == DeliveryRetrying && s.deletedAt.Some? then d.(state := DeliveryCanceled, completedAt := Some(now))
              else if r.state == DeliveryRetrying then d.(state := DeliveryRetrying, completedAt := None)
              else d.(state := r.state, completedAt := Some(r.completedAt))]))
  {
    hide NormalizeWorkspace;
    if lease.deliveryId in o.deliveries { assert DeliveryOk(o, lease.deliveryId); }
  }

  /** Only a failed delivery of the workspace, for a live subscription, is queued again. */
  lemma RetryExactly(o: Outbox, workspace: string, id: DeliveryId, now: Time)
    requires Inv(o)
    ensures var step, o' := Retry(o, workspace, id, now), Next(o, OpRetry(workspace, id), now);
      && (step.Success? <==> id in o.deliveries && NormalizeWorkspace(o.deliveries[id].workspace) == NormalizeWorkspace(workspace)
                             && o.deliveries[id].state == DeliveryFailed && exists s :: IsFor(o, o.deliveries[id], s) && Live(s))
      && (step.Failure? ==> o' == o && (step.error == NotFound <==>
            id !in o.deliveries || NormalizeWorkspace(o.deliveries[id].workspace) != NormalizeWorkspace(workspace)))
      && (step.Success? ==> o' == o.(deliveries := o.deliveries[id := o.deliveries[id].(
            state := DeliveryRetrying, nextAttemptAt := now, leaseOwner := None, leaseExpiresAt := None, completedAt := None, updatedAt := now)]))
  {
    hide NormalizeWorkspace;
    if id in o.deliveries {
      assert DeliveryOk(o, id);
      assert IsFor(o, o.deliveries[id], o.subscriptions[KeyOf(o.deliveries[id])]);
    }
  }

  // A pending delivery of an event, due at once.
  predicate IsNewDelivery(d: Delivery, id: DeliveryId, event: EventId, workspace: string, subscriptionId: string, now: Time) {
    && d.id == id && d.workspace == NormalizeWorkspace(workspace) && d.eventId == event && d.subscriptionId == subscriptionId
    && d.state == DeliveryPending && d.attempt == 0 && d.nextAttemptAt == now && d.leaseOwner == None && d.leaseExpiresAt == None
    && d.createdAt == now && d.updatedAt == now && d.completedAt == None
  }

  /** A test delivery is queued exactly for a live subscription. */
  lemma TestExactly(o: Outbox, op: Op, now: Time)
    requires op.OpTest? && Enabled(o, op, now)
    ensures var k := NormalizeWorkspace(op.workspace) + "/" + op.id;
      var step, o' := CreateTest(o, op.workspace, op.id, op.eventId, op.deliveryId, now), Next(o, op, now);
      && (step.Success? <==> k in o.subscriptions && Live(o.subscriptions[k]))
      && (step.Failure? ==> o' == o && (step.error == Conflict <==> k in o.subscriptions && o.subscriptions[k].deletedAt == None))
      && (step.Success? ==>
            && op.deliveryId in o'.deliveries && o'.deliveries == o.deliveries[op.deliveryId := o'.deliveries[op.deliveryId]]
            && IsNewDelivery(o'.deliveries[op.deliveryId], op.deliveryId, op.eventId, op.workspace, op.id, now)
            && o'.events == o.events[op.eventId := Envelope(op.eventId, "webhook.test", "")] && o'.subscriptions == o.subscriptions)
  {
    hide NormalizeWorkspace;
  }

  // The subscriptions a release event goes to.
  predicate Receives(s: Subscription, workspace: string, kind: string, app: string) {
    Live(s) && NormalizeWorkspace(s.workspace) == NormalizeWorkspace(workspace) && kind in s.eventTypes && (s.appKeys == {} || app in s.appKeys)
  }

  /** A release event adds one new delivery for each subscription that receives it and no other, and alters no record. */
  lemma EmitExactly(o: Outbox, op: Op, now: Time)
    requires Inv(o) && op.OpEmit? && Enabled(o, op, now)
    ensures var o' := Next(o, op, now);
      && o'.events == o.events[op.event.id := op.event] && o'.subscriptions == o.subscriptions
      && |op.ids| == |set k | k in o.subscriptions && Receives(o.subscriptions[k], op.workspace, op.event.kind, op.event.app)|
      && Distinct(op.keys)
      && (forall k :: k in op.keys <==> k in o.subscriptions && Receives(o.subscriptions[k], op.workspace, op.event.kind, op.event.app))
      && (forall d :: d in o'.deliveries <==> d in o.deliveries || d in op.ids)
      && (forall d | d in o.deliveries :: o'.deliveries[d] == o.deliveries[d])
      && (forall i | 0 <= i < |op.ids| ::
            IsNewDelivery(o'.deliveries[op.ids[i]], op.ids[i], op.event.id, op.workspace, o.subscriptions[op.keys[i]].id, now))
  {
    EmitEnqueues(o, op.event, op.workspace, op.keys, op.ids, now);
    var receiving := set k | k in o.subscriptions && Receives(o.subscriptions[k], op.workspace, op.event.kind, op.event.app);
    assert receiving == Matching(o, op.workspace, op.event.kind, op.event.app);
    EnumerationLength(op.keys, receiving);
    hide Next, Inv, Enqueue, Emit, NormalizeWorkspace, Receives, Matches;
    EnqueueAdds(o.(events := o.events[op.event.id := op.event]), op.event.id, op.workspace, op.keys, op.ids, now);
  }

  // How long a lease is exclusive.

  /** While a lease runs, nothing but a result under it touches the delivery. */
  lemma LeaseStep(o: Outbox, op: Op, now: Time, d: DeliveryId)
    requires Inv(o) && Enabled(o, op, now) && d in o.deliveries && o.deliveries[d].state == DeliveryDelivering
    requires o.deliveries[d].leaseExpiresAt.Some? && now < o.deliveries[d].leaseExpiresAt.value
    requires !(op.OpComplete? && op.lease.deliveryId == d && Complete(o, op.lease, op.result, now).Success?)
    ensures d in Next(o, op, now).deliveries && Next(o, op, now).deliveries[d] == o.deliveries[d]
  {
    hide Key, NormalizeWorkspace, Trim, NameTaken, Matches, PrepareNew, PrepareUpdate;
    assert DeliveryOk(o, d);
    match op
    case OpClaim(_, _, pick) => LeaseIsNotClaimed(o, op, now, d);
    case OpComplete(lease, _) => if lease.deliveryId in o.deliveries { assert DeliveryOk(o, lease.deliveryId); }
    case OpRetry(_, id) => if id in o.deliveries { assert DeliveryOk(o, id); }
    case OpEmit(event, workspace, keys, ids) => EmitLeaves(o, op, now, d);
    case OpPrune(p, drop) => assert !IsExpired(o.deliveries[d], p);
    case _ =>
  }

  lemma LeaseIsNotClaimed(o: Outbox, op: Op, now: Time, d: DeliveryId)
    requires Inv(o) && op.OpClaim? && Enabled(o, op, now) && d in o.deliveries && o.deliveries[d].state == DeliveryDelivering
    requires o.deliveries[d].leaseExpiresAt.Some? && now < o.deliveries[d].leaseExpiresAt.value
    ensures d in Next(o, op, now).deliveries && Next(o, op, now).deliveries[d] == o.deliveries[d]
  {
    hide Inv, Enabled, Next, Trim, NormalizeWorkspace;
    ClaimExactly(o, op, now);
  }

  lemma EmitLeaves(o: Outbox, op: Op, now: Time, d: DeliveryId)
    requires Inv(o) && op.OpEmit? && Enabled(o, op, now) && d in o.deliveries
    ensures d in Next(o, op, now).deliveries && Next(o, op, now).deliveries[d] == o.deliveries[d]
  {
    hide Inv, Enabled, Next;
    EmitExactly(o, op, now);
  }

  /**
   * A lease is exclusive until it runs out: as long as every call so far came
   * before its expiry and none was its own accepted result, the delivery is
   * still under it, so its result would be accepted.
   */
  lemma {:induction false} LeaseIsExclusive(os: seq<Outbox>, calls: seq<Call>, i: nat, k: nat, d: DeliveryId, e: Time)
    requires Trace(os, calls) && i <= k < |os| && d in os[i].deliveries
    requires os[i].deliveries[d].state == DeliveryDelivering && os[i].deliveries[d].leaseExpiresAt == Some(e)
    requires forall m {:trigger calls[m]} | i <= m < k :: calls[m].now < e && !Accepted(os, calls, m, d, os[i].deliveries[d].attempt)
    ensures d in os[k].deliveries && os[k].deliveries[d] == os[i].deliveries[d]
    decreases k
  {
    if i < k {
      LeaseIsExclusive(os, calls, i, k - 1, d, e);
      StepOf(os, calls, k - 1);
      var call := calls[k - 1];
      assert call.now < e && !Accepted(os, calls, k - 1, d, os[i].deliveries[d].attempt);
      if call.op.OpComplete? && call.op.lease.deliveryId == d { AcceptedAttempt(os[k - 1], call.op.lease, call.op.result, call.now); }
      hide Inv, Enabled, Next, Trace;
      LeaseStep(os[k - 1], call.op, call.now, d);
    }
  }

  lemma AcceptedAttempt(o: Outbox, lease: Lease, r: DeliveryResult, now: Time)
    ensures Complete(o, lease, r, now).Success? ==> lease.deliveryId in o.deliveries && o.deliveries[lease.deliveryId].attempt == lease.attempt
  {}

  // Subscriptions.

  predicate GoodDraft(d: Draft) {
    && Trim(d.name) != "" && d.reachable && (exists t :: t in d.eventTypes && Trim(t) != "")
    && (forall t | t in d.eventTypes && Trim(t) != "" :: Trim(t) == "windforce.release.published" || Trim(t) == "windforce.release.rolled_back")
  }

  // Another live subscription of the workspace has the name.
  predicate NameInUse(o: Outbox, workspace: string, name: string, k: SubKey) {
    exists j :: j in o.subscriptions && j != k && o.subscriptions[j].deletedAt == None
                && NormalizeWorkspace(o.subscriptions[j].workspace) == workspace && o.subscriptions[j].name == name
  }

  // The record says what the draft asks for.
  ghost predicate Follows(s: Subscription, d: Draft, now: Time) {
    && s.name == Trim(d.name) && s.enabled == d.enabled && s.updatedAt == now && s.deletedAt == None
    && (forall t :: t in s.eventTypes <==> t != "" && exists v :: v in d.eventTypes && Trim(v) == t)
    && (forall a :: a in s.appKeys <==> a != "" && exists v :: v in d.appKeys && Trim(v) == a)
  }

  lemma DraftFields(d: Draft)
    ensures GoodDraft(d) <==> ValidDraft(d)
  {
    hide Trim;
    var kinds := Filters(d.eventTypes);
    if t :| t in d.eventTypes && Trim(t) != "" { assert Trim(t) in kinds; }
    if k :| k in kinds { assert exists t :: t in d.eventTypes && Trim(t) == k && k != ""; }
    forall t | t in d.eventTypes && Trim(t) != "" ensures Trim(t) in kinds {}
  }

  /** A subscription is stored exactly when its identifier has its prefix, the draft is good, and key and live name are free. */
  lemma CreateExactly(o: Outbox, op: Op, now: Time)
    requires op.OpCreate?
    ensures var id, w := if Trim(op.id) == "" then op.drawn else Trim(op.id), NormalizeWorkspace(op.workspace);
      var k := w + "/" + id;
      var step, o' := CreateSubscription(o, op.workspace, op.id, op.drawn, op.draft, op.createdBy, now), Next(o, op, now);
      && (step.Success? <==> "whs_" <= id && GoodDraft(op.draft) && k !in o.subscriptions && !NameInUse(o, w, Trim(op.draft.name), k))
      && (step.Failure? ==> o' == o && (step.error == Invalid <==> !("whs_" <= id && GoodDraft(op.draft))))
      && (step.Success? ==>
            && k in o'.subscriptions && o' == o.(subscriptions := o.subscriptions[k := o'.subscriptions[k]])
            && o'.subscriptions[k].id == id && o'.subscriptions[k].workspace == w && o'.subscriptions[k].createdAt == now
            && o'.subscriptions[k].updatedBy == (if Trim(op.createdBy) == "" then "system" else Trim(op.createdBy))
            && Follows(o'.subscriptions[k], op.draft, now))
  {
    PreparedFields(op, now);
    hide NormalizeWorkspace, Trim, GoodDraft, NameInUse, NameTaken, PrepareNew, Follows;
    var prepared := PrepareNew(op.workspace, op.id, op.drawn, op.draft, op.createdBy, now);
    if prepared.Some? { SameNames(o, prepared.value.workspace, prepared.value.name, Key(prepared.value.workspace, prepared.value.id)); }
  }

  lemma PreparedFields(op: Op, now: Time)
    requires op.OpCreate?
    ensures var id, w := if Trim(op.id) == "" then op.drawn else Trim(op.id), NormalizeWorkspace(op.workspace);
      var prepared := PrepareNew(op.workspace, op.id, op.drawn, op.draft, op.createdBy, now);
      && (prepared.Some? <==> "whs_" <= id && GoodDraft(op.draft))
      && (prepared.Some? ==>
            && prepared.value.id == id && prepared.value.workspace == w == NormalizeWorkspace(w) && prepared.value.createdAt == now
            && prepared.value.name == Trim(op.draft.name)
            && prepared.value.updatedBy == (if Trim(op.createdBy) == "" then "system" else Trim(op.createdBy))
            && Follows(prepared.value, op.draft, now))
  {
    NormalizeTwice(op.workspace);
    DraftFields(op.draft);
    hide NormalizeWorkspace, Trim, ValidDraft, GoodDraft;
  }

  lemma SameNames(o: Outbox, workspace: string, name: string, k: SubKey)
    ensures NameTaken(o, workspace, name, k) == NameInUse(o, workspace, name, k)
  {
    hide NormalizeWorkspace;
  }

  /** A live subscription is changed exactly when the draft is good and no other live one has its name. */
  lemma UpdateExactly(o: Outbox, op: Op, now: Time)
    requires op.OpUpdate?
    ensures var k := NormalizeWorkspace(op.workspace) + "/" + op.id;
      var step, o' := UpdateSubscription(o, op.workspace, op.id, op.draft, op.actor, now), Next(o, op, now);
      var there := k in o.subscriptions && o.subscriptions[k].deletedAt == None;
      && (step.Success? <==> there && GoodDraft(op.draft) && !NameInUse(o, o.subscriptions[k].workspace, Trim(op.draft.name), k))
      && (step.Failure? ==> o' == o && (step.error == NotFound <==> !there) && (step.error == Invalid <==> there && !GoodDraft(op.draft)))
      && (step.Success? ==>
            && k in o'.subscriptions && o' == o.(subscriptions := o.subscriptions[k := o'.subscriptions[k]])
            && o'.subscriptions[k].id == o.subscriptions[k].id && o'.subscriptions[k].workspace == o.subscriptions[k].workspace
            && o'.subscriptions[k].createdAt == o.subscriptions[k].createdAt
            && o'.subscriptions[k].updatedBy == (if Trim(op.actor) != "" then Trim(op.actor)
                                                 else if o.subscriptions[k].updatedBy != "" then o.subscriptions[k].updatedBy else "system")
            && Follows(o'.subscriptions[k], op.draft, now))
  {
    DraftFields(op.draft);
    hide NormalizeWorkspace, Trim, ValidDraft, GoodDraft;
  }

  // Retention.

  /** When a delivery ended, or was last touched if it does not say. */
  function EndedAt(d: Delivery): Time {
    match d.completedAt
    case Some(t) => t
    case None => d.updatedAt
  }

  /** Past the cutoff of its outcome; a cutoff of zero is none. */
  predicate PastCutoff(d: Delivery, p: Policy) {
    || (d.state == DeliverySucceeded && p.succeededBefore != 0 && EndedAt(d) < p.succeededBefore)
    || (d.state == DeliveryCanceled && p.canceledBefore != 0 && EndedAt(d) < p.canceledBefore)
    || (d.state == DeliveryFailed && p.failedBefore != 0 && EndedAt(d) < p.failedBefore)
  }

  /** How many a batch takes of n records when there is room for some. */
  function AtMost(n: nat, room: int): int {
    if n < room then n else room
  }

  // The delivery ended longer ago, or at the same time and has the lesser identifier.
  predicate EndedFirst(a: Delivery, b: Delivery) {
    EndedAt(a) < EndedAt(b) || (EndedAt(a) == EndedAt(b) && Less(a.id, b.id))
  }

  /** The events none of the deliveries kept refers to. */
  function Loose(o: Outbox, kept: set<DeliveryId>): set<EventId>
    requires kept <= o.deliveries.Keys
  {
    set e | e in o.events && forall d | d in kept :: o.deliveries[d].eventId != e
  }

  /** The subscriptions deleted before their cutoff that none of the deliveries kept is for. */
  function Abandoned(o: Outbox, p: Policy, kept: set<DeliveryId>): set<SubKey>
    requires kept <= o.deliveries.Keys
  {
    set k | k in o.subscriptions && p.subscriptionBefore != 0 && o.subscriptions[k].deletedAt.Some?
            && o.subscriptions[k].deletedAt.value < p.subscriptionBefore
            && forall d | d in kept :: NormalizeWorkspace(o.deliveries[d].workspace) + "/" + o.deliveries[d].subscriptionId != k
  }

  /**
   * A batch takes deliveries past their cutoff, the longest ended first, then
   * events no remaining delivery refers to, then subscriptions deleted before
   * their cutoff that no remaining delivery is for, and stops when it is full.
   */
  lemma BatchExactly(o: Outbox, p: Policy, drop: Drop)
    requires IsBatch(o, p, drop)
    ensures var size := if p.batchSize <= 0 then 1000 else p.batchSize;
      var past := set d | d in o.deliveries && PastCutoff(o.deliveries[d], p);
      && drop.deliveries <= past && |drop.deliveries| == AtMost(|past|, size)
      && (forall a, b | a in drop.deliveries && b in past && b !in drop.deliveries :: EndedFirst(o.deliveries[a], o.deliveries[b]))
    ensures var room := (if p.batchSize <= 0 then 1000 else p.batchSize) - |drop.deliveries|;
      var loose := Loose(o, o.deliveries.Keys - drop.deliveries);
      && drop.events <= loose && |drop.events| == AtMost(|loose|, room)
      && (forall a, b | a in drop.events && b in loose && b !in drop.events :: Less(a, b))
    ensures var room := (if p.batchSize <= 0 then 1000 else p.batchSize) - |drop.deliveries| - |drop.events|;
      var gone := Abandoned(o, p, o.deliveries.Keys - drop.deliveries);
      && drop.subscriptions <= gone && |drop.subscriptions| == AtMost(|gone|, room)
      && (forall a, b | a in drop.subscriptions && b in gone && b !in drop.subscriptions :: Less(a, b))
  {
    hide NormalizeWorkspace, Less;
    forall d ensures d in ExpiredIds(o, p) <==> d in o.deliveries && PastCutoff(o.deliveries[d], p) {}
    assert (set d | d in o.deliveries && PastCutoff(o.deliveries[d], p)) == ExpiredIds(o, p);
    forall a: Delivery, b: Delivery ensures OlderThan(a, b) <==> EndedFirst(a, b) {}
    LeftOver(o, p, drop.deliveries);
    hide OrphanEvents, OrphanSubscriptions, ExpiredIds, DropDeliveries, Loose, Abandoned, PastCutoff, OlderThan, EndedFirst;
  }

  lemma LeftOver(o: Outbox, p: Policy, gone: set<DeliveryId>)
    ensures OrphanEvents(DropDeliveries(o, gone)) == Loose(o, o.deliveries.Keys - gone)
    ensures OrphanSubscriptions(DropDeliveries(o, gone), p) == Abandoned(o, p, o.deliveries.Keys - gone)
  {
    hide NormalizeWorkspace;
    var rest, kept := DropDeliveries(o, gone), o.deliveries.Keys - gone;
    assert rest.deliveries.Keys == kept && forall d | d in kept :: rest.deliveries[d] == o.deliveries[d];
  }
}
