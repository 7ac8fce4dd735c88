/** The webhook outbox: subscriptions, deliveries and the events they carry (internal/state/webhook.go, local_webhook.go). */
module WebhookModel {
  import opened Wrappers
  import opened Text

  type Time = int
  type DeliveryId = string
  type EventId = string
  type SubKey = string

  datatype DeliveryState =
    | DeliveryPending | DeliveryDelivering | DeliveryRetrying
    | DeliverySucceeded | DeliveryFailed | DeliveryCanceled

  datatype Report = Report(responseStatus: Option<int>, latencyMillis: Option<int>, errorSummary: Option<string>)

  datatype Delivery = Delivery(
    id: DeliveryId, workspace: string, eventId: EventId, subscriptionId: string, state: DeliveryState, attempt: nat,
    nextAttemptAt: Time, leaseOwner: Option<string>, leaseExpiresAt: Option<Time>, report: Report,
    createdAt: Time, updatedAt: Time, completedAt: Option<Time>)

  datatype Subscription = Subscription(
    id: string, workspace: string, name: string, eventTypes: set<string>, appKeys: set<string>,
    enabled: bool, updatedBy: string, createdAt: Time, updatedAt: Time, deletedAt: Option<Time>)

  datatype Envelope = Envelope(id: EventId, kind: string, app: string)

  datatype Outbox = Outbox(
    deliveries: map<DeliveryId, Delivery>, events: map<EventId, Envelope>, subscriptions: map<SubKey, Subscription>)

  datatype Lease = Lease(deliveryId: DeliveryId, workerId: string, attempt: nat, expiresAt: Time)

  datatype DeliveryResult = DeliveryResult(state: DeliveryState, nextAttemptAt: Time, report: Report, completedAt: Time)

  datatype WebhookError = NotFound | Conflict | Invalid | InvalidLease | NoPendingDelivery

  type Step = Result<Outbox, WebhookError>

  const EMPTY := Outbox(map[], map[], map[])
  const NO_REPORT := Report(None, None, None)

  function Key(workspace: string, subscriptionId: string): SubKey {
    NormalizeWorkspace(workspace) + "/" + subscriptionId
  }

  function KeyOf(d: Delivery): SubKey {
    Key(d.workspace, d.subscriptionId)
  }

  predicate IsActive(state: DeliveryState) {
    state.DeliveryPending? || state.DeliveryRetrying? || state.DeliveryDelivering?
  }

  predicate IsWaiting(state: DeliveryState) {
    state.DeliveryPending? || state.DeliveryRetrying?
  }

  predicate Matches(s: Subscription, kind: string, app: string) {
    s.enabled && s.deletedAt.None? && kind in s.eventTypes && (s.appKeys == {} || app in s.appKeys)
  }

  function Matching(o: Outbox, workspace: string, kind: string, app: string): set<SubKey> {
    set k | k in o.subscriptions && NormalizeWorkspace(o.subscriptions[k].workspace) == NormalizeWorkspace(workspace)
            && Matches(o.subscriptions[k], kind, app)
  }

  function NewDelivery(id: DeliveryId, event: EventId, workspace: string, subscriptionId: string, now: Time): Delivery {
    Delivery(id, NormalizeWorkspace(workspace), event, subscriptionId, DeliveryPending, 0, now, None, None, NO_REPORT, now, now, None)
  }

  predicate Eligible(d: Delivery, s: Subscription, now: Time) {
    && s.enabled && s.deletedAt.None?
    && (if d.state.DeliveryDelivering? then d.leaseExpiresAt.Some? && d.leaseExpiresAt.value <= now
        else IsWaiting(d.state) && d.nextAttemptAt <= now)
  }

  /** Claim order: earliest due, then earliest created. */
  predicate DueBefore(a: Delivery, b: Delivery) {
    a.nextAttemptAt < b.nextAttemptAt || (a.nextAttemptAt == b.nextAttemptAt && a.createdAt < b.createdAt)
  }

  predicate Claimable(o: Outbox, d: DeliveryId, now: Time) {
    d in o.deliveries && KeyOf(o.deliveries[d]) in o.subscriptions && Eligible(o.deliveries[d], o.subscriptions[KeyOf(o.deliveries[d])], now)
  }

  ghost predicate IsPick(o: Outbox, now: Time, pick: Option<DeliveryId>) {
    match pick
    case None => forall d :: !Claimable(o, d, now)
    case Some(id) => Claimable(o, id, now) && forall d :: Claimable(o, d, now) ==> !DueBefore(o.deliveries[d], o.deliveries[id])
  }

  // The operations.

  predicate NameTaken(o: Outbox, workspace: string, name: string, except: SubKey) {
    exists k :: k in o.subscriptions && k != except && o.subscriptions[k].deletedAt.None?
                && NormalizeWorkspace(o.subscriptions[k].workspace) == workspace && o.subscriptions[k].name == name
  }

  const RELEASE_PUBLISHED := "windforce.release.published"
  const RELEASE_ROLLED_BACK := "windforce.release.rolled_back"

  // What a caller asks of a subscription; whether its endpoint and signing secret pass their checks is given.
  datatype Draft = Draft(name: string, eventTypes: set<string>, appKeys: set<string>, enabled: bool, reachable: bool)

  /** uniqueSorted, as a set. */
  function Filters(values: set<string>): set<string> {
    set v | v in values && Trim(v) != "" :: Trim(v)
  }

  /** NormalizeFilters and ValidateSubscription. */
  predicate ValidDraft(d: Draft) {
    && Trim(d.name) != "" && d.reachable && Filters(d.eventTypes) != {}
    && Filters(d.eventTypes) <= {RELEASE_PUBLISHED, RELEASE_ROLLED_BACK}
  }

  /** prepareNewSubscription, with the identifier it would draw. */
  function PrepareNew(workspace: string, id: string, drawn: string, draft: Draft, createdBy: string, now: Time): Option<Subscription> {
    var id' := if Trim(id) == "" then drawn else Trim(id);
    var actor := if Trim(createdBy) == "" then "system" else Trim(createdBy);
    if !("whs_" <= id') || !ValidDraft(draft) then None
    else Some(Subscription(id', NormalizeWorkspace(workspace), Trim(draft.name), Filters(draft.eventTypes), Filters(draft.appKeys),
                           draft.enabled, actor, now, now, None))
  }

  /** prepareUpdatedSubscription. */
  function PrepareUpdate(existing: Subscription, draft: Draft, actor: string, now: Time): Option<Subscription> {
    if !ValidDraft(draft) then None
    else Some(existing.(name := Trim(draft.name), eventTypes := Filters(draft.eventTypes), appKeys := Filters(draft.appKeys), enabled := draft.enabled,
                        updatedBy := if Trim(actor) != "" then Trim(actor) else if existing.updatedBy != "" then existing.updatedBy else "system",
                        updatedAt := now))
  }

  function CreateSubscription(o: Outbox, workspace: string, id: string, drawn: string, draft: Draft, createdBy: string, now: Time): Step {
    var prepared := PrepareNew(workspace, id, drawn, draft, createdBy, now);
    if prepared.None? then Failure(Invalid)
    else
      var s := prepared.value;
      var k := Key(s.workspace, s.id);
      if k in o.subscriptions || NameTaken(o, s.workspace, s.name, k) then Failure(Conflict)
      else Success(o.(subscriptions := o.subscriptions[k := s]))
  }

  function UpdateSubscription(o: Outbox, workspace: string, id: string, draft: Draft, actor: string, now: Time): Step {
    var k := Key(workspace, id);
    if k !in o.subscriptions || o.subscriptions[k].deletedAt.Some? then Failure(NotFound)
    else
      var prepared := PrepareUpdate(o.subscriptions[k], draft, actor, now);
      if prepared.None? then Failure(Invalid)
      else if NameTaken(o, prepared.value.workspace, prepared.value.name, k) then Failure(Conflict)
      else Success(o.(subscriptions := o.subscriptions[k := prepared.value]))
  }

  function Canceled(d: Delivery, now: Time): Delivery {
    d.(state := DeliveryCanceled, updatedAt := now, completedAt := Some(now))
  }

  function AfterDelete(d: Delivery, workspace: string, id: string, now: Time): Delivery {
    if NormalizeWorkspace(d.workspace) == NormalizeWorkspace(workspace) && d.subscriptionId == id && IsWaiting(d.state) then Canceled(d, now) else d
  }

  function DeleteSubscription(o: Outbox, workspace: string, id: string, actor: string, now: Time): Step {
    var k := Key(workspace, id);
    if k !in o.subscriptions || o.subscriptions[k].deletedAt.Some? then Failure(NotFound)
    else
      var who := if Trim(actor) != "" then Trim(actor) else "system";
      Success(o.(
        subscriptions := o.subscriptions[k := o.subscriptions[k].(enabled := false, updatedBy := who, updatedAt := now, deletedAt := Some(now))],
        deliveries := map d | d in o.deliveries :: AfterDelete(o.deliveries[d], workspace, id, now)))
  }

  function CreateTest(o: Outbox, workspace: string, id: string, eventId: EventId, deliveryId: DeliveryId, now: Time): Step {
    var k := Key(workspace, id);
    if k !in o.subscriptions || o.subscriptions[k].deletedAt.Some? then Failure(NotFound)
    else if !o.subscriptions[k].enabled then Failure(Conflict)
    else Success(o.(
      events := o.events[eventId := Envelope(eventId, "webhook.test", "")],
      deliveries := o.deliveries[deliveryId := NewDelivery(deliveryId, eventId, workspace, id, now)]))
  }

  /** The fan-out loop of a release event: a new delivery for the subscription at each position, in turn. */
  function Enqueue(o: Outbox, eventId: EventId, workspace: string, keys: seq<SubKey>, ids: seq<DeliveryId>, now: Time): (o': Outbox)
    requires |ids| == |keys| && forall i | 0 <= i < |keys| :: keys[i] in o.subscriptions
    ensures o'.subscriptions == o.subscriptions && o'.events == o.events
  {
    if keys == [] then o
    else
      var last := |keys| - 1;
      var o' := Enqueue(o, eventId, workspace, keys[..last], ids[..last], now);
      o'.(deliveries := o'.deliveries[ids[last] := NewDelivery(ids[last], eventId, workspace, o.subscriptions[keys[last]].id, now)])
  }

  function Emit(o: Outbox, event: Envelope, workspace: string, keys: seq<SubKey>, ids: seq<DeliveryId>, now: Time): Outbox
    requires |ids| == |keys| && forall i | 0 <= i < |keys| :: keys[i] in o.subscriptions
  {
    Enqueue(o.(events := o.events[event.id := event]), event.id, workspace, keys, ids, now)
  }

  function Claim(o: Outbox, worker: string, ttl: int, pick: Option<DeliveryId>, now: Time): Step {
    if Trim(worker) == "" then Failure(InvalidLease)
    else if pick.None? || pick.value !in o.deliveries then Failure(NoPendingDelivery)
    else
      var d := o.deliveries[pick.value];
      if d.eventId !in o.events then Failure(NotFound)
      else
        var expiresAt := now + if ttl <= 0 then 30_000_000_000 else ttl;
        Success(o.(deliveries := o.deliveries[d.id := d.(
          state := DeliveryDelivering, attempt := d.attempt + 1, leaseOwner := Some(Trim(worker)), leaseExpiresAt := Some(expiresAt), updatedAt := now)]))
  }

  predicate ValidResult(r: DeliveryResult) {
    match r.state
    case DeliverySucceeded => r.completedAt != 0
    case DeliveryFailed => r.completedAt != 0
    case DeliveryCanceled => r.completedAt != 0
    case DeliveryRetrying => r.nextAttemptAt != 0
    case _ => false
  }

  predicate Holds(d: Delivery, lease: Lease) {
    d.state.DeliveryDelivering? && d.leaseOwner == Some(lease.workerId) && d.attempt == lease.attempt && d.leaseExpiresAt == Some(lease.expiresAt)
  }

  function Complete(o: Outbox, lease: Lease, r: DeliveryResult, now: Time): Step {
    if !ValidResult(r) then Failure(Invalid)
    else if lease.deliveryId !in o.deliveries then Failure(NotFound)
    else
      var d := o.deliveries[lease.deliveryId];
      if !Holds(d, lease) then Failure(InvalidLease)
      else if KeyOf(d) !in o.subscriptions then Failure(NotFound)
      else
        var dead := o.subscriptions[KeyOf(d)].deletedAt.Some? && r.state.DeliveryRetrying?;
        var state := if dead then DeliveryCanceled else r.state;
        var completedAt := if dead then now else r.completedAt;
        Success(o.(deliveries := o.deliveries[d.id := d.(
          state := state, nextAttemptAt := r.nextAttemptAt, report := r.report, leaseOwner := None, leaseExpiresAt := None,
          updatedAt := now, completedAt := if state.DeliveryRetrying? then None else Some(completedAt))]))
  }

  function Retry(o: Outbox, workspace: string, deliveryId: DeliveryId, now: Time): Step {
    if deliveryId !in o.deliveries || NormalizeWorkspace(o.deliveries[deliveryId].workspace) != NormalizeWorkspace(workspace) then Failure(NotFound)
    else
      var d := o.deliveries[deliveryId];
      if !d.state.DeliveryFailed? then Failure(Conflict)
      else if KeyOf(d) !in o.subscriptions || o.subscriptions[KeyOf(d)].deletedAt.Some? || !o.subscriptions[KeyOf(d)].enabled then Failure(Conflict)
      else Success(o.(deliveries := o.deliveries[d.id := d.(
        state := DeliveryRetrying, nextAttemptAt := now, leaseOwner := None, leaseExpiresAt := None, completedAt := None, updatedAt := now)]))
  }

  // Retention.

  datatype Policy = Policy(succeededBefore: Time, canceledBefore: Time, failedBefore: Time, subscriptionBefore: Time, batchSize: int)

  function RetentionTime(d: Delivery): Time {
    if d.completedAt.Some? then d.completedAt.value else d.updatedAt
  }

  predicate IsExpired(d: Delivery, p: Policy) {
    var cutoff := match d.state
      case DeliverySucceeded => p.succeededBefore
      case DeliveryCanceled => p.canceledBefore
      case DeliveryFailed => p.failedBefore
      case _ => 0;
    cutoff != 0 && !IsActive(d.state) && RetentionTime(d) < cutoff
  }

  predicate OlderThan(a: Delivery, b: Delivery) {
    RetentionTime(a) < RetentionTime(b) || (RetentionTime(a) == RetentionTime(b) && Less(a.id, b.id))
  }

  function ExpiredIds(o: Outbox, p: Policy): set<DeliveryId> {
    set d | d in o.deliveries && IsExpired(o.deliveries[d], p)
  }

  function OrphanEvents(o: Outbox): set<EventId> {
    set e | e in o.events && forall d | d in o.deliveries :: o.deliveries[d].eventId != e
  }

  function OrphanSubscriptions(o: Outbox, p: Policy): set<SubKey> {
    set k | k in o.subscriptions && p.subscriptionBefore != 0
            && o.subscriptions[k].deletedAt.Some? && o.subscriptions[k].deletedAt.value < p.subscriptionBefore
            && forall d | d in o.deliveries :: KeyOf(o.deliveries[d]) != k
  }

  function DropDeliveries(o: Outbox, ids: set<DeliveryId>): Outbox {
    o.(deliveries := o.deliveries - ids)
  }

  /** The clean-up done in one go. */
  function OneShot(o: Outbox, p: Policy): Outbox {
    var rest := DropDeliveries(o, ExpiredIds(o, p));
    rest.(events := rest.events - OrphanEvents(rest), subscriptions := rest.subscriptions - OrphanSubscriptions(rest, p))
  }

  // One batch, and what it takes.

  datatype Drop = Drop(deliveries: set<DeliveryId>, events: set<EventId>, subscriptions: set<SubKey>) {
    function Size(): nat {
      |deliveries| + |events| + |subscriptions|
    }
  }

  const NOTHING := Drop({}, {}, {})

  function BatchSize(p: Policy): nat {
    if p.batchSize <= 0 then 1000 else p.batchSize
  }

  function Without(o: Outbox, drop: Drop): Outbox {
    Outbox(o.deliveries - drop.deliveries, o.events - drop.events, o.subscriptions - drop.subscriptions)
  }

  ghost predicate TakesFirst<K(!new)>(taken: set<K>, from: set<K>, limit: nat, before: (K, K) -> bool) {
    && taken <= from && |taken| == (if |from| < limit then |from| else limit)
    && forall a, b | a in taken && b in from && b !in taken :: before(a, b)
  }

  ghost function ByAge(o: Outbox): (DeliveryId, DeliveryId) -> bool {
    (a, b) => a in o.deliveries && b in o.deliveries && OlderThan(o.deliveries[a], o.deliveries[b])
  }

  /** What a call of PruneWebhookData takes: oldest expired deliveries, then unreferenced events, then subscriptions. */
  ghost predicate IsBatch(o: Outbox, p: Policy, drop: Drop) {
    var rest := DropDeliveries(o, drop.deliveries);
    && TakesFirst(drop.deliveries, ExpiredIds(o, p), BatchSize(p), ByAge(o))
    && TakesFirst(drop.events, OrphanEvents(rest), BatchSize(p) - |drop.deliveries|, Less)
    && TakesFirst(drop.subscriptions, OrphanSubscriptions(rest, p), BatchSize(p) - |drop.deliveries| - |drop.events|, Less)
  }
}

/** What every reachable outbox satisfies. */
module WebhookInvariant {
  import opened Wrappers
  import opened Text
  import opened Sorting
  import opened WebhookModel

  predicate Normal(workspace: string) {
    NormalizeWorkspace(workspace) == workspace
  }

  predicate DeliveryOk(o: Outbox, id: DeliveryId)
    requires id in o.deliveries
  {
    var d := o.deliveries[id];
    && d.id == id && Normal(d.workspace) && d.eventId in o.events && KeyOf(d) in o.subscriptions
    && (d.state.DeliveryDelivering? <==> d.leaseOwner.Some?) && (d.state.DeliveryDelivering? <==> d.leaseExpiresAt.Some?)
    && (d.completedAt.Some? <==> !IsActive(d.state))
  }

  predicate SubscriptionOk(o: Outbox, k: SubKey)
    requires k in o.subscriptions
  {
    var s := o.subscriptions[k];
    k == Key(s.workspace, s.id) && Normal(s.workspace) && (s.deletedAt.Some? ==> !s.enabled)
  }

  ghost predicate Inv(o: Outbox) {
    && (forall d | d in o.deliveries :: DeliveryOk(o, d))
    && (forall k | k in o.subscriptions :: SubscriptionOk(o, k))
    && (forall e | e in o.events :: o.events[e].id == e)
  }

  /** The position of the first slash. */
  function FirstSlash(s: string): nat {
    if s == "" || s[0] == '/' then 0 else 1 + FirstSlash(s[1..])
  }

  lemma {:induction false} FirstSlashAfter(a: string, b: string)
    requires '/' !in a
    ensures FirstSlash(a + "/" + b) == |a|
  {
    if a != "" {
      FirstSlashAfter(a[1..], b);
      assert (a + "/" + b)[1..] == a[1..] + "/" + b;
    }
  }

  lemma SplitAtSlash(a: string, b: string, c: string, d: string)
    requires a + "/" + b == c + "/" + d && '/' !in a && '/' !in c
    ensures a == c && b == d
  {
    FirstSlashAfter(a, b);
    FirstSlashAfter(c, d);
    var s := a + "/" + b;
    assert s[..|a|] == a && s[|a| + 1..] == b;
    assert s[..|c|] == c && s[|c| + 1..] == d;
  }

  /** With workspace names free of "/", a subscription key names one workspace and one identifier. */
  lemma KeyNamesOne(w: string, i: string, w': string, i': string)
    requires '/' !in NormalizeWorkspace(w) && '/' !in NormalizeWorkspace(w') && Key(w, i) == Key(w', i')
    ensures NormalizeWorkspace(w) == NormalizeWorkspace(w') && i == i'
  {
    SplitAtSlash(NormalizeWorkspace(w), i, NormalizeWorkspace(w'), i');
  }

  lemma CreateKeeps(o: Outbox, workspace: string, id: string, drawn: string, draft: Draft, createdBy: string, now: Time)
    requires Inv(o) && CreateSubscription(o, workspace, id, drawn, draft, createdBy, now).Success?
    ensures Inv(CreateSubscription(o, workspace, id, drawn, draft, createdBy, now).value)
  {
    NormalizeTwice(workspace);
    hide Key, NormalizeWorkspace, NameTaken, Trim, Filters;
    var o' := CreateSubscription(o, workspace, id, drawn, draft, createdBy, now).value;
    forall d | d in o'.deliveries ensures DeliveryOk(o', d) { assert DeliveryOk(o, d); }
    forall k | k in o'.subscriptions ensures SubscriptionOk(o', k) { if k in o.subscriptions { assert SubscriptionOk(o, k); } }
  }

  lemma UpdateKeeps(o: Outbox, workspace: string, id: string, draft: Draft, actor: string, now: Time)
    requires Inv(o) && UpdateSubscription(o, workspace, id, draft, actor, now).Success?
    ensures Inv(UpdateSubscription(o, workspace, id, draft, actor, now).value)
  {
    hide Key, NormalizeWorkspace, NameTaken, Trim, Filters;
    var o' := UpdateSubscription(o, workspace, id, draft, actor, now).value;
    forall d | d in o'.deliveries ensures DeliveryOk(o', d) { assert DeliveryOk(o, d); }
    forall k | k in o'.subscriptions ensures SubscriptionOk(o', k) { assert SubscriptionOk(o, k); }
  }

  lemma DeleteKeeps(o: Outbox, workspace: string, id: string, actor: string, now: Time)
    requires Inv(o) && DeleteSubscription(o, workspace, id, actor, now).Success?
    ensures Inv(DeleteSubscription(o, workspace, id, actor, now).value)
  {
    hide Key, NormalizeWorkspace, Trim;
    var o' := DeleteSubscription(o, workspace, id, actor, now).value;
    forall d | d in o'.deliveries ensures DeliveryOk(o', d) { assert DeliveryOk(o, d); }
    forall e | e in o'.subscriptions ensures SubscriptionOk(o', e) { assert SubscriptionOk(o, e); }
  }

  lemma PrefixAndRest(a: string, b: string, c: string)
    requires a + b == a + c
    ensures b == c
  {
    assert b == (a + b)[|a|..] == (a + c)[|a|..] == c;
  }

  /** A deletion cancels exactly the waiting deliveries under its key that carry its workspace name. */
  lemma DeletedDelivery(o: Outbox, workspace: string, id: string, actor: string, now: Time, d: DeliveryId)
    requires DeleteSubscription(o, workspace, id, actor, now).Success? && d in o.deliveries
    ensures var o' := DeleteSubscription(o, workspace, id, actor, now).value; var was := o.deliveries[d];
      d in o'.deliveries && o'.deliveries[d] ==
        if KeyOf(was) == Key(workspace, id) && NormalizeWorkspace(was.workspace) == NormalizeWorkspace(workspace) && IsWaiting(was.state)
        then Canceled(was, now) else was
  {
    hide NormalizeWorkspace, Trim;
    var was := o.deliveries[d];
    if KeyOf(was) == Key(workspace, id) && NormalizeWorkspace(was.workspace) == NormalizeWorkspace(workspace) {
      PrefixAndRest(NormalizeWorkspace(workspace) + "/", was.subscriptionId, id);
    }
  }

  lemma PutDeliveryKeeps(o: Outbox, d: Delivery)
    requires Inv(o) && DeliveryOk(o.(deliveries := o.deliveries[d.id := d]), d.id)
    ensures Inv(o.(deliveries := o.deliveries[d.id := d]))
  {}

  lemma TestKeeps(o: Outbox, workspace: string, id: string, eventId: EventId, deliveryId: DeliveryId, now: Time)
    requires Inv(o) && deliveryId !in o.deliveries && CreateTest(o, workspace, id, eventId, deliveryId, now).Success?
    ensures Inv(CreateTest(o, workspace, id, eventId, deliveryId, now).value)
  {
    NormalizeTwice(workspace);
    assert SubscriptionOk(o, Key(workspace, id));
    hide NormalizeWorkspace;
    var o' := CreateTest(o, workspace, id, eventId, deliveryId, now).value;
    forall d | d in o'.deliveries ensures DeliveryOk(o', d) { if d in o.deliveries { assert DeliveryOk(o, d); } }
    forall k | k in o'.subscriptions ensures SubscriptionOk(o', k) { assert SubscriptionOk(o, k); }
  }

  lemma {:induction false} EnqueueKeeps(o: Outbox, eventId: EventId, workspace: string, keys: seq<SubKey>, ids: seq<DeliveryId>, now: Time)
    requires Inv(o) && |ids| == |keys| && eventId in o.events
    requires forall i | 0 <= i < |keys| :: keys[i] in o.subscriptions && keys[i] in LiveKeys(o, workspace)
    ensures Inv(Enqueue(o, eventId, workspace, keys, ids, now))
  {
    if keys != [] {
      var last := |keys| - 1;
      EnqueueKeeps(o, eventId, workspace, keys[..last], ids[..last], now);
      var o' := Enqueue(o, eventId, workspace, keys[..last], ids[..last], now);
      NormalizeTwice(workspace);
      hide NormalizeWorkspace, Enqueue;
      assert keys[last] in LiveKeys(o, workspace);
      assert SubscriptionOk(o, keys[last]);
      PutDeliveryKeeps(o', NewDelivery(ids[last], eventId, workspace, o.subscriptions[keys[last]].id, now));
    }
  }

  function LiveKeys(o: Outbox, workspace: string): set<SubKey> {
    set k | k in o.subscriptions && NormalizeWorkspace(o.subscriptions[k].workspace) == NormalizeWorkspace(workspace) && o.subscriptions[k].deletedAt.None?
  }

  lemma EmitKeeps(o: Outbox, event: Envelope, workspace: string, keys: seq<SubKey>, ids: seq<DeliveryId>, now: Time)
    requires Inv(o) && |ids| == |keys|
    requires forall i | 0 <= i < |keys| :: keys[i] in Matching(o, workspace, event.kind, event.app)
    ensures forall i | 0 <= i < |keys| :: keys[i] in o.subscriptions
    ensures Inv(Emit(o, event, workspace, keys, ids, now))
  {
    hide NormalizeWorkspace, Key, Enqueue;
    var o' := o.(events := o.events[event.id := event]);
    forall d | d in o'.deliveries ensures DeliveryOk(o', d) { assert DeliveryOk(o, d); }
    forall k | k in o'.subscriptions ensures SubscriptionOk(o', k) { assert SubscriptionOk(o, k); }
    forall i | 0 <= i < |keys| ensures keys[i] in o.subscriptions && keys[i] in LiveKeys(o', workspace) {
      assert keys[i] in Matching(o, workspace, event.kind, event.app);
    }
    EnqueueKeeps(o', event.id, workspace, keys, ids, now);
  }

  /** The deliveries the fan-out leaves: what was there, and one more for each position. */
  lemma {:induction false} EnqueueAdds(o: Outbox, eventId: EventId, workspace: string, keys: seq<SubKey>, ids: seq<DeliveryId>, now: Time)
    requires |ids| == |keys| && Distinct(ids) && forall i | 0 <= i < |keys| :: keys[i] in o.subscriptions
    ensures var o' := Enqueue(o, eventId, workspace, keys, ids, now);
      && (forall d :: d in o'.deliveries <==> d in o.deliveries || d in ids)
      && (forall d | d in o.deliveries && d !in ids :: o'.deliveries[d] == o.deliveries[d])
      && (forall i | 0 <= i < |ids| :: o'.deliveries[ids[i]] == NewDelivery(ids[i], eventId, workspace, o.subscriptions[keys[i]].id, now))
  {
    if keys != [] {
      hide NewDelivery;
      var last := |keys| - 1;
      EnqueueAdds(o, eventId, workspace, keys[..last], ids[..last], now);
      assert ids == ids[..last] + [ids[last]];
    }
  }

  lemma ClaimKeeps(o: Outbox, worker: string, ttl: int, pick: Option<DeliveryId>, now: Time)
    requires Inv(o) && IsPick(o, now, pick) && Claim(o, worker, ttl, pick, now).Success?
    ensures Inv(Claim(o, worker, ttl, pick, now).value)
  {
    hide Key, NormalizeWorkspace, Trim;
    var d := o.deliveries[pick.value];
    assert DeliveryOk(o, pick.value);
    PutDeliveryKeeps(o, Claim(o, worker, ttl, pick, now).value.deliveries[d.id]);
  }

  /** A retry asked for after the subscription was deleted is a cancellation. */
  lemma CompleteKeeps(o: Outbox, lease: Lease, r: DeliveryResult, now: Time)
    requires Inv(o) && Complete(o, lease, r, now).Success?
    ensures Inv(Complete(o, lease, r, now).value)
    ensures var d := Complete(o, lease, r, now).value.deliveries[lease.deliveryId];
      && d.state == (if r.state.DeliveryRetrying? && o.subscriptions[KeyOf(d)].deletedAt.Some? then DeliveryCanceled else r.state)
      && d.attempt == lease.attempt && d.report == r.report
  {
    hide Key, NormalizeWorkspace;
    assert DeliveryOk(o, lease.deliveryId);
    PutDeliveryKeeps(o, Complete(o, lease, r, now).value.deliveries[lease.deliveryId]);
  }

  lemma RetryKeeps(o: Outbox, workspace: string, deliveryId: DeliveryId, now: Time)
    requires Inv(o) && Retry(o, workspace, deliveryId, now).Success?
    ensures Inv(Retry(o, workspace, deliveryId, now).value)
  {
    hide Key, NormalizeWorkspace;
    assert DeliveryOk(o, deliveryId);
    PutDeliveryKeeps(o, Retry(o, workspace, deliveryId, now).value.deliveries[deliveryId]);
  }

  /** A batch never takes the event or subscription of a delivery it leaves. */
  lemma BatchKeeps(o: Outbox, p: Policy, drop: Drop)
    requires Inv(o) && IsBatch(o, p, drop)
    ensures Inv(Without(o, drop))
  {
    hide Key, NormalizeWorkspace, IsExpired, Less;
    var o' := Without(o, drop);
    var rest := DropDeliveries(o, drop.deliveries);
    forall d | d in o'.deliveries ensures DeliveryOk(o', d) {
      assert DeliveryOk(o, d);
      assert d in rest.deliveries && o.deliveries[d].eventId !in OrphanEvents(rest) && KeyOf(o.deliveries[d]) !in OrphanSubscriptions(rest, p);
    }
    forall k | k in o'.subscriptions ensures SubscriptionOk(o', k) { assert SubscriptionOk(o, k); }
  }

  // Whole runs.

  datatype Op =
    | OpCreate(workspace: string, id: string, drawn: string, draft: Draft, createdBy: string)
    | OpUpdate(workspace: string, id: string, draft: Draft, actor: string)
    | OpDelete(workspace: string, id: string, actor: string)
    | OpTest(workspace: string, id: string, eventId: EventId, deliveryId: DeliveryId)
    | OpEmit(event: Envelope, workspace: string, keys: seq<SubKey>, ids: seq<DeliveryId>)
    | OpClaim(worker: string, ttl: int, pick: Option<DeliveryId>)
    | OpComplete(lease: Lease, result: DeliveryResult)
    | OpRetry(workspace: string, deliveryId: DeliveryId)
    | OpPrune(policy: Policy, drop: Drop)

  ghost predicate Enabled(o: Outbox, op: Op, now: Time) {
    match op
    case OpTest(_, _, eventId, deliveryId) => deliveryId !in o.deliveries && eventId !in o.events
    case OpEmit(event, workspace, keys, ids) =>
      && event.id !in o.events
      && Enumerates(keys, Matching(o, workspace, event.kind, event.app)) && |ids| == |keys| && Distinct(ids)
      && forall i | 0 <= i < |ids| :: ids[i] !in o.deliveries
    case OpClaim(_, _, pick) => IsPick(o, now, pick)
    case OpPrune(policy, drop) => IsBatch(o, policy, drop)
    case _ => true
  }

  ghost function Next(o: Outbox, op: Op, now: Time): Outbox
    requires Enabled(o, op, now)
  {
    var step := match op
      case OpCreate(workspace, id, drawn, draft, createdBy) => CreateSubscription(o, workspace, id, drawn, draft, createdBy, now)
      case OpUpdate(workspace, id, draft, actor) => UpdateSubscription(o, workspace, id, draft, actor, now)
      case OpDelete(workspace, id, actor) => DeleteSubscription(o, workspace, id, actor, now)
      case OpTest(workspace, id, eventId, deliveryId) => CreateTest(o, workspace, id, eventId, deliveryId, now)
      case OpEmit(event, workspace, keys, ids) =>
        assert forall i | 0 <= i < |keys| :: keys[i] in Matching(o, workspace, event.kind, event.app);
        Success(Emit(o, event, workspace, keys, ids, now))
      case OpClaim(worker, ttl, pick) => Claim(o, worker, ttl, pick, now)
      case OpComplete(lease, result) => Complete(o, lease, result, now)
      case OpRetry(workspace, deliveryId) => Retry(o, workspace, deliveryId, now)
      case OpPrune(_, drop) => Success(Without(o, drop));
    if step.Success? then step.value else o
  }

  /**
   * Every reachable outbox: a lease is held exactly while delivering, a
   * completion time is set exactly for the three final states, and no delivery
   * lacks its event or subscription.
   */
  lemma NextKeeps(o: Outbox, op: Op, now: Time)
    requires Inv(o) && Enabled(o, op, now)
    ensures Inv(Next(o, op, now))
  {
    hide Inv, CreateSubscription, UpdateSubscription, DeleteSubscription, CreateTest, Emit, Claim, Complete, Retry, NormalizeWorkspace;
    if Next(o, op, now) != o {
      match op
      case OpCreate(workspace, id, drawn, draft, createdBy) => CreateKeeps(o, workspace, id, drawn, draft, createdBy, now);
      case OpUpdate(workspace, id, draft, actor) => UpdateKeeps(o, workspace, id, draft, actor, now);
      case OpDelete(workspace, id, actor) => DeleteKeeps(o, workspace, id, actor, now);
      case OpTest(workspace, id, eventId, deliveryId) => TestKeeps(o, workspace, id, eventId, deliveryId, now);
      case OpEmit(event, workspace, keys, ids) => EmitKeeps(o, event, workspace, keys, ids, now);
      case OpClaim(worker, ttl, pick) => ClaimKeeps(o, worker, ttl, pick, now);
      case OpComplete(lease, result) => CompleteKeeps(o, lease, result, now);
      case OpRetry(workspace, deliveryId) => RetryKeeps(o, workspace, deliveryId, now);
      case OpPrune(policy, drop) => BatchKeeps(o, policy, drop);
    }
  }

  // Deleted subscriptions.

  /** The deliveries that wait for a subscription that is deleted: none of them can be claimed again. */
  function Stranded(o: Outbox): set<DeliveryId> {
    set d | d in o.deliveries && IsWaiting(o.deliveries[d].state)
            && KeyOf(o.deliveries[d]) in o.subscriptions && o.subscriptions[KeyOf(o.deliveries[d])].deletedAt.Some?
  }

  predicate CanDelete(o: Outbox, workspace: string, id: string) {
    Key(workspace, id) in o.subscriptions && o.subscriptions[Key(workspace, id)].deletedAt.None?
  }

  /** What a deletion leaves waiting: deliveries under its key that carry another workspace name. */
  function Missed(o: Outbox, op: Op): set<DeliveryId> {
    if op.OpDelete? && CanDelete(o, op.workspace, op.id) then
      set d | d in o.deliveries && IsWaiting(o.deliveries[d].state) && KeyOf(o.deliveries[d]) == Key(op.workspace, op.id)
              && NormalizeWorkspace(o.deliveries[d].workspace) != NormalizeWorkspace(op.workspace)
    else {}
  }

  /** After a deletion nothing waits under its key exactly when all that waited there carried its workspace name. */
  lemma DeletionIsComplete(o: Outbox, workspace: string, id: string, actor: string, now: Time)
    requires DeleteSubscription(o, workspace, id, actor, now).Success?
    ensures var o' := DeleteSubscription(o, workspace, id, actor, now).value;
      (forall d | d in o'.deliveries && KeyOf(o'.deliveries[d]) == Key(workspace, id) :: !IsWaiting(o'.deliveries[d].state))
      <==> (forall d | d in o.deliveries && KeyOf(o.deliveries[d]) == Key(workspace, id) && IsWaiting(o.deliveries[d].state) ::
              NormalizeWorkspace(o.deliveries[d].workspace) == NormalizeWorkspace(workspace))
  {
    var o' := DeleteSubscription(o, workspace, id, actor, now).value;
    forall d | d in o.deliveries
      ensures KeyOf(o'.deliveries[d]) == KeyOf(o.deliveries[d])
      ensures KeyOf(o.deliveries[d]) == Key(workspace, id) ==> (IsWaiting(o'.deliveries[d].state)
        <==> IsWaiting(o.deliveries[d].state) && NormalizeWorkspace(o.deliveries[d].workspace) != NormalizeWorkspace(workspace))
    {
      DeletedDelivery(o, workspace, id, actor, now, d);
    }
    hide Key, NormalizeWorkspace, Trim, DeleteSubscription, IsWaiting;
  }

  lemma DeleteStrands(o: Outbox, op: Op, now: Time)
    requires Inv(o) && op.OpDelete?
    ensures Stranded(Next(o, op, now)) == Stranded(o) + Missed(o, op)
  {
    hide NormalizeWorkspace, Trim;
    var o' := Next(o, op, now);
    if CanDelete(o, op.workspace, op.id) {
      forall d | d in o.deliveries ensures d in Stranded(o') <==> d in Stranded(o) + Missed(o, op) {
        DeletedDelivery(o, op.workspace, op.id, op.actor, now, d);
        assert DeliveryOk(o, d);
        hide Key;
      }
    }
  }

  lemma PutStrands(o: Outbox, d: Delivery)
    requires d.id in o.deliveries ==> d.id !in Stranded(o)
    requires KeyOf(d) in o.subscriptions && (IsWaiting(d.state) ==> o.subscriptions[KeyOf(d)].deletedAt.None?)
    ensures Stranded(o.(deliveries := o.deliveries[d.id := d])) == Stranded(o)
  {}

  lemma {:induction false} EmitEnqueues(o: Outbox, event: Envelope, workspace: string, keys: seq<SubKey>, ids: seq<DeliveryId>, now: Time)
    requires Enabled(o, OpEmit(event, workspace, keys, ids), now)
    ensures forall i | 0 <= i < |keys| :: keys[i] in Matching(o, workspace, event.kind, event.app)
    ensures Next(o, OpEmit(event, workspace, keys, ids), now)
         == Enqueue(o.(events := o.events[event.id := event]), event.id, workspace, keys, ids, now)
  {
    assert forall i | 0 <= i < |keys| :: keys[i] in Matching(o, workspace, event.kind, event.app);
  }

  lemma EmitStrands(o: Outbox, op: Op, now: Time)
    requires Inv(o) && Enabled(o, op, now) && op.OpEmit?
    ensures Stranded(Next(o, op, now)) == Stranded(o)
  {
    hide NormalizeWorkspace, Inv;
    var o1 := o.(events := o.events[op.event.id := op.event]);
    EmitEnqueues(o, op.event, op.workspace, op.keys, op.ids, now);
    EnqueueAdds(o1, op.event.id, op.workspace, op.keys, op.ids, now);
    var o' := Next(o, op, now);
    forall i | 0 <= i < |op.ids| ensures op.ids[i] !in Stranded(o') {
      FannedKey(o, op.event, op.workspace, op.keys[i], op.ids[i], now);
      assert op.keys[i] in Matching(o, op.workspace, op.event.kind, op.event.app);
    }
    hide Key, Enqueue, Matching;
  }

  lemma PruneStrands(o: Outbox, op: Op, now: Time)
    requires Inv(o) && Enabled(o, op, now) && op.OpPrune?
    ensures Stranded(Next(o, op, now)) == Stranded(o)
  {
    hide Key, NormalizeWorkspace;
    var rest := DropDeliveries(o, op.drop.deliveries);
    forall d | d in Stranded(o) ensures d in Stranded(Next(o, op, now)) {
      assert d !in ExpiredIds(o, op.policy);
      assert d in rest.deliveries && KeyOf(o.deliveries[d]) !in OrphanSubscriptions(rest, op.policy);
    }
  }

  /**
   * One step strands exactly the deliveries a deletion misses, and nothing that
   * is stranded ever gets away: not even the clean-up takes it.
   */
  lemma NextStrands(o: Outbox, op: Op, now: Time)
    requires Inv(o) && Enabled(o, op, now)
    ensures Stranded(Next(o, op, now)) == Stranded(o) + Missed(o, op)
  {
    match op
    case OpDelete(_, _, _) => DeleteStrands(o, op, now);
    case OpEmit(_, _, _, _) => EmitStrands(o, op, now);
    case OpPrune(_, _) => PruneStrands(o, op, now);
    case _ => OtherStrands(o, op, now);
  }

  lemma OtherStrands(o: Outbox, op: Op, now: Time)
    requires Inv(o) && Enabled(o, op, now) && !op.OpDelete? && !op.OpEmit? && !op.OpPrune?
    ensures Stranded(Next(o, op, now)) == Stranded(o)
  {
    hide NormalizeWorkspace, Trim, NameTaken, Enqueue, Emit;
    var o' := Next(o, op, now);
    if o' != o {
      match op
      case OpCreate(_, _, _, _, _) =>
        hide Key;
        forall d | d in o.deliveries ensures d in Stranded(o') <==> d in Stranded(o) { assert DeliveryOk(o, d); }
      case OpUpdate(_, _, _, _) => hide Key;
      case OpTest(workspace, id, eventId, deliveryId) =>
        NormalizeTwice(workspace);
        PutStrands(o.(events := o'.events), NewDelivery(deliveryId, eventId, workspace, id, now));
        assert Stranded(o.(events := o'.events)) == Stranded(o);
      case OpClaim(_, _, pick) =>
        assert DeliveryOk(o, pick.value);
        PutStrands(o, o'.deliveries[pick.value]);
      case OpComplete(lease, _) =>
        assert DeliveryOk(o, lease.deliveryId);
        PutStrands(o, o'.deliveries[lease.deliveryId]);
      case OpRetry(_, deliveryId) =>
        assert DeliveryOk(o, deliveryId);
        PutStrands(o, o'.deliveries[deliveryId]);
    }
  }

  // Names free of "/".

  predicate PlainNames(o: Outbox) {
    forall d | d in o.deliveries :: '/' !in NormalizeWorkspace(o.deliveries[d].workspace)
  }

  // The request names a workspace free of "/", if it puts deliveries there or deletes a subscription.
  predicate PlainRequest(op: Op) {
    match op
    case OpDelete(workspace, _, _) => '/' !in NormalizeWorkspace(workspace)
    case OpTest(workspace, _, _, _) => '/' !in NormalizeWorkspace(workspace)
    case OpEmit(_, workspace, _, _) => '/' !in NormalizeWorkspace(workspace)
    case _ => true
  }

  lemma PlainMissesNothing(o: Outbox, op: Op)
    requires PlainNames(o) && PlainRequest(op)
    ensures Missed(o, op) == {}
  {
    hide NormalizeWorkspace;
    forall d | d in Missed(o, op) ensures false {
      var r := o.deliveries[d];
      KeyNamesOne(r.workspace, r.subscriptionId, op.workspace, op.id);
    }
  }

  lemma NextIsPlain(o: Outbox, op: Op, now: Time)
    requires Inv(o) && Enabled(o, op, now) && PlainNames(o) && PlainRequest(op)
    ensures PlainNames(Next(o, op, now))
  {
    hide Inv, Enabled, Next, NormalizeWorkspace;
    var o' := Next(o, op, now);
    forall d | d in o'.deliveries ensures '/' !in NormalizeWorkspace(o'.deliveries[d].workspace) {
      if d in o.deliveries { DeliveriesPersist(o, op, now, d); } else { NewNames(o, op, now, d); }
    }
  }

  /** A delivery that is new carries the workspace of the request that put it there. */
  lemma NewNames(o: Outbox, op: Op, now: Time, d: DeliveryId)
    requires Inv(o) && Enabled(o, op, now) && d in Next(o, op, now).deliveries && d !in o.deliveries
    ensures op.OpTest? || op.OpEmit?
    ensures NormalizeWorkspace(Next(o, op, now).deliveries[d].workspace) == NormalizeWorkspace(op.workspace)
  {
    hide Key, Trim, NameTaken, Matches, NormalizeWorkspace;
    forall k | k in o.deliveries ensures o.deliveries[k].id == k { assert DeliveryOk(o, k); }
    hide Inv;
    match op
    case OpTest(workspace, _, _, _) => NormalizeTwice(workspace);
    case OpEmit(event, workspace, keys, ids) =>
      NormalizeTwice(workspace);
      EmitEnqueues(o, event, workspace, keys, ids, now);
      EnqueueAdds(o.(events := o.events[event.id := event]), event.id, workspace, keys, ids, now);
    case _ =>
  }

  /** No operation but the clean-up removes a delivery, and none lowers its attempt or moves it to another event or subscription. */
  lemma DeliveriesPersist(o: Outbox, op: Op, now: Time, d: DeliveryId)
    requires Inv(o) && Enabled(o, op, now) && d in o.deliveries
    requires op.OpPrune? ==> d in Next(o, op, now).deliveries
    ensures var o' := Next(o, op, now);
      && d in o'.deliveries && o.deliveries[d].attempt <= o'.deliveries[d].attempt
      && o'.deliveries[d].eventId == o.deliveries[d].eventId && o'.deliveries[d].workspace == o.deliveries[d].workspace
      && KeyOf(o'.deliveries[d]) == KeyOf(o.deliveries[d])
      && (o'.deliveries[d].attempt > o.deliveries[d].attempt ==> op.OpClaim? && o'.deliveries[d].state.DeliveryDelivering?)
      && (o'.deliveries[d].state.DeliveryDelivering? && !o.deliveries[d].state.DeliveryDelivering? ==> o'.deliveries[d].attempt > o.deliveries[d].attempt)
  {
    hide Key, NormalizeWorkspace, Trim, NameTaken, Matches;
    assert DeliveryOk(o, d);
    match op
    case OpClaim(_, _, pick) => if pick.Some? { assert DeliveryOk(o, pick.value); }
    case OpComplete(lease, _) => if lease.deliveryId in o.deliveries { assert DeliveryOk(o, lease.deliveryId); }
    case OpRetry(_, deliveryId) => if deliveryId in o.deliveries { assert DeliveryOk(o, deliveryId); }
    case OpEmit(event, workspace, keys, ids) =>
      assert forall i | 0 <= i < |keys| :: keys[i] in Matching(o, workspace, event.kind, event.app);
      EnqueueAdds(o.(events := o.events[event.id := event]), event.id, workspace, keys, ids, now);
    case _ =>
  }

  predicate AddedFor(o: Outbox, o': Outbox, event: EventId, k: SubKey, d: DeliveryId) {
    && d in o'.deliveries && d !in o.deliveries && KeyOf(o'.deliveries[d]) == k
    && o'.deliveries[d].eventId == event && o'.deliveries[d].state.DeliveryPending?
  }

  /** A release event adds exactly one pending delivery for each matching subscription, and none for any other. */
  lemma FanOutIsExact(o: Outbox, event: Envelope, workspace: string, keys: seq<SubKey>, ids: seq<DeliveryId>, now: Time)
    requires Inv(o) && Enabled(o, OpEmit(event, workspace, keys, ids), now)
    ensures var o' := Next(o, OpEmit(event, workspace, keys, ids), now);
      var matching := Matching(o, workspace, event.kind, event.app);
      && o'.events == o.events[event.id := event] && o'.subscriptions == o.subscriptions
      && |o'.deliveries| == |o.deliveries| + |matching|
      && (forall d | d in o.deliveries :: d in o'.deliveries && o'.deliveries[d] == o.deliveries[d])
      && (forall k | k in matching :: exists d :: AddedFor(o, o', event.id, k, d))
      && (forall d | d in o'.deliveries && d !in o.deliveries ::
            KeyOf(o'.deliveries[d]) in matching && AddedFor(o, o', event.id, KeyOf(o'.deliveries[d]), d))
  {
    var o' := Next(o, OpEmit(event, workspace, keys, ids), now);
    var matching := Matching(o, workspace, event.kind, event.app);
    EmitEnqueues(o, event, workspace, keys, ids, now);
    hide Next, Inv, Matching, Enqueue, Emit;
    EnqueueAdds(o.(events := o.events[event.id := event]), event.id, workspace, keys, ids, now);
    EnumerationLength(keys, matching);
    SizeAfter(o, o', ids);
    hide Enabled;
    forall i | 0 <= i < |ids| ensures AddedFor(o, o', event.id, keys[i], ids[i]) {
      FannedKey(o, event, workspace, keys[i], ids[i], now);
    }
    OnePerKey(o, o', event.id, matching, keys, ids);
  }

  lemma OnePerKey(o: Outbox, o': Outbox, event: EventId, matching: set<SubKey>, keys: seq<SubKey>, ids: seq<DeliveryId>)
    requires Enumerates(keys, matching) && |ids| == |keys|
    requires forall d :: d in o'.deliveries <==> d in o.deliveries || d in ids
    requires forall i | 0 <= i < |ids| :: AddedFor(o, o', event, keys[i], ids[i])
    ensures forall k | k in matching :: exists d :: AddedFor(o, o', event, k, d)
    ensures forall d | d in o'.deliveries && d !in o.deliveries ::
      KeyOf(o'.deliveries[d]) in matching && AddedFor(o, o', event, KeyOf(o'.deliveries[d]), d)
  {}

  lemma SizeAfter(o: Outbox, o': Outbox, ids: seq<DeliveryId>)
    requires Distinct(ids) && forall i | 0 <= i < |ids| :: ids[i] !in o.deliveries
    requires forall d :: d in o'.deliveries <==> d in o.deliveries || d in ids
    ensures |o'.deliveries| == |o.deliveries| + |ids|
  {
    var added := set d | d in ids;
    EnumerationLength(ids, added);
    assert o'.deliveries.Keys == o.deliveries.Keys + added;
  }

  lemma FannedKey(o: Outbox, event: Envelope, workspace: string, k: SubKey, id: DeliveryId, now: Time)
    requires Inv(o) && k in Matching(o, workspace, event.kind, event.app)
    ensures KeyOf(NewDelivery(id, event.id, workspace, o.subscriptions[k].id, now)) == k
  {}
}
