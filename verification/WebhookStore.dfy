/** LocalStore's webhook half: the same records changed in place (internal/state/local_webhook.go). */
module WebhookStore {
  import opened Wrappers
  import opened Text
  import opened Sorting
  import opened WebhookModel
  import opened WebhookInvariant
  import opened WebhookRetention

  /** Commit what the step function says, or report its error and change nothing. */
  ghost predicate Outcome(before: Outbox, step: Step, after: Outbox, err: Option<WebhookError>) {
    match step
    case Success(o) => err.None? && after == o
    case Failure(e) => err == Some(e) && after == before
  }

  lemma AgeIsWeak()
    ensures StrictWeak(OlderThan)
  {
    forall a: Delivery, b: Delivery ensures OlderThan(a, b) ==> !OlderThan(b, a) { LessIsTotal(a.id, b.id); }
    forall a: Delivery, b: Delivery, c: Delivery | !OlderThan(b, a) && !OlderThan(c, b) ensures !OlderThan(c, a) {
      LessIsTotal(a.id, b.id);
      LessIsTotal(b.id, c.id);
      LessIsTotal(a.id, c.id);
      if Less(a.id, b.id) && Less(b.id, c.id) { LessIsTransitive(a.id, b.id, c.id); }
    }
  }

  lemma LessIsWeak()
    ensures StrictWeak(Less)
  {
    forall a: string, b: string ensures Less(a, b) ==> !Less(b, a) { LessIsTotal(a, b); }
    forall a: string, b: string, c: string | !Less(b, a) && !Less(c, b) ensures !Less(c, a) {
      LessIsTotal(a, b);
      LessIsTotal(b, c);
      LessIsTotal(a, c);
      if Less(a, b) && Less(b, c) { LessIsTransitive(a, b, c); }
    }
  }

  function Firsts<K>(keys: seq<K>, n: nat): set<K>
    requires n <= |keys|
  {
    set i | 0 <= i < n :: keys[i]
  }

  /** The first n of a sorted enumeration are what TakesFirst asks for. */
  lemma SortedPrefix<K(!new)>(keys: seq<K>, from: set<K>, limit: nat, n: nat, before: (K, K) -> bool)
    requires Enumerates(keys, from) && SortedBy(keys, before) && n == if |keys| < limit then |keys| else limit
    requires forall a, b | a in from && b in from && a != b :: before(a, b) || before(b, a)
    ensures TakesFirst(Firsts(keys, n), from, limit, before) && |Firsts(keys, n)| == n
  {
    EnumerationLength(keys, from);
    var taken := Firsts(keys, n);
    forall k ensures k in keys[..n] <==> k in taken {
      if k in keys[..n] { var i :| 0 <= i < n && keys[..n][i] == k; assert keys[i] in taken; }
      if k in taken { var i :| 0 <= i < n && keys[i] == k; assert keys[..n][i] == k; }
    }
    EnumerationLength(keys[..n], taken);
    forall a, b | a in taken && b in from && b !in taken ensures before(a, b) {
      var i :| 0 <= i < n && keys[i] == a;
      var k :| 0 <= k < |keys| && keys[k] == b;
      assert n <= k;
    }
  }

  /** The delete loop of a clean-up: the first records in order, until the batch is full. */
  method DeleteFirst<K(==), V>(records: map<K, V>, keys: seq<K>, limit: nat) returns (kept: map<K, V>, remaining: nat, count: nat)
    ensures count == if |keys| < limit then |keys| else limit
    ensures remaining == limit - count
    ensures kept == records - Firsts(keys, count)
  {
    kept, remaining, count := records, limit, 0;
    while count < |keys|
      invariant count <= |keys| && remaining == limit - count
      invariant kept == records - Firsts(keys, count)
    {
      if remaining == 0 {
        break;
      }
      assert Firsts(keys, count + 1) == Firsts(keys, count) + {keys[count]};
      kept := kept - {keys[count]};
      count := count + 1;
      remaining := remaining - 1;
    }
  }

  datatype RetentionResult = RetentionResult(deliveries: nat, events: nat, subscriptions: nat) {
    predicate Empty() {
      deliveries == 0 && events == 0 && subscriptions == 0
    }
  }

  class LocalOutbox {
    var deliveries: map<DeliveryId, Delivery>
    var events: map<EventId, Envelope>
    var subscriptions: map<SubKey, Subscription>

    ghost function Snap(): Outbox
      reads this
    {
      Outbox(deliveries, events, subscriptions)
    }

    ghost predicate Valid()
      reads this
    {
      Inv(Snap())
    }

    constructor ()
      ensures Valid() && Snap() == EMPTY
    {
      deliveries, events, subscriptions := map[], map[], map[];
    }

    lemma StaysValid(before: Outbox, op: Op, now: Time)
      requires Inv(before) && Enabled(before, op, now) && Snap() == Next(before, op, now)
      ensures Valid()
    {
      hide Inv, Next, Enabled;
      NextKeeps(before, op, now);
    }

    /** The search for a live subscription of the same workspace and name. */
    method NameInUse(workspace: string, name: string, except: SubKey) returns (taken: bool)
      ensures taken == NameTaken(Snap(), workspace, name, except)
    {
      hide NormalizeWorkspace;
      var todo := subscriptions.Keys;
      taken := false;
      while todo != {}
        invariant todo <= subscriptions.Keys
        invariant forall k | k in subscriptions && k !in todo && k != except && subscriptions[k].deletedAt.None? ::
          !(NormalizeWorkspace(subscriptions[k].workspace) == workspace && subscriptions[k].name == name)
        decreases todo
      {
        var k :| k in todo;
        todo := todo - {k};
        if k != except && subscriptions[k].deletedAt.None?
           && NormalizeWorkspace(subscriptions[k].workspace) == workspace && subscriptions[k].name == name {
          return true;
        }
      }
    }

    method Create(workspace: string, id: string, drawn: string, draft: Draft, createdBy: string, now: Time) returns (err: Option<WebhookError>)
      requires Valid()
      modifies this
      ensures Valid() && Outcome(old(Snap()), CreateSubscription(old(Snap()), workspace, id, drawn, draft, createdBy, now), Snap(), err)
    {
      var prepared := PrepareNew(workspace, id, drawn, draft, createdBy, now);
      if prepared.None? {
        return Some(Invalid);
      }
      hide PrepareNew, NormalizeWorkspace, Trim;
      var s := prepared.value;
      var k := Key(s.workspace, s.id);
      if k in subscriptions {
        return Some(Conflict);
      }
      var taken := NameInUse(s.workspace, s.name, k);
      if taken {
        return Some(Conflict);
      }
      subscriptions := subscriptions[k := s];
      StaysValid(old(Snap()), OpCreate(workspace, id, drawn, draft, createdBy), now);
      err := None;
    }

    method Update(workspace: string, id: string, draft: Draft, actor: string, now: Time) returns (err: Option<WebhookError>)
      requires Valid()
      modifies this
      ensures Valid() && Outcome(old(Snap()), UpdateSubscription(old(Snap()), workspace, id, draft, actor, now), Snap(), err)
    {
      hide PrepareUpdate, NormalizeWorkspace, Trim;
      var k := Key(workspace, id);
      if k !in subscriptions || subscriptions[k].deletedAt.Some? {
        return Some(NotFound);
      }
      var prepared := PrepareUpdate(subscriptions[k], draft, actor, now);
      if prepared.None? {
        return Some(Invalid);
      }
      var taken := NameInUse(prepared.value.workspace, prepared.value.name, k);
      if taken {
        return Some(Conflict);
      }
      subscriptions := subscriptions[k := prepared.value];
      StaysValid(old(Snap()), OpUpdate(workspace, id, draft, actor), now);
      err := None;
    }

    method Delete(workspace: string, id: string, actor: string, now: Time) returns (err: Option<WebhookError>)
      requires Valid()
      modifies this
      ensures Valid() && Outcome(old(Snap()), DeleteSubscription(old(Snap()), workspace, id, actor, now), Snap(), err)
    {
      var k := Key(workspace, id);
      if k !in subscriptions || subscriptions[k].deletedAt.Some? {
        return Some(NotFound);
      }
      var who := if Trim(actor) != "" then Trim(actor) else "system";
      subscriptions := subscriptions[k := subscriptions[k].(enabled := false, updatedBy := who, updatedAt := now, deletedAt := Some(now))];
      CancelWaiting(workspace, id, now);
      StaysValid(old(Snap()), OpDelete(workspace, id, actor), now);
      err := None;
    }

    /** Every waiting delivery of the subscription is canceled. */
    method CancelWaiting(workspace: string, id: string, now: Time)
      requires forall d | d in deliveries :: deliveries[d].id == d
      modifies `deliveries
      ensures deliveries == map d | d in old(deliveries) :: AfterDelete(old(deliveries)[d], workspace, id, now)
    {
      hide NormalizeWorkspace;
      var todo := deliveries.Keys;
      while todo != {}
        invariant todo <= deliveries.Keys == old(deliveries).Keys
        invariant forall d | d in todo :: deliveries[d] == old(deliveries)[d]
        invariant forall d | d in deliveries && d !in todo :: deliveries[d] == AfterDelete(old(deliveries)[d], workspace, id, now)
        decreases todo
      {
        var d :| d in todo;
        todo := todo - {d};
        var delivery := deliveries[d];
        if NormalizeWorkspace(delivery.workspace) != NormalizeWorkspace(workspace) || delivery.subscriptionId != id || !IsWaiting(delivery.state) {
          continue;
        }
        deliveries := deliveries[d := Canceled(delivery, now)];
      }
    }

    method CreateTestDelivery(workspace: string, id: string, eventId: EventId, deliveryId: DeliveryId, now: Time) returns (err: Option<WebhookError>)
      requires Valid() && deliveryId !in deliveries && eventId !in events
      modifies this
      ensures Valid() && Outcome(old(Snap()), CreateTest(old(Snap()), workspace, id, eventId, deliveryId, now), Snap(), err)
    {
      var k := Key(workspace, id);
      if k !in subscriptions || subscriptions[k].deletedAt.Some? {
        return Some(NotFound);
      }
      if !subscriptions[k].enabled {
        return Some(Conflict);
      }
      events := events[eventId := Envelope(eventId, "webhook.test", "")];
      deliveries := deliveries[deliveryId := NewDelivery(deliveryId, eventId, workspace, id, now)];
      StaysValid(old(Snap()), OpTest(workspace, id, eventId, deliveryId), now);
      err := None;
    }

    /** matchingSubscriptions. */
    method MatchingSubscriptions(workspace: string, kind: string, app: string) returns (keys: seq<SubKey>)
      ensures Enumerates(keys, Matching(Snap(), workspace, kind, app))
    {
      hide NormalizeWorkspace, Matches;
      keys := [];
      var todo := subscriptions.Keys;
      while todo != {}
        invariant todo <= subscriptions.Keys && Distinct(keys)
        invariant forall k :: k in keys <==> k in Matching(Snap(), workspace, kind, app) && k !in todo
        decreases todo
      {
        var k :| k in todo;
        todo := todo - {k};
        var s := subscriptions[k];
        if NormalizeWorkspace(s.workspace) == NormalizeWorkspace(workspace) && Matches(s, kind, app) {
          keys := keys + [k];
        }
      }
    }

    /** The event and its fan-out, as publish and rollback add them inside their own transaction. */
    method FanOut(event: Envelope, workspace: string, ids: seq<DeliveryId>, now: Time) returns (ghost keys: seq<SubKey>)
      requires Valid() && event.id !in events
      requires Distinct(ids) && |ids| == |Matching(Snap(), workspace, event.kind, event.app)| && forall i | 0 <= i < |ids| :: ids[i] !in deliveries
      modifies this
      ensures Valid() && Enabled(old(Snap()), OpEmit(event, workspace, keys, ids), now)
      ensures Snap() == Next(old(Snap()), OpEmit(event, workspace, keys, ids), now)
    {
      ghost var before := Snap();
      events := events[event.id := event];
      ghost var start := Snap();
      var matching := MatchingSubscriptions(workspace, event.kind, event.app);
      keys := matching;
      assert Matching(start, workspace, event.kind, event.app) == Matching(before, workspace, event.kind, event.app);
      EnumerationLength(matching, Matching(before, workspace, event.kind, event.app));
      assert forall i | 0 <= i < |matching| :: matching[i] in Matching(before, workspace, event.kind, event.app);
      FanOutLoop(event.id, workspace, matching, ids, now);
      StaysValid(before, OpEmit(event, workspace, keys, ids), now);
    }

    method FanOutLoop(eventId: EventId, workspace: string, keys: seq<SubKey>, ids: seq<DeliveryId>, now: Time)
      requires |ids| == |keys| && forall i | 0 <= i < |keys| :: keys[i] in subscriptions
      modifies `deliveries
      ensures Snap() == Enqueue(old(Snap()), eventId, workspace, keys, ids, now)
    {
      for i := 0 to |keys|
        invariant Snap() == Enqueue(old(Snap()), eventId, workspace, keys[..i], ids[..i], now)
      {
        assert keys[..i + 1][..i] == keys[..i] && ids[..i + 1][..i] == ids[..i];
        deliveries := deliveries[ids[i] := NewDelivery(ids[i], eventId, workspace, subscriptions[keys[i]].id, now)];
      }
      assert keys[..|keys|] == keys && ids[..|ids|] == ids;
    }

    /** The earliest due delivery whose subscription is live, if there is one. */
    method Pick(now: Time) returns (pick: Option<DeliveryId>)
      requires Valid()
      ensures IsPick(Snap(), now, pick)
    {
      hide Inv, Eligible, Key, NormalizeWorkspace;
      pick := None;
      var todo := deliveries.Keys;
      while todo != {}
        invariant todo <= deliveries.Keys
        invariant pick.None? ==> forall d | d in deliveries && d !in todo :: !Claimable(Snap(), d, now)
        invariant pick.Some? ==> Claimable(Snap(), pick.value, now)
        invariant pick.Some? ==> forall d | d in deliveries && d !in todo && Claimable(Snap(), d, now) :: !DueBefore(deliveries[d], deliveries[pick.value])
        decreases todo
      {
        var d :| d in todo;
        todo := todo - {d};
        var k := KeyOf(deliveries[d]);
        if k !in subscriptions || !Eligible(deliveries[d], subscriptions[k], now) {
          continue;
        }
        if pick.None? || DueBefore(deliveries[d], deliveries[pick.value]) {
          pick := Some(d);
        }
      }
    }

    lemma PickedRecord(o: Outbox, id: DeliveryId, now: Time)
      requires Inv(o) && Claimable(o, id, now)
      ensures id in o.deliveries && o.deliveries[id].id == id && o.deliveries[id].eventId in o.events
    {}

    method ClaimDelivery(workerId: string, ttl: int, now: Time) returns (err: Option<WebhookError>, lease: Lease, ghost pick: Option<DeliveryId>)
      requires Valid()
      modifies this
      ensures Valid() && IsPick(old(Snap()), now, pick)
      ensures Outcome(old(Snap()), Claim(old(Snap()), workerId, ttl, pick, now), Snap(), err)
      ensures err.None? ==> pick.Some? && lease.deliveryId == pick.value && Holds(deliveries[pick.value], lease)
      ensures err == Some(NoPendingDelivery) ==> forall d :: !Claimable(old(Snap()), d, now)
    {
      hide Inv, Claimable, NormalizeWorkspace, Key, Trim;
      ghost var before := Snap();
      lease := Lease("", "", 0, 0);
      var worker := Trim(workerId);
      if worker == "" {
        var found := Pick(now);
        return Some(InvalidLease), lease, found;
      }
      var selected := Pick(now);
      pick := selected;
      if selected.None? {
        return Some(NoPendingDelivery), lease, pick;
      }
      PickedRecord(before, selected.value, now);
      var delivery := deliveries[selected.value];
      if delivery.eventId !in events {
        assert false;
      }
      var expiresAt := now + if ttl <= 0 then 30_000_000_000 else ttl;
      hide IsPick;
      deliveries := deliveries[delivery.id := delivery.(
        state := DeliveryDelivering, attempt := delivery.attempt + 1, leaseOwner := Some(worker), leaseExpiresAt := Some(expiresAt), updatedAt := now)];
      lease := Lease(delivery.id, worker, delivery.attempt + 1, expiresAt);
      StaysValid(before, OpClaim(workerId, ttl, pick), now);
      err := None;
    }

    method CompleteDelivery(lease: Lease, result: DeliveryResult, now: Time) returns (err: Option<WebhookError>)
      requires Valid()
      modifies this
      ensures Valid() && Outcome(old(Snap()), Complete(old(Snap()), lease, result, now), Snap(), err)
    {
      hide Inv, NormalizeWorkspace, Key;
      if !ValidResult(result) {
        return Some(Invalid);
      }
      if lease.deliveryId !in deliveries {
        return Some(NotFound);
      }
      var delivery := deliveries[lease.deliveryId];
      if !Holds(delivery, lease) {
        return Some(InvalidLease);
      }
      var state, completedAt := result.state, result.completedAt;
      var k := KeyOf(delivery);
      if k !in subscriptions {
        return Some(NotFound);
      }
      if subscriptions[k].deletedAt.Some? && state.DeliveryRetrying? {
        state, completedAt := DeliveryCanceled, now;
      }
      delivery := delivery.(state := state, nextAttemptAt := result.nextAttemptAt, report := result.report,
                            leaseOwner := None, leaseExpiresAt := None, updatedAt := now);
      if state.DeliveryRetrying? {
        delivery := delivery.(completedAt := None);
      } else {
        delivery := delivery.(completedAt := Some(completedAt));
      }
      deliveries := deliveries[delivery.id := delivery];
      StaysValid(old(Snap()), OpComplete(lease, result), now);
      err := None;
    }

    method RetryDelivery(workspace: string, deliveryId: DeliveryId, now: Time) returns (err: Option<WebhookError>)
      requires Valid()
      modifies this
      ensures Valid() && Outcome(old(Snap()), Retry(old(Snap()), workspace, deliveryId, now), Snap(), err)
    {
      hide Inv, NormalizeWorkspace, Key;
      if deliveryId !in deliveries || NormalizeWorkspace(deliveries[deliveryId].workspace) != NormalizeWorkspace(workspace) {
        return Some(NotFound);
      }
      var delivery := deliveries[deliveryId];
      if !delivery.state.DeliveryFailed? {
        return Some(Conflict);
      }
      var k := KeyOf(delivery);
      if k !in subscriptions || subscriptions[k].deletedAt.Some? || !subscriptions[k].enabled {
        return Some(Conflict);
      }
      deliveries := deliveries[delivery.id := delivery.(
        state := DeliveryRetrying, nextAttemptAt := now, leaseOwner := None, leaseExpiresAt := None, completedAt := None, updatedAt := now)];
      StaysValid(old(Snap()), OpRetry(workspace, deliveryId), now);
      err := None;
    }

    // PruneWebhookData.

    /** The identifiers of the expired deliveries, oldest first. */
    method Candidates(p: Policy) returns (ids: seq<DeliveryId>)
      requires Valid()
      ensures Enumerates(ids, ExpiredIds(Snap(), p)) && SortedBy(ids, ByAge(Snap()))
    {
      hide OlderThan, Key, NormalizeWorkspace, Sort;
      var found: seq<Delivery> := [];
      var todo := deliveries.Keys;
      while todo != {}
        invariant todo <= deliveries.Keys && Distinct(found)
        invariant forall d :: d in found <==> (d.id in deliveries && deliveries[d.id] == d && d.id !in todo && IsExpired(d, p))
        decreases todo
      {
        var d :| d in todo;
        todo := todo - {d};
        assert DeliveryOk(Snap(), d);
        hide IsExpired;
        if IsExpired(deliveries[d], p) {
          found := found + [deliveries[d]];
        }
      }
      var sorted := Sort(found, OlderThan);
      AgeIsWeak();
      ghost var all := set d | d in found;
      SortEnumeration(found, all, OlderThan);
      forall d | d in ExpiredIds(Snap(), p) ensures deliveries[d].id == d { assert DeliveryOk(Snap(), d); }
      ids := seq(|sorted|, i requires 0 <= i < |sorted| => sorted[i].id);
      IdsInOrder(sorted, ids, p);
    }

    lemma IdsInOrder(sorted: seq<Delivery>, ids: seq<DeliveryId>, p: Policy)
      requires |ids| == |sorted| && forall i | 0 <= i < |sorted| :: ids[i] == sorted[i].id
      requires Distinct(sorted) && SortedBy(sorted, OlderThan)
      requires forall d :: d in sorted <==> (d.id in deliveries && deliveries[d.id] == d && IsExpired(d, p))
      requires forall d | d in ExpiredIds(Snap(), p) :: deliveries[d].id == d
      ensures Enumerates(ids, ExpiredIds(Snap(), p)) && SortedBy(ids, ByAge(Snap()))
    {}

    /** The identifiers of the events no delivery refers to, in order. */
    method UnreferencedEvents() returns (ids: seq<EventId>)
      ensures Enumerates(ids, OrphanEvents(Snap())) && SortedBy(ids, Less)
    {
      hide Less;
      var referenced: set<EventId> := {};
      var left := deliveries.Keys;
      while left != {}
        invariant left <= deliveries.Keys
        invariant referenced == set d | d in deliveries && d !in left :: deliveries[d].eventId
        decreases left
      {
        var d :| d in left;
        left := left - {d};
        referenced := referenced + {deliveries[d].eventId};
      }
      ids := [];
      var todo := events.Keys;
      while todo != {}
        invariant todo <= events.Keys && Distinct(ids)
        invariant forall e :: e in ids <==> e in events && e !in todo && e !in referenced
        decreases todo
      {
        var e :| e in todo;
        todo := todo - {e};
        if e !in referenced {
          ids := ids + [e];
        }
      }
      assert Enumerates(ids, OrphanEvents(Snap()));
      LessIsWeak();
      SortEnumeration(ids, OrphanEvents(Snap()), Less);
      ids := Sort(ids, Less);
    }

    /** The keys of the deleted, old subscriptions no delivery refers to, in order. */
    method UnreferencedSubscriptions(p: Policy) returns (keys: seq<SubKey>)
      requires p.subscriptionBefore != 0
      ensures Enumerates(keys, OrphanSubscriptions(Snap(), p)) && SortedBy(keys, Less)
    {
      hide Less, KeyOf;
      var referenced: set<SubKey> := {};
      var left := deliveries.Keys;
      while left != {}
        invariant left <= deliveries.Keys
        invariant referenced == set d | d in deliveries && d !in left :: KeyOf(deliveries[d])
        decreases left
      {
        var d :| d in left;
        left := left - {d};
        referenced := referenced + {KeyOf(deliveries[d])};
      }
      keys := [];
      var todo := subscriptions.Keys;
      while todo != {}
        invariant todo <= subscriptions.Keys && Distinct(keys)
        invariant forall k :: k in keys <==> (k in subscriptions && k !in todo && k !in referenced
          && subscriptions[k].deletedAt.Some? && subscriptions[k].deletedAt.value < p.subscriptionBefore)
        decreases todo
      {
        var k :| k in todo;
        todo := todo - {k};
        if subscriptions[k].deletedAt.None? || subscriptions[k].deletedAt.value >= p.subscriptionBefore {
          continue;
        }
        if k !in referenced {
          keys := keys + [k];
        }
      }
      assert Enumerates(keys, OrphanSubscriptions(Snap(), p));
      LessIsWeak();
      SortEnumeration(keys, OrphanSubscriptions(Snap(), p), Less);
      keys := Sort(keys, Less);
    }

    method PruneDeliveries(p: Policy, limit: nat) returns (count: nat, remaining: nat, ghost taken: set<DeliveryId>)
      requires Valid()
      modifies `deliveries
      ensures TakesFirst(taken, ExpiredIds(old(Snap()), p), limit, ByAge(old(Snap())))
      ensures deliveries == old(deliveries) - taken && count == |taken| && remaining == limit - count
    {
      ghost var before := Snap();
      var ids := Candidates(p);
      deliveries, remaining, count := DeleteFirst(deliveries, ids, limit);
      taken := Firsts(ids, count);
      forall a, b | a in ExpiredIds(before, p) && b in ExpiredIds(before, p) && a != b ensures ByAge(before)(a, b) || ByAge(before)(b, a) {
        assert DeliveryOk(before, a) && DeliveryOk(before, b);
        AgeOrder(before.deliveries[a], before.deliveries[b]);
      }
      hide ExpiredIds, ByAge;
      SortedPrefix(ids, ExpiredIds(before, p), limit, count, ByAge(before));
    }

    method PruneEvents(limit: nat) returns (count: nat, remaining: nat, ghost taken: set<EventId>)
      modifies `events
      ensures TakesFirst(taken, OrphanEvents(old(Snap())), limit, Less)
      ensures events == old(events) - taken && count == |taken| && remaining == limit - count
    {
      ghost var before := Snap();
      var ids := UnreferencedEvents();
      events, remaining, count := DeleteFirst(events, ids, limit);
      taken := Firsts(ids, count);
      forall a: string, b: string ensures a != b ==> Less(a, b) || Less(b, a) { LessIsTotal(a, b); }
      hide OrphanEvents, Less;
      SortedPrefix(ids, OrphanEvents(before), limit, count, Less);
    }

    method PruneSubscriptions(p: Policy, limit: nat) returns (count: nat, remaining: nat, ghost taken: set<SubKey>)
      requires p.subscriptionBefore != 0
      modifies `subscriptions
      ensures TakesFirst(taken, OrphanSubscriptions(old(Snap()), p), limit, Less)
      ensures subscriptions == old(subscriptions) - taken && count == |taken| && remaining == limit - count
    {
      ghost var before := Snap();
      var keys := UnreferencedSubscriptions(p);
      subscriptions, remaining, count := DeleteFirst(subscriptions, keys, limit);
      taken := Firsts(keys, count);
      forall a: string, b: string ensures a != b ==> Less(a, b) || Less(b, a) { LessIsTotal(a, b); }
      hide OrphanSubscriptions, Less;
      SortedPrefix(keys, OrphanSubscriptions(before, p), limit, count, Less);
    }

    method PruneWebhookData(p: Policy, now: Time) returns (result: RetentionResult, ghost drop: Drop)
      requires Valid()
      modifies this
      ensures Valid() && IsBatch(old(Snap()), p, drop) && Snap() == Without(old(Snap()), drop)
      ensures result == RetentionResult(|drop.deliveries|, |drop.events|, |drop.subscriptions|)
    {
      hide ByAge, ExpiredIds, Inv, Less;
      ghost var before := Snap();
      var count, remaining, taken := PruneDeliveries(p, BatchSize(p));
      result := RetentionResult(count, 0, 0);
      drop := Drop(taken, {}, {});
      ghost var rest := Snap();
      assert rest == DropDeliveries(before, taken);
      if remaining > 0 {
        var eventCount, left, takenEvents := PruneEvents(remaining);
        remaining := left;
        result := result.(events := eventCount);
        drop := drop.(events := takenEvents);
      }
      if remaining > 0 && p.subscriptionBefore != 0 {
        assert OrphanSubscriptions(Snap(), p) == OrphanSubscriptions(rest, p);
        var keyCount, left, takenKeys := PruneSubscriptions(p, remaining);
        result := result.(subscriptions := keyCount);
        drop := drop.(subscriptions := takenKeys);
      }
      assert before.events - {} == before.events && before.subscriptions - {} == before.subscriptions;
      assert p.subscriptionBefore == 0 ==> OrphanSubscriptions(rest, p) == {};
      hide OrphanEvents, OrphanSubscriptions;
      assert IsBatch(before, p, drop);
      StaysValid(before, OpPrune(p, drop), now);
    }
  }

  /**
   * runWebhookRetentionCycle: prune until a batch comes back empty, or until the
   * time budget refuses another one, which is after `patience` batches if ever.
   */
  method RunRetentionCycle(store: LocalOutbox, success: int, failure: int, batchSize: int, patience: Option<nat>, now: Time)
    returns (total: RetentionResult, finished: bool)
    requires store.Valid()
    modifies store
    ensures store.Valid()
    ensures var p := Cutoffs(success, failure, batchSize, now);
      && OneShot(store.Snap(), p) == OneShot(old(store.Snap()), p)
      && (finished ==> store.Snap() == OneShot(old(store.Snap()), p))
    ensures patience.None? ==> finished
    ensures finished ==> CleanedUp(old(store.Snap()), store.Snap(), success, failure, now)
    ensures forall d | d in old(store.deliveries) && !Outlived(old(store.deliveries)[d], success, failure, now) ::
      d in store.deliveries && store.deliveries[d] == old(store.deliveries)[d]
    ensures |store.deliveries| + total.deliveries == old(|store.deliveries|)
    ensures |store.events| + total.events == old(|store.events|)
    ensures |store.subscriptions| + total.subscriptions == old(|store.subscriptions|)
  {
    var p := Cutoffs(success, failure, batchSize, now);
    total := RetentionResult(0, 0, 0);
    finished := false;
    var batches: nat := 0;
    CleanUpByAge(store.Snap(), success, failure, batchSize, now);
    hide Inv, IsBatch, OneShot, Without, CleanedUp, Outlived;
    while true
      invariant store.Valid() && OneShot(store.Snap(), p) == OneShot(old(store.Snap()), p)
      invariant |store.deliveries| + total.deliveries == old(|store.deliveries|)
      invariant |store.events| + total.events == old(|store.events|)
      invariant |store.subscriptions| + total.subscriptions == old(|store.subscriptions|)
      decreases Records(store.Snap())
    {
      if patience.Some? && batches >= patience.value {
        NotPastTheGoal(store.Snap(), p);
        return;
      }
      ghost var before := store.Snap();
      var result, drop := store.PruneWebhookData(p, now);
      batches := batches + 1;
      BatchKeepsGoal(before, p, drop);
      BatchIsBounded(before, p, drop);
      EmptyBatchMeansDone(before, p, drop);
      SizesAfter(before, p, drop);
      total := RetentionResult(total.deliveries + result.deliveries, total.events + result.events, total.subscriptions + result.subscriptions);
      if result.Empty() {
        assert store.Snap() == before by { NothingTaken(before, drop); }
        finished := true;
        return;
      }
    }
  }

  function Cutoff(ttl: int, now: Time): Time {
    if ttl <= 0 then 0 else now - ttl
  }

  function Cutoffs(success: int, failure: int, batchSize: int, now: Time): Policy {
    Policy(Cutoff(success, now), Cutoff(success, now), Cutoff(failure, now), Cutoff(success, now), batchSize)
  }

  // It ended longer ago than its time to live, if that is positive. A cutoff that falls on the zero time is none.
  predicate Elapsed(t: Time, ttl: int, now: Time) {
    ttl > 0 && now - ttl != 0 && t < now - ttl
  }

  /** Succeeded and canceled deliveries live for one duration after they ended, failed ones for the other, and the rest for ever. */
  predicate Outlived(d: Delivery, success: int, failure: int, now: Time) {
    var ended := if d.completedAt.Some? then d.completedAt.value else d.updatedAt;
    match d.state
    case DeliverySucceeded => Elapsed(ended, success, now)
    case DeliveryCanceled => Elapsed(ended, success, now)
    case DeliveryFailed => Elapsed(ended, failure, now)
    case _ => false
  }

  // The subscription was deleted longer ago than the time to live of what succeeded.
  predicate Forgotten(o: Outbox, k: SubKey, success: int, now: Time)
    requires k in o.subscriptions
  {
    o.subscriptions[k].deletedAt.Some? && Elapsed(o.subscriptions[k].deletedAt.value, success, now)
  }

  predicate IsReferred(o: Outbox, k: SubKey) {
    exists d :: d in o.deliveries && Key(o.deliveries[d].workspace, o.deliveries[d].subscriptionId) == k
  }

  /** What a finished cycle leaves: records by how long ago they ended, and what these refer to. */
  ghost predicate CleanedUp(o: Outbox, o': Outbox, success: int, failure: int, now: Time) {
    && (forall d :: d in o'.deliveries <==> d in o.deliveries && !Outlived(o.deliveries[d], success, failure, now))
    && (forall e :: e in o'.events <==> exists d :: d in o'.deliveries && o'.deliveries[d].eventId == e)
    && (forall k :: k in o'.subscriptions <==> (k in o.subscriptions && !(Forgotten(o, k, success, now) && !IsReferred(o', k))))
    && (forall d | d in o'.deliveries :: o'.deliveries[d] == o.deliveries[d])
    && (forall e | e in o'.events :: e in o.events && o'.events[e] == o.events[e])
    && (forall k | k in o'.subscriptions :: o'.subscriptions[k] == o.subscriptions[k])
  }

  lemma CleanUpByAge(o: Outbox, success: int, failure: int, batchSize: int, now: Time)
    requires Inv(o)
    ensures CleanedUp(o, OneShot(o, Cutoffs(success, failure, batchSize, now)), success, failure, now)
  {
    var p := Cutoffs(success, failure, batchSize, now);
    var o' := OneShot(o, p);
    hide Inv, OneShot, NormalizeWorkspace, IsExpired, Outlived, Elapsed, Key, Cutoffs;
    OneShotIsExact(o, p);
    NotPastTheGoal(o, p);
    forall d | d in o.deliveries ensures IsExpired(o.deliveries[d], p) <==> Outlived(o.deliveries[d], success, failure, now) {
      ExpiredByAge(o.deliveries[d], success, failure, batchSize, now);
    }
    forall k ensures k in o'.subscriptions <==> (k in o.subscriptions && !(Forgotten(o, k, success, now) && !IsReferred(o', k))) {
      CutoffByAge(success, failure, batchSize, now);
      assert (exists d :: d in o'.deliveries && KeyOf(o'.deliveries[d]) == k) <==> IsReferred(o', k);
    }
  }

  lemma CutoffByAge(success: int, failure: int, batchSize: int, now: Time)
    ensures var p := Cutoffs(success, failure, batchSize, now); forall t :: p.subscriptionBefore != 0 && t < p.subscriptionBefore <==> Elapsed(t, success, now)
  {}

  lemma ExpiredByAge(d: Delivery, success: int, failure: int, batchSize: int, now: Time)
    ensures IsExpired(d, Cutoffs(success, failure, batchSize, now)) <==> Outlived(d, success, failure, now)
  {}

  lemma NotPastTheGoal(o: Outbox, p: Policy)
    ensures var goal := OneShot(o, p); forall d | d in goal.deliveries :: d in o.deliveries && o.deliveries[d] == goal.deliveries[d]
    ensures OneShot(o, p).events.Keys <= o.events.Keys
  {}

  lemma NothingTaken(o: Outbox, drop: Drop)
    requires drop == NOTHING
    ensures Without(o, drop) == o
  {}

  lemma SizesAfter(o: Outbox, p: Policy, drop: Drop)
    requires IsBatch(o, p, drop)
    ensures var o' := Without(o, drop);
      && |o'.deliveries| + |drop.deliveries| == |o.deliveries| && |o'.events| + |drop.events| == |o.events|
      && |o'.subscriptions| + |drop.subscriptions| == |o.subscriptions|
  {}
}
