/** The release catalog inside LocalStore, changed in place (internal/state/local_catalog.go, internal/catalog). */
module CatalogStore {
  import opened Wrappers
  import opened Text
  import opened Sorting
  import opened CatalogModel
  import opened CatalogInvariant
  import opened CatalogImport
  import opened CatalogTraces
  import WebhookModel
  import WebhookInvariant
  import WebhookStore

  ghost predicate Outcome(before: Catalog, step: Step, after: Catalog, err: Option<CatalogError>) {
    match step
    case Success(c) => err.None? && after == c
    case Failure(e) => err == Some(e) && after == before
  }

  // The normalized map holds every deployment of the original, with its defaults, under its own key.
  ghost predicate Refiled(deployments: map<Key, Deployment>, normalized: map<Key, Deployment>) {
    && (forall k | k in deployments :: NormalizedKey(k, deployments[k]) in normalized)
    && (forall n | n in normalized :: exists k :: FiledAs(deployments, k, n, normalized[n]))
  }

  predicate FiledAs(deployments: map<Key, Deployment>, k: Key, n: Key, d: Deployment) {
    k in deployments && NormalizedKey(k, deployments[k]) == n && d == Defaults(deployments[k])
  }

  /** normalizeDeploymentMap, in whatever order the map is walked. */
  method NormalizeDeploymentMap(deployments: map<Key, Deployment>) returns (normalized: map<Key, Deployment>)
    ensures Refiled(deployments, normalized)
    ensures Canonical(deployments) ==> normalized == DefaultAll(deployments)
  {
    hide NormalizeWorkspace, Defaults;
    normalized := map[];
    var todo := deployments.Keys;
    while todo != {}
      invariant todo <= deployments.Keys
      invariant forall k | k in deployments && k !in todo :: NormalizedKey(k, deployments[k]) in normalized
      invariant forall n | n in normalized :: exists k :: k !in todo && FiledAs(deployments, k, n, normalized[n])
      decreases todo
    {
      var k :| k in todo;
      todo := todo - {k};
      var d := Defaults(deployments[k]);
      var filed := NormalizedKey(k, d);
      assert filed == NormalizedKey(k, deployments[k]) by { DefaultsKeepName(deployments[k]); }
      ghost var before := normalized;
      normalized := normalized[filed := d];
      assert FiledAs(deployments, k, filed, d);
      forall n | n in normalized ensures exists j :: j !in todo && FiledAs(deployments, j, n, normalized[n]) {
        if n != filed { var j :| j !in todo + {k} && FiledAs(deployments, j, n, before[n]); }
      }
    }
    if Canonical(deployments) {
      forall k | k in deployments ensures k in normalized && normalized[k] == Defaults(deployments[k]) {
        var j :| FiledAs(deployments, j, k, normalized[k]);
      }
      forall n | n in normalized ensures n in deployments { var j :| FiledAs(deployments, j, n, normalized[n]); }
    }
  }

  lemma DefaultsKeepName(d: Deployment)
    ensures Defaults(d).app == d.app && Defaults(d).workspace == d.workspace
  {
  }

  class LocalCatalog {
    var deployments: map<Key, Deployment>
    var active: map<Key, ReleaseId>
    var candidates: map<string, Candidate>
    var history: seq<Release>
    var audit: seq<Audit>
    var markers: map<string, Marker>
    // The other half of the same stored snapshot.
    const outbox: WebhookStore.LocalOutbox

    ghost function Snap(): Catalog
      reads this
    {
      Catalog(deployments, active, candidates, history, audit, markers)
    }

    ghost predicate Valid()
      reads this, outbox
    {
      Agree(Snap()) && outbox.Valid()
    }

    constructor (outbox: WebhookStore.LocalOutbox)
      requires outbox.Valid()
      ensures Valid() && Snap() == EMPTY && this.outbox == outbox
    {
      deployments, active, candidates, history, audit, markers := map[], map[], map[], [], [], map[];
      this.outbox := outbox;
    }

    constructor Of(c: Catalog, outbox: WebhookStore.LocalOutbox)
      ensures Snap() == c && this.outbox == outbox
    {
      deployments, active, candidates, history, audit, markers := c.deployments, c.active, c.candidates, c.history, c.audit, c.markers;
      this.outbox := outbox;
    }

    /** The backwards search of backfillActiveHistoryIDs. */
    method SearchHistory(k: Key, d: Deployment) returns (id: Option<ReleaseId>)
      ensures id == LastMatch(history, k, d)
    {
      hide NormalizeWorkspace, Trim, Matches;
      var index := |history|;
      assert history[..index] == history;
      while index > 0
        invariant 0 <= index <= |history|
        invariant LastMatch(history, k, d) == LastMatch(history[..index], k, d)
      {
        index := index - 1;
        var r := history[index];
        assert history[..index + 1][..index] == history[..index];
        if KeyOf(r) == k && Matches(d, r) {
          return Some(r.id);
        }
      }
      id := None;
    }

    method BackfillActiveHistoryIds()
      modifies `active
      ensures active == old(active) + Backfilled(deployments, old(active), history)
    {
      hide LastMatch, Trim;
      ghost var filled := Backfilled(deployments, active, history);
      var todo := deployments.Keys;
      while todo != {}
        invariant todo <= deployments.Keys
        invariant active.Keys == old(active.Keys) + (filled.Keys - todo)
        invariant forall k | k in active :: active[k] == if k in filled && k !in todo then filled[k] else old(active)[k]
        decreases todo
      {
        var k :| k in todo;
        assert Blank(active, k) == Blank(old(active), k);
        todo := todo - {k};
        if !Blank(active, k) {
          continue;
        }
        var found := SearchHistory(k, deployments[k]);
        if found.Some? {
          active := active[k := found.value];
        }
      }
      assert forall k | k in filled :: k in deployments;
    }

    /** NormalizeSnapshot: deployments under their own keys, then the pointers that are missing. */
    method NormalizeSnapshot()
      modifies `deployments, `active
      ensures Refiled(old(deployments), deployments) && Canonical(deployments)
      ensures Snap() == Normalize(old(Snap()).(deployments := deployments))
      ensures Canonical(old(deployments)) ==> Snap() == Normalize(old(Snap()))
    {
      deployments := NormalizeDeploymentMap(deployments);
      RefiledIsSettled(old(deployments), deployments);
      hide Refiled, Canonical, Backfilled, Normalize, DefaultAll;
      BackfillActiveHistoryIds();
      FiledAndFilled(old(Snap()), deployments);
    }

    lemma FiledAndFilled(c: Catalog, filed: map<Key, Deployment>)
      requires DefaultAll(filed) == filed
      ensures var n := c.(deployments := filed, active := c.active + Backfilled(filed, c.active, c.history));
        n == Normalize(c.(deployments := filed)) && (filed == DefaultAll(c.deployments) ==> n == Normalize(c))
    {
      hide Backfilled, DefaultAll;
    }

    lemma RefiledIsSettled(before: map<Key, Deployment>, filed: map<Key, Deployment>)
      requires Refiled(before, filed)
      ensures Canonical(filed) && DefaultAll(filed) == filed
    {
      hide NormalizeWorkspace;
      forall n | n in filed ensures NormalizedKey(n, filed[n]) == n && Defaults(filed[n]) == filed[n] {
        var k :| FiledAs(before, k, n, filed[n]);
        DefaultsKeepName(before[k]);
      }
    }

    lemma AgreeIsCanonical(c: Catalog)
      requires Agree(c)
      ensures Canonical(c.deployments)
    {}

    lemma PutIsCanonical(all: map<Key, Deployment>, k: Key, d: Deployment)
      requires Canonical(all)
      requires NormalizedKey(k, d) == k || (k in all && d.app == all[k].app && d.workspace == all[k].workspace)
      ensures Canonical(all[k := d])
    {}

    /** Load: the stored catalog, normalised. */
    method Load()
      requires Agree(Snap())
      modifies `deployments, `active
      ensures Snap() == old(Snap()) == Normalize(old(Snap()))
    {
      AgreeIsCanonical(Snap());
      NormalizeIsIdentity(Snap());
      NormalizeSnapshot();
    }

    lemma StaysValid(before: Catalog, op: Op, now: Time)
      requires Agree(before) && Enabled(before, op) && Snap() == Next(before, op, now) && outbox.Valid()
      ensures Valid()
    {
      hide Agree, Next, Enabled;
      NextAgrees(before, op, now);
    }

    /** What a published deployment needs of the outbox: drawn identifiers, one for each matching subscription. */
    ghost predicate CanFanOut(kind: string, workspace: string, app: string, eventId: string, ids: seq<string>)
      reads outbox
    {
      && eventId !in outbox.events && Distinct(ids)
      && |ids| == |WebhookModel.Matching(outbox.Snap(), workspace, kind, app)|
      && forall i | 0 <= i < |ids| :: ids[i] !in outbox.deliveries
    }

    /** A release and its outbox entries are stored together or not at all. */
    method PublishRelease(d: Deployment, releasedAt: Time, id: ReleaseId, eventId: string, ids: seq<string>, now: Time)
      returns (err: Option<CatalogError>, ghost keys: seq<string>)
      requires Valid() && FreshId(Snap(), id) && CanFanOut(WebhookModel.RELEASE_PUBLISHED, d.workspace, d.app, eventId, ids)
      modifies this, outbox
      ensures Valid() && Outcome(old(Snap()), Publish(old(Snap()), d, releasedAt, id, now), Snap(), err)
      ensures err.Some? ==> outbox.Snap() == old(outbox.Snap())
      ensures err.None? ==>
        var emit := WebhookInvariant.OpEmit(WebhookModel.Envelope(eventId, WebhookModel.RELEASE_PUBLISHED, d.app), d.workspace, keys, ids);
        && WebhookInvariant.Enabled(old(outbox.Snap()), emit, now)
        && outbox.Snap() == WebhookInvariant.Next(old(outbox.Snap()), emit, now)
    {
      ghost var before := Snap();
      Load();
      var at := if releasedAt == 0 then now else releasedAt;
      var published := Stamped(Defaults(d), at);
      var record := NewRelease(published, id, at);
      keys := [];
      if !ValidEvent(record) {
        return Some(InvalidEvent), keys;
      }
      AddRelease(published, record);
      assert Snap() == Publish(before, d, releasedAt, id, now).value by { assert published == Published(d, releasedAt, now); }
      keys := outbox.FanOut(WebhookModel.Envelope(eventId, WebhookModel.RELEASE_PUBLISHED, d.app), d.workspace, ids, now);
      StaysValid(before, OpPublish(d, releasedAt, id), now);
      err := None;
    }

    method AddRelease(published: Deployment, record: Release)
      requires Agree(Snap()) && FreshId(Snap(), record.id) && record == NewRelease(published, record.id, record.createdAt)
      modifies this
      ensures var k := DeploymentKey(NormalizeWorkspace(published.workspace), published.app);
        var c := old(Snap());
        Snap() == Normalize(Catalog(c.deployments[k := published], c.active[k := record.id], c.candidates, c.history + [record],
          c.audit + [ReleaseAudit(record)], c.markers[SourceKey(NormalizeWorkspace(published.workspace), SourceOf(published)) :=
            Marker(NormalizeWorkspace(published.workspace), SourceOf(published), published.commit, record.createdAt)]))
    {
      AgreeIsCanonical(Snap());
      NormalizeTwice(published.workspace);
      var k := DeploymentKey(NormalizeWorkspace(published.workspace), published.app);
      PutIsCanonical(deployments, k, published);
      hide NormalizeWorkspace, Trim, Agree, Normalize, Canonical, ReleaseAudit, SourceOf;
      deployments := deployments[k := published];
      active := active[k := record.id];
      history := history + [record];
      audit := audit + [ReleaseAudit(record)];
      var marker := Marker(NormalizeWorkspace(published.workspace), SourceOf(published), published.commit, record.createdAt);
      markers := markers[SourceKey(marker.workspace, marker.gitSourceId) := marker];
      NormalizeSnapshot();
    }

    method FindRecord(workspace: string, app: string, id: string) returns (found: Option<Release>)
      ensures found == FindRelease(history, workspace, app, id)
    {
      for i := 0 to |history|
        invariant FindRelease(history, workspace, app, id) == FindRelease(history[i..], workspace, app, id)
      {
        assert history[i..][1..] == history[i + 1..];
        if IsRelease(history[i], workspace, app, id) {
          return Some(history[i]);
        }
      }
      found := None;
    }

    method RollbackRelease(request: Request, auditId: string, eventId: string, ids: seq<string>, now: Time)
      returns (err: Option<CatalogError>, ghost keys: seq<string>)
      requires Valid() && CanFanOut(WebhookModel.RELEASE_ROLLED_BACK, request.workspace, Trim(request.app), eventId, ids)
      modifies this, outbox
      ensures Valid() && Outcome(old(Snap()), Rollback(old(Snap()), request, auditId, now), Snap(), err)
      ensures err.Some? ==> outbox.Snap() == old(outbox.Snap())
      ensures err.None? ==>
        var emit := WebhookInvariant.OpEmit(WebhookModel.Envelope(eventId, WebhookModel.RELEASE_ROLLED_BACK, Trim(request.app)), request.workspace, keys, ids);
        && WebhookInvariant.Enabled(old(outbox.Snap()), emit, now)
        && outbox.Snap() == WebhookInvariant.Next(old(outbox.Snap()), emit, now)
    {
      hide Agree, Normalize, Refusal, FindRelease, DeploymentKey, Trim, RollbackAudit, RollbackMarker, Switched, NormalizedKey, NormalizeWorkspace;
      ghost var before := Snap();
      keys := [];
      Load();
      var q := Prepared(request, now);
      var refusal, target, previousId := CheckRollback(q);
      if refusal.Some? {
        return refusal, keys;
      }
      RollbackTarget(before, request, now);
      var k := DeploymentKey(q.workspace, q.app);
      SwitchTo(k, target, RollbackAudit(target, previousId, q, auditId), RollbackMarker(target, q));
      keys := outbox.FanOut(WebhookModel.Envelope(eventId, WebhookModel.RELEASE_ROLLED_BACK, Trim(request.app)), request.workspace, ids, now);
      StaysValid(before, OpRollback(request, auditId), now);
      err := None;
    }

    /** The checks of a rollback, in their order, up to the one its event makes. */
    method CheckRollback(q: Request) returns (refusal: Option<CatalogError>, target: Release, previousId: ReleaseId)
      ensures refusal == Refusal(Snap(), q)
      ensures refusal.None? ==> previousId == PreviousId(Snap(), DeploymentKey(q.workspace, q.app))
      ensures refusal.None? ==> FindRelease(history, q.workspace, q.app, q.releaseId) == Some(target)
    {
      hide DeploymentKey, Trim;
      target := Release("", "", "", "", "", "", None, None, None, Deployment("", "", "", "", None, "", 0, "", None, "", None, None, "", map[], None), 0);
      previousId := "";
      if !Complete(q) {
        return Some(InvalidRollback), target, previousId;
      }
      var found := FindRecord(q.workspace, q.app, q.releaseId);
      if found.None? {
        return Some(ReleaseNotFound), target, previousId;
      }
      target := found.value;
      var k := DeploymentKey(q.workspace, q.app);
      previousId := if k in active then active[k] else "";
      if previousId == target.id {
        return Some(AlreadyActive), target, previousId;
      }
      var previousCommit := if k in deployments then deployments[k].commit else "";
      if q.rolledBackAt == 0 || Trim(target.commit) == "" || Trim(target.id) == "" || Trim(previousId) == "" || Trim(previousCommit) == "" {
        return Some(InvalidEvent), target, previousId;
      }
      refusal := None;
    }

    method SwitchTo(k: Key, target: Release, record: Audit, marker: Marker)
      requires Agree(Snap()) && NormalizedKey(k, target.deployment) == k
      modifies this
      ensures Snap() == Normalize(Switched(old(Snap()), k, target, record, marker))
    {
      AgreeIsCanonical(Snap());
      PutIsCanonical(deployments, k, target.deployment);
      hide SourceKey, NormalizedKey, Agree, Normalize, Canonical;
      deployments := deployments[k := target.deployment];
      active := active[k := target.id];
      markers := markers[SourceKey(marker.workspace, marker.gitSourceId) := marker];
      audit := audit + [record];
      NormalizeSnapshot();
    }

    method SetAppTagOverride(workspace: string, app: string, tag: Option<string>, now: Time) returns (err: Option<CatalogError>)
      requires Valid()
      modifies this
      ensures Valid() && Outcome(old(Snap()), SetAppTag(old(Snap()), workspace, app, tag, now), Snap(), err)
    {
      hide Agree, Normalize, NormalizeWorkspace, Bare, ActionTagged;
      ghost var before := Snap();
      Load();
      var k := DeploymentKey(workspace, app);
      if k !in deployments {
        return Some(DeploymentNotFound);
      }
      BareAppTagged(deployments[k], tag, now);
      Retag(k, deployments[k].(tagOverride := tag, updatedAt := Some(now)));
      StaysValid(before, OpAppTag(workspace, app, tag), now);
      err := None;
    }

    lemma BareAppTagged(d: Deployment, tag: Option<string>, now: Time)
      ensures Bare(d.(tagOverride := tag, updatedAt := Some(now))) == Bare(d)
    {
    }

    method Retag(k: Key, d: Deployment)
      requires Agree(Snap()) && k in deployments && Bare(d) == Bare(deployments[k])
      modifies this
      ensures Snap() == Normalize(old(Snap()).(deployments := old(Snap()).deployments[k := d]))
    {
      hide Bare, Agree, Normalize, Canonical, NormalizedKey, NormalizeWorkspace, Refiled, Defaults;
      AgreeIsCanonical(Snap());
      BareKeepsIdentity(d, deployments[k]);
      PutIsCanonical(deployments, k, d);
      deployments := deployments[k := d];
      NormalizeSnapshot();
    }

    method SetActionTagOverride(workspace: string, app: string, action: string, tag: Option<string>, now: Time) returns (err: Option<CatalogError>)
      requires Valid()
      modifies this
      ensures Valid() && Outcome(old(Snap()), SetActionTag(old(Snap()), workspace, app, action, tag, now), Snap(), err)
    {
      hide Agree, Normalize, NormalizeWorkspace, Bare, ActionTagged;
      ghost var before := Snap();
      Load();
      var k := DeploymentKey(workspace, app);
      if k !in deployments {
        return Some(DeploymentNotFound);
      }
      if action !in deployments[k].actions {
        return Some(ActionNotFound);
      }
      BareActionTagged(deployments[k], action, tag, now);
      Retag(k, ActionTagged(deployments[k], action, tag, now));
      StaysValid(before, OpActionTag(workspace, app, action, tag), now);
      err := None;
    }

    /** MergeSnapshot; `filed` is the imported map with every deployment under its own key. */
    method MergeSnapshot(imported: Catalog) returns (ghost filed: map<Key, Deployment>)
      requires Canonical(deployments) && Normalize(Snap()) == Snap()
      modifies this
      ensures Refiled(imported.deployments, filed) && Canonical(deployments)
      ensures Snap() == Merge(old(Snap()), imported.(deployments := filed))
      ensures Canonical(imported.deployments) ==> Snap() == Merge(old(Snap()), imported)
    {
      ghost var before := Snap();
      var other := new LocalCatalog.Of(imported, outbox);
      other.NormalizeSnapshot();
      filed := other.deployments;
      var i := Catalog(other.deployments, other.active, other.candidates, other.history, other.audit, other.markers);
      UnionIsCanonical(deployments, filed);
      MergedFrom(before, imported.(deployments := filed), i);
      MergedFrom(before, imported, i);
      hide Normalize, Canonical, Refiled, Merge;
      TakeMissing(i);
    }

    /** The loops of MergeSnapshot: from each map and list what is not there yet. */
    method TakeMissing(i: Catalog)
      modifies this
      ensures var t := old(Snap());
        Snap() == Catalog(i.deployments + t.deployments, i.active + t.active, i.candidates + t.candidates,
                          MergeReleases(t.history, i.history), MergeAudit(t.audit, i.audit), i.markers + t.markers)
    {
      hide MergeReleases, MergeAudit;
      deployments := AddMissing(deployments, i.deployments);
      active := AddMissing(active, i.active);
      candidates := AddMissing(candidates, i.candidates);
      MergeHistory(i.history);
      MergeAuditTrail(i.audit);
      markers := AddMissing(markers, i.markers);
    }

    lemma MergedFrom(t: Catalog, imported: Catalog, i: Catalog)
      requires Normalize(t) == t
      ensures Normalize(imported) == i ==>
        Merge(t, imported) == Catalog(i.deployments + t.deployments, i.active + t.active, i.candidates + t.candidates,
                                      MergeReleases(t.history, i.history), MergeAudit(t.audit, i.audit), i.markers + t.markers)
    {
      hide Normalize;
    }

    /** The merge and the normalisation that commits it, whatever the imported catalog holds. */
    method ImportCatalog(imported: Catalog, now: Time) returns (ghost filed: map<Key, Deployment>)
      requires Valid()
      modifies this
      ensures Refiled(imported.deployments, filed)
      ensures Snap() == Import(old(Snap()), imported.(deployments := filed))
      ensures Canonical(imported.deployments) ==> Snap() == Import(old(Snap()), imported)
      ensures Agree(imported) && Consistent(old(Snap()), imported) ==> Valid()
    {
      ghost var before := Snap();
      Load();
      AgreeIsCanonical(Snap());
      if Agree(imported) { AgreeIsCanonical(imported); }
      hide Agree, Normalize, Consistent, Canonical, Refiled, Merge;
      filed := MergeSnapshot(imported);
      NormalizeSnapshot();
      if Agree(imported) && Consistent(before, imported) { ImportKeeps(before, imported); }
    }

    lemma UnionIsCanonical(target: map<Key, Deployment>, imported: map<Key, Deployment>)
      requires Canonical(target) && Canonical(imported)
      ensures Canonical(imported + target)
    {}

    method MergeHistory(imported: seq<Release>)
      modifies `history
      ensures history == MergeReleases(old(history), imported)
    {
      var ids := set r | r in history :: r.id;
      for i := 0 to |imported|
        invariant history == MergeReleases(old(history), imported[..i])
        invariant forall id :: id in ids <==> HasRelease(history, id)
      {
        assert imported[..i + 1][..i] == imported[..i];
        if imported[i].id !in ids {
          ghost var sofar := history;
          history := history + [imported[i]];
          ids := ids + {imported[i].id};
          forall id ensures id in ids <==> HasRelease(history, id) {
            assert HasRelease(history, id) <==> HasRelease(sofar, id) || id == imported[i].id by {
              assert imported[i] in history;
              assert forall r | r in sofar :: r in history;
            }
          }
        }
      }
      assert imported[..|imported|] == imported;
    }

    method MergeAuditTrail(imported: seq<Audit>)
      modifies `audit
      ensures audit == MergeAudit(old(audit), imported)
    {
      var ids := set a | a in audit :: a.id;
      for i := 0 to |imported|
        invariant audit == MergeAudit(old(audit), imported[..i])
        invariant forall id :: id in ids <==> HasAudit(audit, id)
      {
        assert imported[..i + 1][..i] == imported[..i];
        if imported[i].id !in ids {
          ghost var sofar := audit;
          audit := audit + [imported[i]];
          ids := ids + {imported[i].id};
          forall id ensures id in ids <==> HasAudit(audit, id) {
            assert HasAudit(audit, id) <==> HasAudit(sofar, id) || id == imported[i].id by {
              assert imported[i] in audit;
              assert forall a | a in sofar :: a in audit;
            }
          }
        }
      }
      assert imported[..|imported|] == imported;
    }
  }

  /** The loop of MergeSnapshot over one of its maps. */
  method AddMissing<K(==), V>(target: map<K, V>, imported: map<K, V>) returns (merged: map<K, V>)
    ensures merged == imported + target
  {
    merged := target;
    var todo := imported.Keys;
    while todo != {}
      invariant todo <= imported.Keys
      invariant merged.Keys == target.Keys + (imported.Keys - todo)
      invariant forall k | k in merged :: merged[k] == if k in target then target[k] else imported[k]
      decreases todo
    {
      var k :| k in todo;
      todo := todo - {k};
      if k !in merged {
        merged := merged[k := imported[k]];
      }
    }
  }
}
