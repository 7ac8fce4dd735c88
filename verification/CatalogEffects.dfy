/** What each operation of the catalog leaves, record by record and field by field (internal/catalog, internal/state/local_catalog.go). */
module CatalogEffects {
  import opened Wrappers
  import opened Text
  import opened CatalogModel
  import opened CatalogInvariant
  import opened CatalogImport

  // Publishing.

  /** The first of these that is not blank. */
  predicate IsSource(source: string, gitSourceId: string, app: string) {
    source == if Trim(gitSourceId) != "" then Trim(gitSourceId) else if Trim(app) != "" then Trim(app) else "local"
  }

  /** The deployment as it is filed: with defaults for what is blank and a time for what has none. */
  predicate IsFiled(e: Deployment, d: Deployment, at: Time) {
    && e == d.(tag := e.tag, timeoutS := e.timeoutS, scriptLang := e.scriptLang, updatedAt := e.updatedAt, actions := e.actions)
    && e.tag == (if d.tag == "" then "default" else d.tag) && e.timeoutS == (if d.timeoutS == 0 then 300 else d.timeoutS)
    && e.scriptLang == (if d.scriptLang == "" then "typescript" else d.scriptLang)
    && e.updatedAt == (if d.updatedAt.None? then Some(at) else d.updatedAt)
    && e.actions.Keys == d.actions.Keys
    && forall a | a in d.actions :: e.actions[a] == d.actions[a].(updatedAt := if d.actions[a].updatedAt.None? then Some(at) else d.actions[a].updatedAt)
  }

  function OrElse(value: Option<string>, otherwise: string): string {
    if value.Some? && Trim(value.value) != "" then Trim(value.value) else otherwise
  }

  /** The release that is recorded of it. */
  predicate IsRecord(r: Release, e: Deployment, id: ReleaseId, at: Time) {
    && r.id == id && r.workspace == NormalizeWorkspace(e.workspace) && IsSource(r.gitSourceId, e.gitSourceId, e.app) && r.app == e.app
    && r.commit == e.commit && r.source == (if Trim(e.source) == "" then "external_sync" else Trim(e.source))
    && r.deploymentId == e.deploymentId && r.message == e.message && r.createdBy == e.createdBy && r.deployment == e && r.createdAt == at
  }

  // What the event of a publication must carry.
  predicate IsComplete(d: Deployment, id: ReleaseId, at: Time) {
    at != 0 && Trim(d.app) != "" && Trim(id) != "" && Trim(d.commit) != ""
  }

  lemma SourceFields(gitSourceId: string, app: string)
    ensures IsSource(GitSource(gitSourceId, app), gitSourceId, app)
  {
    hide Trim;
    var a, b := Trim(gitSourceId), Trim(app);
    assert [a, b, "local"] == [a] + ([b] + (["local"] + []));
    FirstOrRest(a, [b, "local"]);
    FirstOrRest(b, ["local"]);
    FirstOrRest("local", []);
  }

  lemma FiledFields(d: Deployment, releasedAt: Time, now: Time)
    ensures var e := Published(d, releasedAt, now);
      IsFiled(e, d, if releasedAt == 0 then now else releasedAt) && e.workspace == d.workspace && e.app == d.app && e.commit == d.commit
  {}

  lemma RecordFields(e: Deployment, id: ReleaseId, at: Time)
    ensures var r := NewRelease(e, id, at);
      && IsRecord(r, e, id, at) && (ValidEvent(r) <==> IsComplete(e, id, at))
      && r.workspace == NormalizeWorkspace(e.workspace) && r.gitSourceId == SourceOf(e)
      && ReleaseAudit(r) == Audit(id, r.workspace, r.gitSourceId, r.app, "release_published", OrElse(e.message, "commit " + e.commit),
                                  OrElse(e.createdBy, "system"), at)
  {
    SourceFields(e.gitSourceId, e.app);
    hide Trim, NormalizeWorkspace;
  }

  /**
   * Publishing files the deployment under its key, points at the release it
   * records, notes both in the audit trail, and marks the source with the
   * commit; whatever was there before stays.
   */
  lemma PublishExactly(c: Catalog, d: Deployment, releasedAt: Time, id: ReleaseId, now: Time)
    requires Agree(c) && FreshId(c, id)
    ensures var at := if releasedAt == 0 then now else releasedAt;
      var step := Publish(c, d, releasedAt, id, now);
      && (step.Success? <==> IsComplete(d, id, at)) && (step.Failure? ==> step.error == InvalidEvent)
    ensures Publish(c, d, releasedAt, id, now).Success? ==>
      var at := if releasedAt == 0 then now else releasedAt;
      var c', k := Publish(c, d, releasedAt, id, now).value, NormalizeWorkspace(d.workspace) + "/" + d.app;
      && k in c'.deployments && |c'.history| == |c.history| + 1 && |c'.audit| == |c.audit| + 1
      && var e, r, a := c'.deployments[k], c'.history[|c.history|], c'.audit[|c.audit|];
        && IsFiled(e, d, at) && IsRecord(r, e, id, at)
        && a == Audit(id, r.workspace, r.gitSourceId, r.app, "release_published", OrElse(e.message, "commit " + e.commit), OrElse(e.createdBy, "system"), at)
        && c' == Catalog(c.deployments[k := e], c.active[k := id], c.candidates, c.history + [r], c.audit + [a],
                         c.markers[r.workspace + "/" + r.gitSourceId := Marker(r.workspace, r.gitSourceId, e.commit, at)])
  {
    NormalizeIsIdentity(c);
    var at := if releasedAt == 0 then now else releasedAt;
    var e := Published(d, releasedAt, now);
    FiledFields(d, releasedAt, now);
    RecordFields(e, id, at);
    NormalizeTwice(d.workspace);
    hide NormalizeWorkspace, Trim, Normalize, Agree, Published, SourceOf, IsFiled, IsRecord, NewRelease, ReleaseAudit, FreshId;
    if Publish(c, d, releasedAt, id, now).Success? {
      PublishKeeps(c, d, releasedAt, id, now);
      PublishCommits(c, d, releasedAt, id, now);
    }
  }

  lemma PublishCommits(c: Catalog, d: Deployment, releasedAt: Time, id: ReleaseId, now: Time)
    requires Agree(c) && FreshId(c, id) && Normalize(c) == c && Publish(c, d, releasedAt, id, now).Success?
    ensures var at := if releasedAt == 0 then now else releasedAt;
      var c', e := Publish(c, d, releasedAt, id, now).value, Published(d, releasedAt, now);
      var r, w := NewRelease(e, id, at), NormalizeWorkspace(e.workspace);
      && c'.history == c.history + [r] && c'.audit == c.audit + [ReleaseAudit(r)]
      && c'.markers == c.markers[SourceKey(w, SourceOf(e)) := Marker(w, SourceOf(e), e.commit, at)]
  {
    hide NormalizeWorkspace, Trim, Backfilled, DefaultAll, Agree, FreshId;
  }

  // Rolling back.

  // The record a request names, in its own workspace and app.
  predicate Asks(request: Request, r: Release) {
    NormalizeWorkspace(r.workspace) == NormalizeWorkspace(request.workspace) && r.app == Trim(request.app) && r.id == Trim(request.releaseId)
  }

  predicate SaysAll(request: Request) {
    Trim(request.app) != "" && Trim(request.releaseId) != "" && Trim(request.actor) != "" && Trim(request.reason) != ""
  }

  // What the event of a rollback must carry.
  predicate CanBeTold(c: Catalog, k: Key, r: Release, at: Time) {
    at != 0 && Trim(r.commit) != "" && Trim(r.id) != "" && k in c.active && Trim(c.active[k]) != "" && k in c.deployments && Trim(c.deployments[k].commit) != ""
  }

  /** Where a record's release came from: as recorded, else as deployed. */
  predicate CameFrom(source: string, r: Release) {
    if Trim(r.gitSourceId) != "" then source == Trim(r.gitSourceId) else IsSource(source, r.deployment.gitSourceId, r.deployment.app)
  }

  /** What a rollback leaves: the pointer and deployment of one key, one audit record and one marker. */
  predicate Restores(c: Catalog, c': Catalog, request: Request, auditId: string, at: Time, r: Release, e: Deployment, source: string) {
    var w := NormalizeWorkspace(request.workspace);
    var k := w + "/" + Trim(request.app);
    && r in c.history && Asks(request, r) && CameFrom(source, r) && k in c.active && c.active[k] != r.id
    && e == r.deployment.(tag := e.tag, timeoutS := e.timeoutS, scriptLang := e.scriptLang)
    && c' == Catalog(c.deployments[k := e], c.active[k := r.id], c.candidates, c.history,
         c.audit + [Audit(auditId, w, source, Trim(request.app), "release_rolled_back",
                          "active release " + Trim(c.active[k]) + " -> " + r.id + "; reason: " + Trim(request.reason), Trim(request.actor), at)],
         c.markers[w + "/" + source := Marker(w, source, r.commit, at)])
  }

  lemma CameFromFields(r: Release)
    ensures CameFrom(ReleaseSource(r), r)
  {
    SourceFields(r.deployment.gitSourceId, r.deployment.app);
    hide Trim;
    var a, b := Trim(r.gitSourceId), Trim(SourceOf(r.deployment));
    FirstOrRest(a, [b]);
    FirstOrRest(b, []);
    assert [a, b] == [a] + ([b] + []);
    SourceIsTrimmed(r.deployment.gitSourceId, r.deployment.app);
  }

  lemma SourceIsTrimmed(gitSourceId: string, app: string)
    ensures Trim(GitSource(gitSourceId, app)) == GitSource(gitSourceId, app) != ""
  {
    SourceFields(gitSourceId, app);
    TrimTwice(gitSourceId);
    TrimTwice(app);
    assert Trim("local") == "local";
    hide Trim, GitSource;
  }

  // The checks of a rollback, in their order, for the record it names.
  predicate Refuses(c: Catalog, request: Request, at: Time, k: Key, r: Release, e: CatalogError) {
    if k in c.active && c.active[k] == r.id then e == AlreadyActive else e == InvalidEvent && !CanBeTold(c, k, r, at)
  }

  lemma FoundIsAsked(c: Catalog, request: Request, now: Time)
    ensures var q := Prepared(request, now); var found := FindRelease(c.history, q.workspace, q.app, q.releaseId);
      && (found.Some? ==> found.value in c.history && Asks(request, found.value))
      && (found.None? ==> forall r | r in c.history :: !Asks(request, r))
      && (Complete(q) <==> SaysAll(request))
  {
    var q := Prepared(request, now);
    FindReleaseFinds(c.history, q.workspace, q.app, q.releaseId);
    NormalizeTwice(request.workspace);
    TrimTwice(request.app);
    TrimTwice(request.releaseId);
    hide Trim, NormalizeWorkspace, FindRelease;
    forall r ensures IsRelease(r, q.workspace, q.app, q.releaseId) <==> Asks(request, r) {}
    hide IsRelease, Asks;
  }

  /** A rollback is refused when something is not said or there is no such record. */
  lemma RollbackNeedsRecord(c: Catalog, request: Request, auditId: string, now: Time)
    requires Agree(c)
    ensures var step := Rollback(c, request, auditId, now);
      && (!SaysAll(request) ==> step == Failure(InvalidRollback))
      && (SaysAll(request) && (forall r | r in c.history :: !Asks(request, r)) ==> step == Failure(ReleaseNotFound))
  {
    NormalizeIsIdentity(c);
    FoundIsAsked(c, request, now);
    hide Trim, NormalizeWorkspace, FindRelease, Agree, Normalize, Asks, SaysAll, Complete, Switched;
  }

  /** With a record named, it goes ahead exactly when that record is not active already and the event can tell what happens. */
  lemma RollbackRefusedExactly(c: Catalog, request: Request, auditId: string, now: Time, r: Release)
    requires Agree(c) && SaysAll(request) && r in c.history && Asks(request, r)
    ensures var step := Rollback(c, request, auditId, now);
      var k := NormalizeWorkspace(request.workspace) + "/" + Trim(request.app);
      var at := if request.rolledBackAt == 0 then now else request.rolledBackAt;
      && (step.Success? <==> !(k in c.active && c.active[k] == r.id) && CanBeTold(c, k, r, at))
      && (step.Failure? ==> Refuses(c, request, at, k, r, step.error))
  {
    NormalizeIsIdentity(c);
    FoundIsAsked(c, request, now);
    NormalizeTwice(request.workspace);
    var q := Prepared(request, now);
    var found := FindRelease(c.history, q.workspace, q.app, q.releaseId);
    assert found == Some(r) by { hide Trim, NormalizeWorkspace, FindRelease; IdsAreUnique(c.history, found.value, r); }
    assert Trim("") == "" && RecordOk(r) && r.id != "";
    var k := NormalizeWorkspace(request.workspace) + "/" + Trim(request.app);
    assert k in c.active <==> k in c.deployments;
    hide Trim, NormalizeWorkspace, FindRelease, Agree, Normalize, Asks, SaysAll, Complete, Switched, RecordOk, RollbackAudit, RollbackMarker;
    assert Refusal(c, q) == if PreviousId(c, k) == r.id then Some(AlreadyActive) else if !CanBeTold(c, k, r, q.rolledBackAt) then Some(InvalidEvent) else None;
  }

  /** What a rollback that goes ahead leaves. */
  lemma RollbackExactly(c: Catalog, request: Request, auditId: string, now: Time)
    requires Agree(c) && Rollback(c, request, auditId, now).Success?
    ensures var at := if request.rolledBackAt == 0 then now else request.rolledBackAt;
      exists r, e, source :: Restores(c, Rollback(c, request, auditId, now).value, request, auditId, at, r, e, source)
  {
    NormalizeIsIdentity(c);
    FoundIsAsked(c, request, now);
    NormalizeTwice(request.workspace);
    var q := Prepared(request, now);
    var r := FindRelease(c.history, q.workspace, q.app, q.releaseId).value;
    var k := DeploymentKey(request.workspace, Trim(request.app));
    RollbackTarget(c, request, now);
    var target :| IsTarget(c, request, now, k, target);
    RefusalOfActive(c, request, now, k, target);
    var a, m := RollbackAudit(r, PreviousId(c, k), q, auditId), RollbackMarker(r, q);
    CameFromFields(r);
    PreviousIsTold(c, request, now);
    hide Trim, NormalizeWorkspace, FindRelease, Agree, Normalize, Asks, Refusal, Switched, CameFrom, ReleaseSource, KeyOf, NormalizedKey;
    SwitchAgrees(c, k, r, a, m);
    assert Restores(c, Rollback(c, request, auditId, now).value, request, auditId,
                    if request.rolledBackAt == 0 then now else request.rolledBackAt, r, Defaults(r.deployment), ReleaseSource(r));
  }

  lemma PreviousIsTold(c: Catalog, request: Request, now: Time)
    requires Refusal(c, Prepared(request, now)).None?
    ensures Trim(PreviousId(c, DeploymentKey(request.workspace, Trim(request.app)))) != ""
  {
    NormalizeTwice(request.workspace);
    hide Trim, NormalizeWorkspace, FindRelease;
  }

  // Overrides.

  /** An app's override is set exactly where there is a deployment, and only the override and its time change. */
  lemma AppTagExactly(c: Catalog, workspace: string, app: string, tag: Option<string>, now: Time)
    requires Agree(c)
    ensures var k := NormalizeWorkspace(workspace) + "/" + app;
      SetAppTag(c, workspace, app, tag, now) ==
        if k in c.deployments then Success(c.(deployments := c.deployments[k := c.deployments[k].(tagOverride := tag, updatedAt := Some(now))]))
        else Failure(DeploymentNotFound)
  {
    NormalizeIsIdentity(c);
    hide NormalizeWorkspace, Normalize, Agree;
    var k := DeploymentKey(workspace, app);
    if k in c.deployments { TagKeeps(c, k, c.deployments[k].(tagOverride := tag, updatedAt := Some(now))); }
  }

  /** And an action's exactly where there is the action. */
  lemma ActionTagExactly(c: Catalog, workspace: string, app: string, action: string, tag: Option<string>, now: Time)
    requires Agree(c)
    ensures var k := NormalizeWorkspace(workspace) + "/" + app;
      SetActionTag(c, workspace, app, action, tag, now) ==
        if k !in c.deployments then Failure(DeploymentNotFound)
        else if action !in c.deployments[k].actions then Failure(ActionNotFound)
        else
          var d := c.deployments[k];
          Success(c.(deployments := c.deployments[k := d.(actions := d.actions[action := d.actions[action].(tagOverride := tag, updatedAt := Some(now))])]))
  {
    NormalizeIsIdentity(c);
    hide NormalizeWorkspace, Normalize, Agree, Bare;
    var k := DeploymentKey(workspace, app);
    if k in c.deployments && action in c.deployments[k].actions {
      BareActionTagged(c.deployments[k], action, tag, now);
      TagKeeps(c, k, ActionTagged(c.deployments[k], action, tag, now));
    }
  }

  // Pointers that are missing.

  /** The record could have been published as the deployment: by their identifiers if both have one, else by commit and bundle. */
  predicate CouldBe(d: Deployment, r: Release) {
    if d.deploymentId.Some? && r.deploymentId.Some? then d.deploymentId == r.deploymentId && Trim(d.deploymentId.value) != ""
    else d.commit == r.commit && d.bundleDigest == r.deployment.bundleDigest
  }

  // The h-th record is of the key and could be the deployment, and no later one is.
  predicate IsLast(history: seq<Release>, k: Key, d: Deployment, h: int) {
    && 0 <= h < |history| && NormalizeWorkspace(history[h].workspace) + "/" + history[h].app == k && CouldBe(d, history[h])
    && forall i | h < i < |history| :: NormalizeWorkspace(history[i].workspace) + "/" + history[i].app == k ==> !CouldBe(d, history[i])
  }

  lemma {:induction false} LastMatchFields(history: seq<Release>, k: Key, d: Deployment)
    ensures LastMatch(history, k, d).Some? ==> exists h :: IsLast(history, k, d, h) && LastMatch(history, k, d) == Some(history[h].id)
    ensures LastMatch(history, k, d).None? ==> forall i | 0 <= i < |history| :: NormalizeWorkspace(history[i].workspace) + "/" + history[i].app == k ==> !CouldBe(d, history[i])
  {
    hide NormalizeWorkspace, Trim;
    if history != [] {
      var front, last := history[..|history| - 1], history[|history| - 1];
      assert KeyOf(last) == NormalizeWorkspace(last.workspace) + "/" + last.app && (Matches(d, last) <==> CouldBe(d, last));
      hide Matches, CouldBe;
      if KeyOf(last) == k && Matches(d, last) {
        assert IsLast(history, k, d, |history| - 1);
      } else {
        LastMatchFields(front, k, d);
        if LastMatch(front, k, d).Some? {
          var h :| IsLast(front, k, d, h) && LastMatch(front, k, d) == Some(front[h].id);
          assert history[h] == front[h];
          assert IsLast(history, k, d, h);
        }
      }
    }
  }

  // The deployment with defaults for what is blank.
  predicate IsDefaulted(e: Deployment, d: Deployment) {
    && e == d.(tag := e.tag, timeoutS := e.timeoutS, scriptLang := e.scriptLang)
    && e.tag == (if d.tag == "" then "default" else d.tag) && e.timeoutS == (if d.timeoutS == 0 then 300 else d.timeoutS)
    && e.scriptLang == (if d.scriptLang == "" then "typescript" else d.scriptLang)
  }

  /**
   * Normalising fills in defaults, and points a deployment whose pointer is
   * missing or blank at the last record of its key that could be it, if there
   * is one; every other pointer and record stays.
   */
  lemma NormalizeExactly(c: Catalog, n: Catalog, k: Key)
    requires n == Normalize(c)
    ensures n == c.(deployments := n.deployments, active := n.active) && n.deployments.Keys == c.deployments.Keys
    ensures k in c.deployments ==> IsDefaulted(n.deployments[k], c.deployments[k])
    ensures k in n.deployments && (k !in c.active || Trim(c.active[k]) == "") && (exists h :: IsLast(c.history, k, n.deployments[k], h)) ==>
      k in n.active && exists h :: IsLast(c.history, k, n.deployments[k], h) && n.active[k] == c.history[h].id
    ensures !(k in n.deployments && (k !in c.active || Trim(c.active[k]) == "") && exists h :: IsLast(c.history, k, n.deployments[k], h)) ==>
      (k in n.active <==> k in c.active) && (k in c.active ==> n.active[k] == c.active[k])
  {
    hide LastMatch, Trim, IsLast;
    if k in c.deployments {
      var d := Defaults(c.deployments[k]);
      LastMatchFields(c.history, k, d);
      if LastMatch(c.history, k, d).None? {
        forall h ensures !IsLast(c.history, k, d, h) { NotLast(c.history, k, d, h); }
      }
    }
  }

  lemma NotLast(history: seq<Release>, k: Key, d: Deployment, h: int)
    requires forall i | 0 <= i < |history| :: NormalizeWorkspace(history[i].workspace) + "/" + history[i].app == k ==> !CouldBe(d, history[i])
    ensures !IsLast(history, k, d, h)
  {
    hide NormalizeWorkspace, CouldBe;
  }

  // Importing.

  predicate HasId(history: seq<Release>, id: ReleaseId) {
    exists r :: r in history && r.id == id
  }

  /** What is merged in is exactly what the target lacks, map by map and record by record. */
  lemma MergeExactly(t: Catalog, i: Catalog)
    requires Normalize(t) == t && Normalize(i) == i && DistinctIds(i.history)
    ensures var m := Merge(t, i);
      && (forall k :: k in m.deployments <==> k in t.deployments || k in i.deployments)
      && (forall k | k in m.deployments :: m.deployments[k] == if k in t.deployments then t.deployments[k] else i.deployments[k])
      && (forall k :: k in m.active <==> k in t.active || k in i.active)
      && (forall k | k in m.active :: m.active[k] == if k in t.active then t.active[k] else i.active[k])
      && (forall k :: k in m.candidates <==> k in t.candidates || k in i.candidates)
      && (forall k | k in m.candidates :: m.candidates[k] == if k in t.candidates then t.candidates[k] else i.candidates[k])
      && (forall k :: k in m.markers <==> k in t.markers || k in i.markers)
      && (forall k | k in m.markers :: m.markers[k] == if k in t.markers then t.markers[k] else i.markers[k])
      && t.history <= m.history && (forall r :: r in m.history <==> r in t.history || (r in i.history && !HasId(t.history, r.id)))
      && t.audit <= m.audit && (forall a | a in m.audit :: a in t.audit || a in i.audit) && (forall a | a in i.audit :: HasAudit(m.audit, a.id))
  {
    MergeParts(t, i);
    MergeAuditAdds(t.audit, i.audit);
    MergedRecords(t.history, i.history);
    hide Normalize, Merge, MergeReleases, MergeAudit, HasId, DistinctIds, HasAudit;
  }

  lemma {:induction false} MergedRecords(target: seq<Release>, imported: seq<Release>)
    requires DistinctIds(imported)
    ensures var merged := MergeReleases(target, imported);
      && target <= merged
      && (forall r :: r in merged <==> r in target || (r in imported && !HasId(target, r.id)))
  {
    if imported != [] {
      var front, last := imported[..|imported| - 1], imported[|imported| - 1];
      MergedRecords(target, front);
      var sofar := MergeReleases(target, front);
      assert imported == front + [last];
      assert forall r | r in front :: r.id != last.id;
      assert HasRelease(sofar, last.id) <==> HasId(target, last.id) by {
        if r :| r in target && r.id == last.id { assert r in sofar; }
      }
    }
  }

  // Candidates and notes.

  /** The first candidate saved for a commit of a source stays; one without commit or app is refused. */
  lemma CandidateExactly(c: Catalog, d: Deployment, syncedAt: Time, source: string)
    requires Agree(c) && IsSource(source, d.gitSourceId, d.app)
    ensures var step := SaveCandidate(c, d, syncedAt);
      var w := NormalizeWorkspace(d.workspace);
      var k := w + "/" + source + "/" + Trim(d.commit);
      && (step.Success? <==> Trim(d.commit) != "" && Trim(d.app) != "")
      && (step.Success? && k in c.candidates ==> step.value == c)
      && (step.Success? && k !in c.candidates ==>
            && k in step.value.candidates && step.value == c.(candidates := c.candidates[k := step.value.candidates[k]])
            && step.value.candidates[k].syncedAt == syncedAt && step.value.candidates[k].deployment.workspace == w
            && step.value.candidates[k].deployment.gitSourceId == source
            && IsDefaulted(step.value.candidates[k].deployment.(workspace := d.workspace, gitSourceId := d.gitSourceId), d))
  {
    NormalizeIsIdentity(c);
    CandidateFields(d, syncedAt, source);
    hide NormalizeWorkspace, Trim, GitSource, Normalize, CandidateKey, SourceOf, Defaults, DeploymentOk, IsDefaulted, IsSource;
    var prepared := Candidate(Defaults(d).(workspace := NormalizeWorkspace(d.workspace), gitSourceId := SourceOf(d)), syncedAt);
    var k := CandidateKey(prepared.deployment.workspace, prepared.deployment.gitSourceId, d.commit);
    NormalizeIsIdentity(c.(candidates := c.candidates[k := prepared])) by { SameDeployments(c, c.(candidates := c.candidates[k := prepared])); }
  }

  lemma SameDeployments(c: Catalog, c': Catalog)
    requires Agree(c) && c'.deployments == c.deployments && c'.active == c.active
    ensures forall k | k in c'.deployments :: DeploymentOk(c', k)
  {
    hide NormalizeWorkspace, Trim;
    forall k | k in c'.deployments ensures DeploymentOk(c', k) { assert DeploymentOk(c, k); }
  }

  lemma CandidateFields(d: Deployment, syncedAt: Time, source: string)
    requires IsSource(source, d.gitSourceId, d.app)
    ensures var w := NormalizeWorkspace(d.workspace);
      && SourceOf(d) == source && CandidateKey(w, source, d.commit) == w + "/" + source + "/" + Trim(d.commit)
      && IsDefaulted(Defaults(d).(workspace := w, gitSourceId := source).(workspace := d.workspace, gitSourceId := d.gitSourceId), d)
  {
    SourceFields(d.gitSourceId, d.app);
    NormalizeTwice(d.workspace);
    SourceIsTrimmed(d.gitSourceId, d.app);
    OnlySource(source, "");
    hide NormalizeWorkspace, Trim, GitSource;
  }

  lemma OnlySource(source: string, app: string)
    ensures Trim(source) == source != "" ==> GitSource(source, app) == source
  {
    SourceFields(source, app);
  }

  /** A note is appended, with a time and an identifier if it brings none; nothing else changes. */
  lemma AuditExactly(c: Catalog, record: Audit, id: string, now: Time)
    requires Agree(c)
    ensures AppendAudit(c, record, id, now) == Success(c.(audit := c.audit + [
      record.(id := if record.id == "" then id else record.id, createdAt := if record.createdAt == 0 then now else record.createdAt)]))
  {
    NormalizeIsIdentity(c);
    var prepared := record.(id := if record.id == "" then id else record.id, createdAt := if record.createdAt == 0 then now else record.createdAt);
    NormalizeIsIdentity(c.(audit := c.audit + [prepared])) by { assert forall k | k in c.deployments :: DeploymentOk(c, k); hide Trim, NormalizeWorkspace; }
    hide Normalize, Agree;
  }
}
