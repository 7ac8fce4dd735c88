/** The release catalog: published deployments, their history and the active pointers (internal/catalog). */
module CatalogModel {
  import opened Wrappers
  import opened Text

  // Nanoseconds since Go's zero time, which is 0.
  type Time = int
  type Key = string
  type ReleaseId = string

  datatype Action = Action(name: string, tag: Option<string>, tagOverride: Option<string>, updatedAt: Option<Time>)

  datatype Deployment = Deployment(
    workspace: string, gitSourceId: string, app: string, tag: string, tagOverride: Option<string>, scriptLang: string,
    timeoutS: int, commit: string, message: Option<string>, source: string, deploymentId: Option<string>,
    createdBy: Option<string>, bundleDigest: string, actions: map<string, Action>, updatedAt: Option<Time>)

  // DeploymentHistory.
  datatype Release = Release(
    id: ReleaseId, workspace: string, gitSourceId: string, app: string, commit: string, source: string,
    deploymentId: Option<string>, message: Option<string>, createdBy: Option<string>, deployment: Deployment, createdAt: Time)

  datatype Audit = Audit(
    id: string, workspace: string, gitSourceId: string, app: string, kind: string, detail: string, actor: string, createdAt: Time)

  datatype Marker = Marker(workspace: string, gitSourceId: string, commit: string, releasedAt: Time)

  datatype Candidate = Candidate(deployment: Deployment, syncedAt: Time)

  datatype Catalog = Catalog(
    deployments: map<Key, Deployment>, active: map<Key, ReleaseId>, candidates: map<string, Candidate>,
    history: seq<Release>, audit: seq<Audit>, markers: map<string, Marker>)

  datatype CatalogError = DeploymentNotFound | ActionNotFound | ReleaseNotFound | AlreadyActive | InvalidRollback | InvalidEvent | InvalidCandidate

  type Step = Result<Catalog, CatalogError>

  const EMPTY := Catalog(map[], map[], map[], [], [], map[])

  function DeploymentKey(workspace: string, app: string): Key {
    NormalizeWorkspace(workspace) + "/" + app
  }

  function SourceKey(workspace: string, gitSourceId: string): string {
    NormalizeWorkspace(workspace) + "/" + gitSourceId
  }

  function KeyOf(r: Release): Key {
    DeploymentKey(r.workspace, r.app)
  }

  function GitSource(value: string, app: string): string {
    FirstNonEmpty([Trim(value), Trim(app), "local"])
  }

  function SourceOf(d: Deployment): string {
    GitSource(d.gitSourceId, d.app)
  }

  function TextOf(value: Option<string>): string {
    if value.Some? then Trim(value.value) else ""
  }

  // Normalisation.

  function Defaults(d: Deployment): Deployment {
    d.(tag := if d.tag == "" then "default" else d.tag,
       timeoutS := if d.timeoutS == 0 then 300 else d.timeoutS,
       scriptLang := if d.scriptLang == "" then "typescript" else d.scriptLang)
  }

  /** Where normalizeDeploymentMap files a deployment found under k. */
  function NormalizedKey(k: Key, d: Deployment): Key {
    if d.app == "" then k else DeploymentKey(d.workspace, d.app)
  }

  predicate Canonical(deployments: map<Key, Deployment>) {
    forall k | k in deployments :: NormalizedKey(k, deployments[k]) == k
  }

  predicate Blank(active: map<Key, ReleaseId>, k: Key) {
    k !in active || Trim(active[k]) == ""
  }

  predicate Matches(d: Deployment, r: Release) {
    if d.deploymentId.Some? && r.deploymentId.Some? then
      Trim(d.deploymentId.value) != "" && d.deploymentId.value == r.deploymentId.value
    else
      d.commit == r.commit && (d.bundleDigest == r.deployment.bundleDigest)
  }

  /** The latest record that could have been published as d. */
  function LastMatch(history: seq<Release>, k: Key, d: Deployment): Option<ReleaseId> {
    if history == [] then None
    else
      var r := history[|history| - 1];
      if KeyOf(r) == k && Matches(d, r) then Some(r.id) else LastMatch(history[..|history| - 1], k, d)
  }

  function Backfilled(deployments: map<Key, Deployment>, active: map<Key, ReleaseId>, history: seq<Release>): map<Key, ReleaseId> {
    map k | k in deployments && Blank(active, k) && LastMatch(history, k, deployments[k]).Some? :: LastMatch(history, k, deployments[k]).value
  }

  function Backfill(c: Catalog): Catalog {
    c.(active := c.active + Backfilled(c.deployments, c.active, c.history))
  }

  function DefaultAll(deployments: map<Key, Deployment>): map<Key, Deployment> {
    map k | k in deployments :: Defaults(deployments[k])
  }

  /** NormalizeSnapshot of a catalog whose deployments are filed under their own keys. */
  function Normalize(c: Catalog): Catalog {
    Backfill(c.(deployments := DefaultAll(c.deployments)))
  }

  // Publishing.

  function Stamp(updatedAt: Option<Time>, now: Time): Option<Time> {
    if updatedAt.None? then Some(now) else updatedAt
  }

  /** EnsureDeploymentUpdatedAt. */
  function Stamped(d: Deployment, now: Time): Deployment {
    d.(updatedAt := Stamp(d.updatedAt, now),
       actions := map a | a in d.actions :: d.actions[a].(updatedAt := Stamp(d.actions[a].updatedAt, now)))
  }

  function NewRelease(d: Deployment, id: ReleaseId, createdAt: Time): Release {
    Release(id, NormalizeWorkspace(d.workspace), SourceOf(d), d.app, d.commit,
            if Trim(d.source) == "" then "external_sync" else Trim(d.source), d.deploymentId, d.message, d.createdBy, d, createdAt)
  }

  function ReleaseAudit(r: Release): Audit {
    Audit(r.id, r.workspace, r.gitSourceId, r.app, "release_published",
          if TextOf(r.message) != "" then TextOf(r.message) else "commit " + r.commit,
          if TextOf(r.createdBy) != "" then TextOf(r.createdBy) else "system", r.createdAt)
  }

  /** The check every release event passes before its transaction commits. */
  predicate ValidEvent(r: Release) {
    r.createdAt != 0 && Trim(r.app) != "" && Trim(r.id) != "" && Trim(r.commit) != ""
  }

  function Published(d: Deployment, releasedAt: Time, now: Time): Deployment {
    Stamped(Defaults(d), if releasedAt == 0 then now else releasedAt)
  }

  function Publish(c: Catalog, d: Deployment, releasedAt: Time, id: ReleaseId, now: Time): Step {
    var c1 := Normalize(c);
    var at := if releasedAt == 0 then now else releasedAt;
    var published := Published(d, releasedAt, now);
    var r := NewRelease(published, id, at);
    if !ValidEvent(r) then Failure(InvalidEvent)
    else
      var k := DeploymentKey(NormalizeWorkspace(published.workspace), published.app);
      var marker := Marker(NormalizeWorkspace(published.workspace), SourceOf(published), published.commit, at);
      Success(Normalize(Catalog(
        c1.deployments[k := published], c1.active[k := id], c1.candidates, c1.history + [r], c1.audit + [ReleaseAudit(r)],
        c1.markers[SourceKey(marker.workspace, marker.gitSourceId) := marker])))
  }

  // Rolling back.

  datatype Request = Request(workspace: string, app: string, releaseId: string, actor: string, reason: string, rolledBackAt: Time)

  function Prepared(q: Request, now: Time): Request {
    Request(NormalizeWorkspace(q.workspace), Trim(q.app), Trim(q.releaseId), Trim(q.actor), Trim(q.reason), if q.rolledBackAt == 0 then now else q.rolledBackAt)
  }

  predicate Complete(q: Request) {
    q.app != "" && q.releaseId != "" && q.actor != "" && q.reason != ""
  }

  predicate IsRelease(r: Release, workspace: string, app: string, id: string) {
    NormalizeWorkspace(r.workspace) == NormalizeWorkspace(workspace) && r.app == Trim(app) && r.id == Trim(id)
  }

  /** FindRelease: the first record that fits. */
  function FindRelease(history: seq<Release>, workspace: string, app: string, id: string): Option<Release> {
    if history == [] then None
    else if IsRelease(history[0], workspace, app, id) then Some(history[0])
    else FindRelease(history[1..], workspace, app, id)
  }

  function RollbackAudit(target: Release, previousId: string, q: Request, auditId: string): Audit {
    var shown := if Trim(previousId) == "" then "none" else Trim(previousId);
    Audit(auditId, q.workspace, ReleaseSource(target), q.app, "release_rolled_back",
          "active release " + shown + " -> " + target.id + "; reason: " + q.reason, q.actor, q.rolledBackAt)
  }

  function ReleaseSource(r: Release): string {
    FirstNonEmpty([Trim(r.gitSourceId), Trim(SourceOf(r.deployment))])
  }

  /** The active pointer of k moved to r, with a marker and an audit record to show for it. */
  function Switched(c: Catalog, k: Key, r: Release, a: Audit, m: Marker): Catalog {
    Catalog(c.deployments[k := r.deployment], c.active[k := r.id], c.candidates, c.history, c.audit + [a],
            c.markers[SourceKey(m.workspace, m.gitSourceId) := m])
  }

  function PreviousId(c: Catalog, k: Key): ReleaseId {
    if k in c.active then c.active[k] else ""
  }

  function PreviousCommit(c: Catalog, k: Key): string {
    if k in c.deployments then c.deployments[k].commit else ""
  }

  /** Why a prepared rollback is refused, if it is; the last reason is what the release event's own check finds. */
  function Refusal(c: Catalog, q: Request): Option<CatalogError> {
    if !Complete(q) then Some(InvalidRollback)
    else
      var found := FindRelease(c.history, q.workspace, q.app, q.releaseId);
      var k := DeploymentKey(q.workspace, q.app);
      if found.None? then Some(ReleaseNotFound)
      else if PreviousId(c, k) == found.value.id then Some(AlreadyActive)
      else if q.rolledBackAt == 0 || Trim(found.value.commit) == "" || Trim(found.value.id) == ""
              || Trim(PreviousId(c, k)) == "" || Trim(PreviousCommit(c, k)) == "" then Some(InvalidEvent)
      else None
  }

  function RollbackMarker(target: Release, q: Request): Marker {
    Marker(q.workspace, ReleaseSource(target), target.commit, q.rolledBackAt)
  }

  function Rollback(c: Catalog, request: Request, auditId: string, now: Time): Step {
    var c1, q := Normalize(c), Prepared(request, now);
    if Refusal(c1, q).Some? then Failure(Refusal(c1, q).value)
    else
      var target, k := FindRelease(c1.history, q.workspace, q.app, q.releaseId).value, DeploymentKey(q.workspace, q.app);
      Success(Normalize(Switched(c1, k, target, RollbackAudit(target, PreviousId(c1, k), q, auditId), RollbackMarker(target, q))))
  }

  // Everything else.

  function SetAppTag(c: Catalog, workspace: string, app: string, tag: Option<string>, now: Time): Step {
    var c1 := Normalize(c);
    var k := DeploymentKey(workspace, app);
    if k !in c1.deployments then Failure(DeploymentNotFound)
    else Success(Normalize(c1.(deployments := c1.deployments[k := c1.deployments[k].(tagOverride := tag, updatedAt := Some(now))])))
  }

  function ActionTagged(d: Deployment, action: string, tag: Option<string>, now: Time): Deployment
    requires action in d.actions
  {
    d.(actions := d.actions[action := d.actions[action].(tagOverride := tag, updatedAt := Some(now))])
  }

  function SetActionTag(c: Catalog, workspace: string, app: string, action: string, tag: Option<string>, now: Time): Step {
    var c1 := Normalize(c);
    var k := DeploymentKey(workspace, app);
    if k !in c1.deployments then Failure(DeploymentNotFound)
    else if action !in c1.deployments[k].actions then Failure(ActionNotFound)
    else Success(Normalize(c1.(deployments := c1.deployments[k := ActionTagged(c1.deployments[k], action, tag, now)])))
  }

  function AppendAudit(c: Catalog, record: Audit, id: string, now: Time): Step {
    var prepared := record.(createdAt := if record.createdAt == 0 then now else record.createdAt, id := if record.id == "" then id else record.id);
    var c1 := Normalize(c);
    Success(Normalize(c1.(audit := c1.audit + [prepared])))
  }

  function CandidateKey(workspace: string, gitSourceId: string, commit: string): string {
    NormalizeWorkspace(workspace) + "/" + GitSource(gitSourceId, "") + "/" + Trim(commit)
  }

  /** SaveReleaseCandidate: the first one saved for a commit stays. */
  function SaveCandidate(c: Catalog, d: Deployment, syncedAt: Time): Step {
    if Trim(d.commit) == "" || Trim(d.app) == "" then Failure(InvalidCandidate)
    else
      var prepared := Candidate(Defaults(d).(workspace := NormalizeWorkspace(d.workspace), gitSourceId := SourceOf(d)), syncedAt);
      var k := CandidateKey(prepared.deployment.workspace, prepared.deployment.gitSourceId, d.commit);
      var c1 := Normalize(c);
      Success(if k in c1.candidates then c1 else Normalize(c1.(candidates := c1.candidates[k := prepared])))
  }

  predicate HasRelease(history: seq<Release>, id: ReleaseId) {
    exists r :: r in history && r.id == id
  }

  predicate HasAudit(audit: seq<Audit>, id: string) {
    exists a :: a in audit && a.id == id
  }

  /** The loop that appends the records whose identifier is not yet there. */
  function MergeReleases(target: seq<Release>, imported: seq<Release>): seq<Release> {
    if imported == [] then target
    else
      var sofar, r := MergeReleases(target, imported[..|imported| - 1]), imported[|imported| - 1];
      if HasRelease(sofar, r.id) then sofar else sofar + [r]
  }

  function MergeAudit(target: seq<Audit>, imported: seq<Audit>): seq<Audit> {
    if imported == [] then target
    else
      var sofar, a := MergeAudit(target, imported[..|imported| - 1]), imported[|imported| - 1];
      if HasAudit(sofar, a.id) then sofar else sofar + [a]
  }

  /** MergeSnapshot: whatever the target has stays. */
  function Merge(target: Catalog, imported: Catalog): Catalog {
    var t, i := Normalize(target), Normalize(imported);
    Catalog(i.deployments + t.deployments, i.active + t.active, i.candidates + t.candidates,
            MergeReleases(t.history, i.history), MergeAudit(t.audit, i.audit), i.markers + t.markers)
  }

  function Import(c: Catalog, imported: Catalog): Catalog {
    Normalize(Merge(Normalize(c), imported))
  }

  // What tag overrides and clocks may change, erased.

  function BareActions(actions: map<string, Action>): map<string, Action> {
    map a | a in actions :: actions[a].(tagOverride := None, updatedAt := None)
  }

  function Bare(d: Deployment): Deployment {
    d.(tagOverride := None, updatedAt := None, actions := BareActions(d.actions))
  }

  predicate SameRelease(d: Deployment, e: Deployment) {
    Bare(Defaults(d)) == Bare(Defaults(e))
  }
}

/** The catalog over every sequence of its operations. */
module CatalogInvariant {
  import opened Wrappers
  import opened Text
  import opened CatalogModel

  predicate RecordOk(r: Release) {
    && Trim(r.id) != "" && r.app != "" && r.app == r.deployment.app && r.commit == r.deployment.commit && r.deploymentId == r.deployment.deploymentId
    && NormalizeWorkspace(r.workspace) == NormalizeWorkspace(r.deployment.workspace)
  }

  ghost predicate DistinctIds(history: seq<Release>) {
    forall i, k :: 0 <= i < k < |history| ==> history[i].id != history[k].id
  }

  // The record an active pointer names.
  predicate Names(c: Catalog, k: Key, r: Release)
    requires k in c.active && k in c.deployments
  {
    r in c.history && r.id == c.active[k] && KeyOf(r) == k && SameRelease(c.deployments[k], r.deployment)
  }

  ghost predicate ActiveOk(c: Catalog, k: Key) {
    k in c.active && k in c.deployments && exists r :: Names(c, k, r)
  }

  predicate DeploymentOk(c: Catalog, k: Key)
    requires k in c.deployments
  {
    NormalizedKey(k, c.deployments[k]) == k && Defaults(c.deployments[k]) == c.deployments[k] && !Blank(c.active, k)
  }

  /** Every active pointer names one history record of its own workspace and app, and the deployment is that record's. */
  ghost predicate Agree(c: Catalog) {
    && c.active.Keys == c.deployments.Keys && DistinctIds(c.history)
    && (forall r | r in c.history :: RecordOk(r))
    && (forall k | k in c.active :: ActiveOk(c, k))
    && (forall k | k in c.deployments :: DeploymentOk(c, k))
  }

  /** The catalog is already normal: the normalisation around every operation does nothing to it. */
  lemma NormalizeIsIdentity(c: Catalog)
    requires forall k | k in c.deployments :: DeploymentOk(c, k)
    ensures Normalize(c) == c
  {
    assert DefaultAll(c.deployments) == c.deployments;
    hide LastMatch;
    assert Backfill(c).active == c.active;
  }

  /** Normalising twice is normalising once, whatever the catalog. */
  lemma NormalizeTwiceIsOnce(c: Catalog)
    ensures Normalize(Normalize(c)) == Normalize(c)
  {
    var n := Normalize(c);
    assert DefaultAll(n.deployments) == n.deployments;
    BackfillTwice(n.deployments, c.active, c.history);
  }

  lemma BackfillTwice(deployments: map<Key, Deployment>, active: map<Key, ReleaseId>, history: seq<Release>)
    ensures var filled := active + Backfilled(deployments, active, history); filled + Backfilled(deployments, filled, history) == filled
  {}

  // Agreement but for defaults not yet filled in, as an operation leaves it before it commits.
  ghost predicate Nearly(c: Catalog) {
    && c.active.Keys == c.deployments.Keys && DistinctIds(c.history)
    && (forall r | r in c.history :: RecordOk(r))
    && (forall k | k in c.active :: ActiveOk(c, k))
    && (forall k | k in c.deployments :: NormalizedKey(k, c.deployments[k]) == k && !Blank(c.active, k))
  }

  lemma CommitAgrees(c: Catalog)
    requires Nearly(c)
    ensures Normalize(c) == c.(deployments := DefaultAll(c.deployments)) && Agree(Normalize(c))
  {
    CommitOnlyDefaults(c);
    DefaultsAgree(c, c.(deployments := DefaultAll(c.deployments)));
    hide *;
  }

  lemma DefaultsAgree(c: Catalog, n: Catalog)
    requires Nearly(c) && n == c.(deployments := DefaultAll(c.deployments)) && n.deployments.Keys == c.deployments.Keys
    ensures Agree(n)
  {
    hide ActiveOk, RecordOk, DeploymentOk, Blank, NormalizedKey, DefaultAll, DistinctIds;
    forall k | k in n.active ensures ActiveOk(n, k) { CommitPointer(c, n, k); }
    forall k | k in n.deployments ensures DeploymentOk(n, k) { CommitDeployment(c, n, k); }
  }

  lemma CommitOnlyDefaults(c: Catalog)
    requires forall k | k in c.deployments :: !Blank(c.active, k)
    ensures Normalize(c) == c.(deployments := DefaultAll(c.deployments))
    ensures DefaultAll(c.deployments).Keys == c.deployments.Keys
  {}

  lemma CommitPointer(c: Catalog, n: Catalog, k: Key)
    requires ActiveOk(c, k) && n == c.(deployments := DefaultAll(c.deployments))
    ensures ActiveOk(n, k)
  {
    hide NormalizeWorkspace, Bare;
    var r :| Names(c, k, r);
    assert Names(n, k, r);
  }

  lemma CommitDeployment(c: Catalog, n: Catalog, k: Key)
    requires k in c.deployments && n == c.(deployments := DefaultAll(c.deployments))
    requires NormalizedKey(k, c.deployments[k]) == k && !Blank(c.active, k)
    ensures DeploymentOk(n, k)
  {}

  lemma {:induction false} FindReleaseFinds(history: seq<Release>, workspace: string, app: string, id: string)
    ensures FindRelease(history, workspace, app, id).Some? <==> exists r :: r in history && IsRelease(r, workspace, app, id)
    ensures var found := FindRelease(history, workspace, app, id);
      found.Some? ==> found.value in history && IsRelease(found.value, workspace, app, id)
  {
    if history != [] { FindReleaseFinds(history[1..], workspace, app, id); }
  }

  lemma IdsAreUnique(history: seq<Release>, r: Release, s: Release)
    requires DistinctIds(history) && r in history && s in history && r.id == s.id
    ensures r == s
  {}

  /** Pointing k at a record of its own key keeps agreement. */
  lemma PointKeeps(c: Catalog, c': Catalog, k: Key, r: Release)
    requires Agree(c) && DistinctIds(c'.history) && (forall o | o in c'.history :: RecordOk(o)) && (forall o | o in c.history :: o in c'.history)
    requires c'.deployments == c.deployments[k := r.deployment] && c'.active == c.active[k := r.id]
    requires r in c'.history && KeyOf(r) == k && NormalizedKey(k, r.deployment) == k
    ensures Nearly(c')
  {
    hide RecordOk, DistinctIds, NormalizedKey, ActiveOk, DeploymentOk, Blank, KeyOf;
    forall j | j in c'.active ensures ActiveOk(c', j) {
      if j == k { PointedAt(c', k, r); } else { PointerStays(c, c', j); }
    }
    forall j | j in c'.deployments ensures NormalizedKey(j, c'.deployments[j]) == j && !Blank(c'.active, j) {
      if j == k { RecordIdNotBlank(c', r, k); } else { DeploymentStays(c, c', j); }
    }
  }

  lemma RecordIdNotBlank(c: Catalog, r: Release, k: Key)
    requires RecordOk(r) && k in c.active && c.active[k] == r.id
    ensures !Blank(c.active, k)
  {
  }

  lemma PointedAt(c: Catalog, k: Key, r: Release)
    requires k in c.active && k in c.deployments && r in c.history && r.id == c.active[k] && KeyOf(r) == k && c.deployments[k] == r.deployment
    ensures ActiveOk(c, k)
  {
    assert Names(c, k, r);
  }

  lemma DeploymentStays(c: Catalog, c': Catalog, j: Key)
    requires j in c.deployments && DeploymentOk(c, j) && j in c'.deployments && c'.deployments[j] == c.deployments[j]
    requires j in c.active && j in c'.active && c'.active[j] == c.active[j]
    ensures NormalizedKey(j, c'.deployments[j]) == j && !Blank(c'.active, j)
  {
  }

  /** A pointer whose deployment stays put goes on naming its record as the history grows. */
  lemma PointerStays(c: Catalog, c': Catalog, j: Key)
    requires ActiveOk(c, j) && (forall o | o in c.history :: o in c'.history)
    requires j in c'.active && c'.active[j] == c.active[j] && j in c'.deployments && c'.deployments[j] == c.deployments[j]
    ensures ActiveOk(c', j)
  {
    hide KeyOf, SameRelease;
    var o :| Names(c, j, o);
    assert Names(c', j, o);
  }

  /** A release identifier not drawn before. */
  ghost predicate FreshId(c: Catalog, id: ReleaseId) {
    forall r | r in c.history :: r.id != id
  }

  /** Publishing files the release under its key, points at it and appends it to the history. */
  lemma PublishKeeps(c: Catalog, d: Deployment, releasedAt: Time, id: ReleaseId, now: Time)
    requires Agree(c) && FreshId(c, id) && Publish(c, d, releasedAt, id, now).Success?
    ensures var c' := Publish(c, d, releasedAt, id, now).value; var k := DeploymentKey(d.workspace, d.app);
      && Agree(c') && |c'.history| == |c.history| + 1 && c.history < c'.history
      && c'.history[|c.history|].id == id && c'.history[|c.history|].deployment == Published(d, releasedAt, now)
      && c'.deployments == c.deployments[k := Published(d, releasedAt, now)] && c'.active == c.active[k := id] && c'.candidates == c.candidates
      && |c'.audit| == |c.audit| + 1 && c.audit < c'.audit && c'.audit[|c.audit|].id == id
  {
    NormalizeIsIdentity(c);
    var published := Published(d, releasedAt, now);
    var r := NewRelease(published, id, if releasedAt == 0 then now else releasedAt);
    NormalizeTwice(published.workspace);
    hide NormalizeWorkspace, Trim, LastMatch, Normalize;
    var k := DeploymentKey(d.workspace, d.app);
    var raw := Catalog(c.deployments[k := published], c.active[k := id], c.candidates, c.history + [r], c.audit + [ReleaseAudit(r)],
                       Publish(c, d, releasedAt, id, now).value.markers);
    PublishedRecord(d, releasedAt, id, now);
    assert DistinctIds(raw.history);
    PointKeeps(c, raw, k, r);
    CommitAgrees(raw);
    SettledDeployments(c, k, published);
  }

  lemma PublishedRecord(d: Deployment, releasedAt: Time, id: ReleaseId, now: Time)
    ensures var published := Published(d, releasedAt, now); var r := NewRelease(published, id, if releasedAt == 0 then now else releasedAt);
      ValidEvent(r) ==> RecordOk(r) && KeyOf(r) == DeploymentKey(d.workspace, d.app) && NormalizedKey(KeyOf(r), published) == KeyOf(r)
  {
    NormalizeTwice(d.workspace);
    assert Trim("") == "";
    hide NormalizeWorkspace, Trim;
  }

  lemma SettledDeployments(c: Catalog, k: Key, d: Deployment)
    requires forall j | j in c.deployments :: DeploymentOk(c, j)
    ensures DefaultAll(c.deployments[k := d]) == c.deployments[k := Defaults(d)]
  {
  }

  // The record a rollback moves to, and the key it moves.
  predicate IsTarget(c: Catalog, request: Request, now: Time, k: Key, target: Release) {
    var q := Prepared(request, now);
    && FindRelease(c.history, q.workspace, q.app, q.releaseId) == Some(target) && DeploymentKey(q.workspace, q.app) == k
    && target in c.history && target.id == Trim(request.releaseId) && KeyOf(target) == k && NormalizedKey(k, target.deployment) == k
  }

  lemma RollbackTarget(c: Catalog, request: Request, now: Time)
    requires Agree(c) && Refusal(c, Prepared(request, now)).None?
    ensures exists target :: IsTarget(c, request, now, DeploymentKey(request.workspace, Trim(request.app)), target)
  {
    var q := Prepared(request, now);
    FindReleaseFinds(c.history, q.workspace, q.app, q.releaseId);
    var target := FindRelease(c.history, q.workspace, q.app, q.releaseId).value;
    assert RecordOk(target);
    NormalizeTwice(request.workspace);
    TrimTwice(request.app);
    TrimTwice(request.releaseId);
    hide NormalizeWorkspace, Trim, FindRelease;
    assert IsTarget(c, request, now, DeploymentKey(request.workspace, Trim(request.app)), target);
  }

  // c' is c with the pointer of k moved to r, and the marker m and audit record a to show for it.
  predicate RolledBack(c: Catalog, c': Catalog, k: Key, id: ReleaseId, r: Release, a: Audit, m: Marker) {
    && r in c.history && r.id == id && KeyOf(r) == k && a.kind == "release_rolled_back" && m.commit == r.commit
    && c' == Catalog(c.deployments[k := Defaults(r.deployment)], c.active[k := id], c.candidates, c.history, c.audit + [a],
                     c.markers[SourceKey(m.workspace, m.gitSourceId) := m])
  }

  /**
   * A rollback moves the active pointer to the requested record of its own
   * workspace and app, files that record's deployment, rewrites one source
   * marker and adds one audit record. Nothing else changes.
   */
  lemma RollbackIsExact(c: Catalog, request: Request, auditId: string, now: Time)
    requires Agree(c) && Rollback(c, request, auditId, now).Success?
    ensures var c' := Rollback(c, request, auditId, now).value; var k := DeploymentKey(request.workspace, Trim(request.app));
      && Agree(c') && k in c.active && c.active[k] != Trim(request.releaseId)
      && exists r, a, m :: RolledBack(c, c', k, Trim(request.releaseId), r, a, m)
  {
    NormalizeIsIdentity(c);
    RollbackTarget(c, request, now);
    var k := DeploymentKey(request.workspace, Trim(request.app));
    var target :| IsTarget(c, request, now, k, target);
    RefusalOfActive(c, request, now, k, target);
    var q := Prepared(request, now);
    hide Normalize, Agree, Refusal, DeploymentKey, FindRelease, Trim, Switched, Prepared, NormalizedKey;
    SwitchAgrees(c, k, target, RollbackAudit(target, PreviousId(c, k), q, auditId), RollbackMarker(target, q));
    hide RolledBack, PreviousId;
  }

  lemma RefusalOfActive(c: Catalog, request: Request, now: Time, k: Key, target: Release)
    requires Refusal(c, Prepared(request, now)).None? && IsTarget(c, request, now, k, target)
    ensures k in c.active && c.active[k] != target.id
  {}

  lemma SwitchAgrees(c: Catalog, k: Key, r: Release, a: Audit, m: Marker)
    requires Agree(c) && r in c.history && KeyOf(r) == k && NormalizedKey(k, r.deployment) == k
    requires a.kind == "release_rolled_back" && m.commit == r.commit
    ensures Agree(Normalize(Switched(c, k, r, a, m))) && RolledBack(c, Normalize(Switched(c, k, r, a, m)), k, r.id, r, a, m)
  {
    var raw := Switched(c, k, r, a, m);
    SettledDeployments(c, k, r.deployment);
    PointKeeps(c, raw, k, r);
    CommitAgrees(raw);
    hide Agree, Nearly, Normalize, DefaultAll, Defaults, KeyOf, SourceKey;
  }

  lemma TagKeeps(c: Catalog, k: Key, d: Deployment)
    requires Agree(c) && k in c.deployments && Bare(d) == Bare(c.deployments[k])
    ensures var raw := c.(deployments := c.deployments[k := d]); Normalize(raw) == raw && Agree(raw)
  {
    var raw := c.(deployments := c.deployments[k := d]);
    hide DeploymentOk, ActiveOk, RecordOk, Bare, Normalize;
    forall j | j in raw.deployments ensures DeploymentOk(raw, j) { RetaggedDeployment(c, k, d, j); }
    forall j | j in raw.active ensures ActiveOk(raw, j) { RetaggedPointer(c, k, d, j); }
    NormalizeIsIdentity(raw);
  }

  lemma RetaggedDeployment(c: Catalog, k: Key, d: Deployment, j: Key)
    requires j in c.deployments && DeploymentOk(c, j) && k in c.deployments && Bare(d) == Bare(c.deployments[k])
    ensures DeploymentOk(c.(deployments := c.deployments[k := d]), j)
  {}

  lemma BareKeepsIdentity(d: Deployment, e: Deployment)
    requires Bare(d) == Bare(e)
    ensures d.app == e.app && d.workspace == e.workspace && d.commit == e.commit
    ensures Defaults(e) == e ==> Defaults(d) == d
    ensures SameRelease(d, e)
  {}

  lemma RetaggedPointer(c: Catalog, k: Key, d: Deployment, j: Key)
    requires ActiveOk(c, j) && k in c.deployments && Bare(d) == Bare(c.deployments[k])
    ensures ActiveOk(c.(deployments := c.deployments[k := d]), j)
  {
    var raw := c.(deployments := c.deployments[k := d]);
    BareKeepsIdentity(d, c.deployments[k]);
    hide Bare, Defaults;
    var r :| Names(c, j, r);
    assert Names(raw, j, r);
  }

  // c' is c with the deployment of k retagged.
  predicate Retagged(c: Catalog, c': Catalog, k: Key) {
    && k in c.deployments && k in c'.deployments && Bare(c'.deployments[k]) == Bare(c.deployments[k])
    && c' == c.(deployments := c.deployments[k := c'.deployments[k]])
  }

  /** An app's tag override changes one deployment, and nothing of it that belongs to the release. */
  lemma AppTagIsCosmetic(c: Catalog, workspace: string, app: string, tag: Option<string>, now: Time)
    requires Agree(c)
    ensures var step := SetAppTag(c, workspace, app, tag, now); var k := DeploymentKey(workspace, app);
      && (step.Success? <==> k in c.deployments)
      && (step.Success? ==> Agree(step.value) && Retagged(c, step.value, k) && step.value.deployments[k].tagOverride == tag)
  {
    NormalizeIsIdentity(c);
    hide NormalizeWorkspace, Normalize, Agree;
    var k := DeploymentKey(workspace, app);
    if k in c.deployments { TagKeeps(c, k, c.deployments[k].(tagOverride := tag, updatedAt := Some(now))); }
  }

  /** An action's tag override changes that action, and nothing of it that belongs to the release. */
  lemma ActionTagIsCosmetic(c: Catalog, workspace: string, app: string, action: string, tag: Option<string>, now: Time)
    requires Agree(c)
    ensures var step := SetActionTag(c, workspace, app, action, tag, now); var k := DeploymentKey(workspace, app);
      && (step.Success? <==> k in c.deployments && action in c.deployments[k].actions)
      && (step.Success? ==> Agree(step.value) && Retagged(c, step.value, k))
      && (step.Success? ==> action in step.value.deployments[k].actions && step.value.deployments[k].actions[action].tagOverride == tag)
  {
    NormalizeIsIdentity(c);
    hide NormalizeWorkspace, Normalize, Agree, Bare, ActionTagged;
    var k := DeploymentKey(workspace, app);
    if k in c.deployments && action in c.deployments[k].actions {
      BareActionTagged(c.deployments[k], action, tag, now);
      TagKeeps(c, k, ActionTagged(c.deployments[k], action, tag, now));
    }
  }

  lemma BareActionTagged(d: Deployment, action: string, tag: Option<string>, now: Time)
    requires action in d.actions
    ensures var e := ActionTagged(d, action, tag, now); Bare(e) == Bare(d) && action in e.actions && e.actions[action].tagOverride == tag
  {}
}
