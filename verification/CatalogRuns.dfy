/** Importing one catalog into another (internal/catalog/file_catalog.go). */
module CatalogImport {
  import opened Wrappers
  import opened Text
  import opened CatalogModel
  import opened CatalogInvariant

  /** Records with the same identifier are the same record. */
  ghost predicate Consistent(t: Catalog, i: Catalog) {
    forall r, s :: r in t.history && s in i.history && r.id == s.id ==> r == s
  }

  ghost predicate DistinctAudit(audit: seq<Audit>) {
    forall i, k :: 0 <= i < k < |audit| ==> audit[i].id != audit[k].id
  }

  /** Merging keeps the target's records in place and adds each missing identifier once. */
  lemma {:induction false} MergeReleasesAdds(target: seq<Release>, imported: seq<Release>)
    ensures var merged := MergeReleases(target, imported);
      && target <= merged
      && (forall r | r in merged :: r in target || r in imported)
      && (forall r | r in imported :: HasRelease(merged, r.id))
      && (DistinctIds(target) ==> DistinctIds(merged))
  {
    if imported != [] {
      MergeReleasesAdds(target, imported[..|imported| - 1]);
      var r := imported[|imported| - 1];
      var sofar := MergeReleases(target, imported[..|imported| - 1]);
      assert imported == imported[..|imported| - 1] + [r];
      if !HasRelease(sofar, r.id) {
        assert forall o | o in sofar :: o in sofar + [r];
        assert r in sofar + [r];
      }
    }
  }

  lemma {:induction false} MergeAuditAdds(target: seq<Audit>, imported: seq<Audit>)
    ensures var merged := MergeAudit(target, imported);
      && target <= merged
      && (forall a | a in merged :: a in target || a in imported)
      && (forall a | a in imported :: HasAudit(merged, a.id))
      && (DistinctAudit(target) ==> DistinctAudit(merged))
  {
    if imported != [] {
      MergeAuditAdds(target, imported[..|imported| - 1]);
      var a := imported[|imported| - 1];
      var sofar := MergeAudit(target, imported[..|imported| - 1]);
      assert imported == imported[..|imported| - 1] + [a];
      if !HasAudit(sofar, a.id) {
        assert forall o | o in sofar :: o in sofar + [a];
        assert a in sofar + [a];
      }
    }
  }

  lemma {:induction false} MergeNothingNew(target: seq<Release>, imported: seq<Release>)
    requires forall r | r in imported :: HasRelease(target, r.id)
    ensures MergeReleases(target, imported) == target
  {
    if imported != [] {
      assert forall r | r in imported[..|imported| - 1] :: r in imported;
      MergeNothingNew(target, imported[..|imported| - 1]);
      assert imported[|imported| - 1] in imported;
    }
  }

  lemma {:induction false} MergeNoNewAudit(target: seq<Audit>, imported: seq<Audit>)
    requires forall a | a in imported :: HasAudit(target, a.id)
    ensures MergeAudit(target, imported) == target
  {
    if imported != [] {
      assert forall a | a in imported[..|imported| - 1] :: a in imported;
      MergeNoNewAudit(target, imported[..|imported| - 1]);
      assert imported[|imported| - 1] in imported;
    }
  }

  /** Importing a catalog a second time changes nothing, whatever the two catalogs hold. */
  lemma ImportTwiceIsOnce(c: Catalog, imported: Catalog)
    ensures Import(Import(c, imported), imported) == Import(c, imported)
  {
    var i := Normalize(imported);
    var merged := Merge(Normalize(c), imported);
    var once := Import(c, imported);
    NormalizeTwiceIsOnce(c);
    NormalizeTwiceIsOnce(merged);
    MergeReleasesAdds(Normalize(c).history, i.history);
    MergeAuditAdds(Normalize(c).audit, i.audit);
    MergeNothingNew(once.history, i.history);
    MergeNoNewAudit(once.audit, i.audit);
    ImportedKeysAreThere(c, imported);
    hide Normalize, MergeReleases, MergeAudit;
    assert Merge(once, imported) == once;
  }

  lemma ImportedKeysAreThere(c: Catalog, imported: Catalog)
    ensures var once, i := Import(c, imported), Normalize(imported);
      && i.deployments + once.deployments == once.deployments && i.active + once.active == once.active
      && i.candidates + once.candidates == once.candidates && i.markers + once.markers == once.markers
  {
    var merged, once, i := Merge(Normalize(c), imported), Import(c, imported), Normalize(imported);
    NormalizeKeepsKeys(merged);
    assert i.deployments.Keys <= merged.deployments.Keys && i.active.Keys <= merged.active.Keys
        && i.candidates.Keys <= merged.candidates.Keys && i.markers.Keys <= merged.markers.Keys by { hide Normalize; }
    hide Normalize, Merge, Import;
    Absorbs(i.deployments, once.deployments);
    Absorbs(i.active, once.active);
    Absorbs(i.candidates, once.candidates);
    Absorbs(i.markers, once.markers);
  }

  lemma Absorbs<K, V>(some: map<K, V>, all: map<K, V>)
    requires some.Keys <= all.Keys
    ensures some + all == all
  {
  }

  lemma NormalizeKeepsKeys(c: Catalog)
    ensures var n := Normalize(c);
      && n.deployments.Keys == c.deployments.Keys && c.active.Keys <= n.active.Keys && n.candidates == c.candidates && n.markers == c.markers
      && n.history == c.history && n.audit == c.audit
      && (forall k | k in c.deployments :: n.deployments[k] == Defaults(c.deployments[k]))
      && (forall k | !Blank(c.active, k) :: k in c.active && n.active[k] == c.active[k])
  {}

  /** An import replaces nothing: what the target held it still holds, the history and audit only grow, and stay free of duplicates. */
  lemma ImportNeverReplaces(c: Catalog, imported: Catalog)
    ensures var c' := Import(c, imported);
      && (forall k | k in c.deployments :: k in c'.deployments && c'.deployments[k] == Defaults(c.deployments[k]))
      && (forall k | !Blank(c.active, k) :: k in c.active && k in c'.active && c'.active[k] == c.active[k])
      && (forall k | k in c.candidates :: k in c'.candidates && c'.candidates[k] == c.candidates[k])
      && (forall k | k in c.markers :: k in c'.markers && c'.markers[k] == c.markers[k])
      && c.history <= c'.history && c.audit <= c'.audit
      && (DistinctIds(c.history) ==> DistinctIds(c'.history)) && (DistinctAudit(c.audit) ==> DistinctAudit(c'.audit))
  {
    var n := Normalize(c);
    NormalizeTwiceIsOnce(c);
    NormalizeKeepsKeys(c);
    var merged := Merge(n, imported);
    NormalizeKeepsKeys(merged);
    MergeReleasesAdds(n.history, Normalize(imported).history);
    MergeAuditAdds(n.audit, Normalize(imported).audit);
    hide Normalize, MergeReleases, MergeAudit, DistinctIds, DistinctAudit;
    assert merged.history == MergeReleases(n.history, Normalize(imported).history);
    assert merged.audit == MergeAudit(n.audit, Normalize(imported).audit);
    forall k | k in c.deployments ensures merged.deployments[k] == Defaults(c.deployments[k]) {}
    forall k | !Blank(c.active, k) ensures k in c.active && k in merged.active && merged.active[k] == c.active[k] && !Blank(merged.active, k) {}
  }

  /** Agreement but for deployments that have no active pointer yet. */
  ghost predicate PointersAgree(c: Catalog) {
    && c.active.Keys <= c.deployments.Keys && DistinctIds(c.history)
    && (forall r | r in c.history :: RecordOk(r))
    && (forall k | k in c.active :: ActiveOk(c, k))
  }

  lemma AgreeHasPointers(c: Catalog)
    requires Agree(c)
    ensures PointersAgree(c) && Normalize(c) == c
  {
    NormalizeIsIdentity(c);
  }

  /** Over a sound history, agreement is a matter of each pointer. */
  lemma OnePointerAtATime(c: Catalog)
    requires c.active.Keys <= c.deployments.Keys && DistinctIds(c.history) && forall r | r in c.history :: RecordOk(r)
    ensures PointersAgree(c) <==> forall k | k in c.active :: ActiveOk(c, k)
  {}

  lemma MergeParts(t: Catalog, i: Catalog)
    requires Normalize(t) == t && Normalize(i) == i
    ensures Merge(t, i) == Catalog(i.deployments + t.deployments, i.active + t.active, i.candidates + t.candidates,
                                   MergeReleases(t.history, i.history), MergeAudit(t.audit, i.audit), i.markers + t.markers)
  {
  }

  lemma MergedHistory(t: Catalog, i: Catalog)
    requires Consistent(t, i) && DistinctIds(t.history)
    requires (forall r | r in t.history :: RecordOk(r)) && (forall r | r in i.history :: RecordOk(r)) && DistinctIds(i.history)
    ensures var merged := MergeReleases(t.history, i.history);
      && DistinctIds(merged) && (forall r | r in merged :: RecordOk(r))
      && (forall r | r in t.history :: r in merged) && (forall r | r in i.history :: r in merged)
  {
    MergeReleasesAdds(t.history, i.history);
    hide RecordOk;
    var merged := MergeReleases(t.history, i.history);
    forall r | r in i.history ensures r in merged {
      var o :| o in merged && o.id == r.id;
      if o !in t.history { IdsAreUnique(i.history, o, r); }
    }
  }

  // Where an import may hand a deployment of the target a pointer that is not its own.
  predicate Fits(t: Catalog, i: Catalog, k: Key) {
    k in t.deployments && k !in t.active && k in i.active && k in i.deployments ==> SameRelease(t.deployments[k], i.deployments[k])
  }

  /**
   * Merging into a catalog some of whose deployments have no active pointer
   * keeps agreement exactly when every pointer it takes over fits the
   * deployment the target already has under that key.
   */
  lemma MergeAgreesExactly(t: Catalog, i: Catalog)
    requires PointersAgree(t) && PointersAgree(i) && Normalize(t) == t && Normalize(i) == i && Consistent(t, i)
    ensures PointersAgree(Merge(t, i)) <==> forall k | k in i.active :: Fits(t, i, k)
  {
    MergeParts(t, i);
    MergedHistory(t, i);
    var m := Merge(t, i);
    assert m.active.Keys <= m.deployments.Keys;
    hide Normalize, Merge, RecordOk, MergeReleases, MergeAudit, ActiveOk, Fits, DistinctIds, Consistent, PointersAgree;
    OnePointerAtATime(m);
    forall k | k in m.active ensures ActiveOk(m, k) <==> Fits(t, i, k) { KeptPointer(t, i, m, k); }
    forall k | k in t.active ensures Fits(t, i, k) { TrivialFit(t, i, k); }
  }

  lemma TrivialFit(t: Catalog, i: Catalog, k: Key)
    requires k in t.active
    ensures Fits(t, i, k)
  {
  }

  // The pointers that the normalisation of the merged catalog adds.

  // The latest record that could have been published as d, if there is one, is the release of d.
  predicate LatestFits(history: seq<Release>, k: Key, d: Deployment) {
    history == []
    || var r := history[|history| - 1];
       if KeyOf(r) == k && Matches(d, r) then SameRelease(d, r.deployment) else LatestFits(history[..|history| - 1], k, d)
  }

  // The record the backwards search stops at.
  predicate IsLatest(history: seq<Release>, k: Key, d: Deployment, r: Release) {
    r in history && KeyOf(r) == k && LastMatch(history, k, d) == Some(r.id) && (LatestFits(history, k, d) <==> SameRelease(d, r.deployment))
  }

  lemma {:induction false} LatestRecord(history: seq<Release>, k: Key, d: Deployment)
    ensures LastMatch(history, k, d).None? ==> LatestFits(history, k, d)
    ensures LastMatch(history, k, d).Some? ==> exists r :: IsLatest(history, k, d, r)
  {
    hide KeyOf, Matches, SameRelease;
    if history != [] {
      var front, r := history[..|history| - 1], history[|history| - 1];
      if KeyOf(r) == k && Matches(d, r) {
        assert IsLatest(history, k, d, r);
      } else {
        LatestRecord(front, k, d);
        if LastMatch(front, k, d).Some? {
          var o :| IsLatest(front, k, d, o);
          assert IsLatest(history, k, d, o);
        }
      }
    }
  }

  // A deployment that neither catalog points at, which the committed import may point somewhere.
  predicate Unpointed(t: Catalog, i: Catalog, k: Key) {
    k in i.deployments + t.deployments && k !in t.active && k !in i.active
  }

  predicate BackfillFits(t: Catalog, i: Catalog, k: Key) {
    Unpointed(t, i, k) ==> LatestFits(MergeReleases(t.history, i.history), k, (i.deployments + t.deployments)[k])
  }

  /** A pointer that was there names a record, so it is not blank. */
  lemma PointerIsSet(c: Catalog, k: Key)
    requires PointersAgree(c) && k in c.active
    ensures !Blank(c.active, k)
  {
    assert ActiveOk(c, k);
  }

  lemma DefaultsStay(c: Catalog)
    requires Normalize(c) == c
    ensures DefaultAll(c.deployments) == c.deployments
  {
  }

  lemma DefaultsOfUnion(t: Catalog, i: Catalog)
    requires DefaultAll(t.deployments) == t.deployments && DefaultAll(i.deployments) == i.deployments
    ensures DefaultAll(i.deployments + t.deployments) == i.deployments + t.deployments
  {
    hide Defaults;
    forall k | k in t.deployments ensures Defaults(t.deployments[k]) == t.deployments[k] { assert DefaultAll(t.deployments)[k] == t.deployments[k]; }
    forall k | k in i.deployments ensures Defaults(i.deployments[k]) == i.deployments[k] { assert DefaultAll(i.deployments)[k] == i.deployments[k]; }
  }

  /** What an import commits: the merged catalog with pointers for deployments that have none. */
  lemma ImportShape(t: Catalog, i: Catalog)
    requires PointersAgree(t) && PointersAgree(i) && Normalize(t) == t && Normalize(i) == i
    ensures var m, n := Merge(t, i), Import(t, i);
      && m.deployments == i.deployments + t.deployments && m.active == i.active + t.active && m.history == MergeReleases(t.history, i.history)
      && n.deployments == m.deployments && n.history == m.history && n.active == m.active + Backfilled(m.deployments, m.active, m.history)
      && (forall k | k in m.deployments :: Blank(m.active, k) <==> Unpointed(t, i, k))
  {
    MergeParts(t, i);
    DefaultsStay(t);
    DefaultsStay(i);
    var m := Merge(t, i);
    assert Import(t, i) == Normalize(m) by { hide Normalize, Merge; }
    hide Merge, Import, LastMatch, PointersAgree, Blank, Defaults, MergeReleases, MergeAudit;
    DefaultsOfUnion(t, i);
    hide DefaultAll;
    assert m.deployments.Keys == i.deployments.Keys + t.deployments.Keys;
    forall k | k in m.deployments ensures Blank(m.active, k) <==> Unpointed(t, i, k) {
      if k in t.active { PointerIsSet(t, k); } else if k in i.active { PointerIsSet(i, k); }
    }
  }

  /** A pointer of either catalog is right in the committed one exactly when it fits. */
  lemma KeptPointer(t: Catalog, i: Catalog, n: Catalog, k: Key)
    requires PointersAgree(t) && PointersAgree(i) && Consistent(t, i) && k in t.active.Keys + i.active.Keys && k in n.active
    requires n.deployments == i.deployments + t.deployments && n.active[k] == (i.active + t.active)[k] && n.history == MergeReleases(t.history, i.history)
    ensures ActiveOk(n, k) <==> Fits(t, i, k)
  {
    MergedHistory(t, i);
    hide RecordOk, MergeReleases, KeyOf, Bare, Defaults, Consistent;
    if k in t.active {
      assert ActiveOk(t, k);
      var r :| Names(t, k, r);
      assert Names(n, k, r);
    } else {
      assert ActiveOk(i, k);
      var r :| Names(i, k, r);
      if Fits(t, i, k) { assert Names(n, k, r); }
      if ActiveOk(n, k) {
        var o :| Names(n, k, o);
        IdsAreUnique(n.history, o, r);
      }
    }
  }

  /** A pointer the normalisation adds is right exactly when the record it stops at is the release of the deployment. */
  lemma {:induction false} AddedPointer(n: Catalog, k: Key)
    requires DistinctIds(n.history) && k in n.deployments && k in n.active && LastMatch(n.history, k, n.deployments[k]) == Some(n.active[k])
    ensures ActiveOk(n, k) <==> LatestFits(n.history, k, n.deployments[k])
  {
    LatestRecord(n.history, k, n.deployments[k]);
    hide LatestFits, LastMatch, SameRelease, KeyOf, DistinctIds;
    var r :| IsLatest(n.history, k, n.deployments[k], r);
    if SameRelease(n.deployments[k], r.deployment) { assert Names(n, k, r); }
    if ActiveOk(n, k) {
      var o :| Names(n, k, o);
      IdsAreUnique(n.history, o, r);
    }
  }

  lemma ImportKeys(t: Catalog, i: Catalog)
    requires PointersAgree(t) && PointersAgree(i) && Normalize(t) == t && Normalize(i) == i && Consistent(t, i)
    ensures var n := Import(t, i);
      && n.deployments == i.deployments + t.deployments && n.history == MergeReleases(t.history, i.history)
      && n.active.Keys <= n.deployments.Keys && i.active.Keys <= n.deployments.Keys
      && DistinctIds(n.history) && forall r | r in n.history :: RecordOk(r)
  {
    ImportShape(t, i);
    MergedHistory(t, i);
    hide Normalize, Import, Merge, RecordOk, MergeReleases, ActiveOk, DistinctIds, Consistent, LastMatch, Blank, Unpointed;
  }

  lemma {:induction false} ImportedAt(t: Catalog, i: Catalog, k: Key)
    requires PointersAgree(t) && PointersAgree(i) && Normalize(t) == t && Normalize(i) == i && k in Import(t, i).deployments
    ensures var n := Import(t, i);
      && n.deployments == i.deployments + t.deployments && n.history == MergeReleases(t.history, i.history)
      && if Unpointed(t, i, k) then LastMatch(n.history, k, n.deployments[k]) == (if k in n.active then Some(n.active[k]) else None)
         else k in t.active.Keys + i.active.Keys && k in n.active && n.active[k] == (i.active + t.active)[k]
  {
    ImportShape(t, i);
    hide Normalize, Import, Merge, MergeReleases, LastMatch, Backfilled, Blank, PointersAgree;
    FilledAt(i.deployments + t.deployments, i.active + t.active, MergeReleases(t.history, i.history), k);
  }

  lemma {:induction false} FilledAt(deployments: map<Key, Deployment>, active: map<Key, ReleaseId>, history: seq<Release>, k: Key)
    requires k in deployments && (k in active ==> !Blank(active, k))
    ensures var filled := active + Backfilled(deployments, active, history);
      if k in active then k in filled && filled[k] == active[k]
      else LastMatch(history, k, deployments[k]) == if k in filled then Some(filled[k]) else None
  {
    hide LastMatch;
  }

  /** Of every deployment of the committed import: its pointer, if it has one, is right exactly when what put it there fits. */
  lemma CommittedPointer(t: Catalog, i: Catalog, k: Key)
    requires PointersAgree(t) && PointersAgree(i) && Normalize(t) == t && Normalize(i) == i && Consistent(t, i)
    requires k in Import(t, i).deployments
    ensures (k in Import(t, i).active ==> ActiveOk(Import(t, i), k)) <==> Fits(t, i, k) && BackfillFits(t, i, k)
  {
    ImportedAt(t, i, k);
    ImportKeys(t, i);
    hide Normalize, Import, Merge, RecordOk, MergeReleases, ActiveOk, LatestFits, DistinctIds, Consistent, LastMatch, Blank, PointersAgree, SameRelease;
    var n := Import(t, i);
    if !Unpointed(t, i, k) {
      KeptPointer(t, i, n, k);
    } else if k in n.active {
      AddedPointer(n, k);
    } else {
      LatestRecord(n.history, k, n.deployments[k]);
    }
  }

  /**
   * An import keeps agreement exactly when every pointer it takes over fits the
   * deployment the target already has under that key, and every deployment
   * without a pointer is the release of the latest record, in the merged
   * history, that could have been published as it.
   */
  lemma NormalImportAgreesExactly(t: Catalog, i: Catalog)
    requires PointersAgree(t) && PointersAgree(i) && Normalize(t) == t && Normalize(i) == i && Consistent(t, i)
    ensures PointersAgree(Import(t, i)) <==>
      (forall k | k in i.active :: Fits(t, i, k)) && (forall k | k in i.deployments + t.deployments :: BackfillFits(t, i, k))
  {
    ImportKeys(t, i);
    var n := Import(t, i);
    hide Normalize, Import, Merge, RecordOk, MergeReleases, ActiveOk, BackfillFits, DistinctIds, Consistent, PointersAgree, SameRelease, Unpointed, Blank;
    OnePointerAtATime(n);
    forall k | k in n.deployments
      ensures (k in n.active ==> ActiveOk(n, k)) <==> Fits(t, i, k) && BackfillFits(t, i, k)
    {
      CommittedPointer(t, i, k);
    }
    assert forall k | k in n.deployments && k !in i.active :: Fits(t, i, k);
    hide Fits;
  }

  /** The same for any two catalogs, whose first normalisation may already point somewhere. */
  lemma ImportAgreesExactly(c: Catalog, imported: Catalog)
    requires PointersAgree(Normalize(c)) && PointersAgree(Normalize(imported)) && Consistent(c, imported)
    ensures var t, i := Normalize(c), Normalize(imported);
      PointersAgree(Import(c, imported)) <==>
        (forall k | k in i.active :: Fits(t, i, k)) && (forall k | k in i.deployments + t.deployments :: BackfillFits(t, i, k))
  {
    NormalizeTwiceIsOnce(c);
    NormalizeTwiceIsOnce(imported);
    NormalizeKeepsKeys(c);
    NormalizeKeepsKeys(imported);
    hide Normalize, PointersAgree, BackfillFits, Fits;
    NormalImportAgreesExactly(Normalize(c), Normalize(imported));
    assert Import(c, imported) == Import(Normalize(c), Normalize(imported));
  }

  /** So importing into a catalog whose every deployment has its pointer keeps agreement. */
  lemma ImportKeeps(c: Catalog, imported: Catalog)
    requires Agree(c) && Agree(imported) && Consistent(c, imported)
    ensures Agree(Import(c, imported)) && Import(c, imported) == Merge(c, imported)
  {
    NormalizeIsIdentity(c);
    NormalizeIsIdentity(imported);
    MergeParts(c, imported);
    MergedHistory(c, imported);
    var m := Merge(c, imported);
    UnionAgrees(c, imported, m);
    NormalizeIsIdentity(m) by { hide RecordOk, ActiveOk; }
    hide *;
  }

  lemma UnionAgrees(t: Catalog, i: Catalog, m: Catalog)
    requires Agree(t) && Agree(i) && Consistent(t, i) && DistinctIds(m.history) && (forall r | r in m.history :: RecordOk(r))
    requires m.deployments == i.deployments + t.deployments && m.active == i.active + t.active && m.history == MergeReleases(t.history, i.history)
    ensures Agree(m)
  {
    hide RecordOk, MergeReleases, ActiveOk, DeploymentOk, DistinctIds, Consistent;
    assert m.active.Keys == m.deployments.Keys;
    forall k | k in m.active ensures ActiveOk(m, k) { ImportedPointer(t, i, m, k); }
    forall k | k in m.deployments ensures DeploymentOk(m, k) { MergedDeployment(t, i, m, k); }
  }

  lemma ImportedPointer(t: Catalog, i: Catalog, m: Catalog, k: Key)
    requires Agree(t) && Agree(i) && Consistent(t, i) && k in m.active
    requires m.deployments == i.deployments + t.deployments && m.active == i.active + t.active && m.history == MergeReleases(t.history, i.history)
    ensures ActiveOk(m, k)
  {
    AgreeHasPointers(t);
    AgreeHasPointers(i);
    assert t.active.Keys == t.deployments.Keys;
    hide Agree, PointersAgree, ActiveOk, DistinctIds, Consistent, SameRelease, Normalize, MergeReleases;
    KeptPointer(t, i, m, k);
    if k in t.active { TrivialFit(t, i, k); }
  }

  lemma MergedDeployment(t: Catalog, i: Catalog, m: Catalog, k: Key)
    requires Agree(t) && Agree(i) && k in m.deployments
    requires m.deployments == i.deployments + t.deployments && m.active == i.active + t.active
    ensures DeploymentOk(m, k)
  {
    hide NormalizeWorkspace, Trim, RecordOk, ActiveOk;
    if k in t.deployments { assert DeploymentOk(t, k); } else { assert DeploymentOk(i, k); }
  }

  /** A concrete import that hands a deployment of the target the pointer of another release. */
  lemma ImportCanMisassign(d: Deployment, e: Deployment, r: Release)
    requires d.workspace == "ws" && d.app == "echo" && d.commit == "old" && d.deploymentId == None
    requires e == d.(commit := "new") && Defaults(d) == d
    requires r.id == "r1" && r.workspace == "ws" && r.app == "echo" && r.commit == "new" && r.deploymentId == None && r.deployment == e
    ensures var t := Catalog(map["ws/echo" := d], map[], map[], [], [], map[]);
      var i := Catalog(map["ws/echo" := e], map["ws/echo" := "r1"], map[], [r], [], map[]);
      && Agree(i) && PointersAgree(t) && Normalize(t) == t && Import(t, i).active == map["ws/echo" := "r1"] && Import(t, i).deployments["ws/echo"].commit == "old"
      && !PointersAgree(Import(t, i))
  {
    var t := Catalog(map["ws/echo" := d], map[], map[], [], [], map[]);
    var i := Catalog(map["ws/echo" := e], map["ws/echo" := "r1"], map[], [r], [], map[]);
    OneReleaseAgrees(i, e, r);
    NormalizeIsIdentity(i);
    LegacyMerge(t, i, d, e, r);
    hide Normalize, Trim, NormalizeWorkspace, Agree, Merge;
    var m := Merge(t, i);
    NormalizeKeepsKeys(m);
    var n := Normalize(m);
    assert n.active == map["ws/echo" := "r1"] by { SettledPointers(m); }
    if PointersAgree(n) { Misfit(n, d, r); }
  }

  /** And one where it is the normalisation after the merge that does so: the record has the commit of the deployment, and another tag. */
  lemma BackfillCanMisassign(d: Deployment, r: Release)
    requires d.workspace == "ws" && d.app == "echo" && d.deploymentId == None && Defaults(d) == d && d.tag == "x"
    requires r.id == "r1" && r.workspace == "ws" && r.app == "echo" && r.commit == d.commit && r.deploymentId == None && r.deployment == d.(tag := "y")
    ensures var t := Catalog(map["ws/echo" := d], map[], map[], [], [], map[]);
      var i := Catalog(map[], map[], map[], [r], [], map[]);
      && Agree(i) && PointersAgree(t) && Normalize(t) == t && PointersAgree(Merge(t, i)) && !PointersAgree(Import(t, i))
  {
    var t := Catalog(map["ws/echo" := d], map[], map[], [], [], map[]);
    var i := Catalog(map[], map[], map[], [r], [], map[]);
    NewerRecord(d, r);
    LegacyTarget(t, d);
    hide Normalize, Trim, NormalizeWorkspace, Merge, Import, RecordOk, KeyOf, SameRelease, Defaults;
    assert MergeReleases([], [r]) == [r];
    assert LatestFits([r], "ws/echo", d) == SameRelease(d, r.deployment);
    assert !BackfillFits(t, i, "ws/echo");
    assert Agree(i);
    AgreeHasPointers(i);
    assert Consistent(t, i);
    hide BackfillFits, MergeReleases, LatestFits, Consistent, Agree;
    MergeAgreesExactly(t, i);
    NormalImportAgreesExactly(t, i);
  }

  lemma NewerRecord(d: Deployment, r: Release)
    requires d.workspace == "ws" && d.app == "echo" && d.deploymentId == None && Defaults(d) == d && d.tag == "x"
    requires r.id == "r1" && r.workspace == "ws" && r.app == "echo" && r.commit == d.commit && r.deploymentId == None && r.deployment == d.(tag := "y")
    ensures RecordOk(r) && KeyOf(r) == "ws/echo" && Matches(d, r) && !SameRelease(d, r.deployment)
  {
    assert Trim("ws") == "ws" && Trim("r1") == "r1";
    assert Bare(Defaults(d)).tag == "x" && Bare(Defaults(r.deployment)).tag == "y";
  }

  lemma LegacyTarget(t: Catalog, d: Deployment)
    requires t == Catalog(map["ws/echo" := d], map[], map[], [], [], map[]) && Defaults(d) == d
    ensures Normalize(t) == t && PointersAgree(t)
  {
    hide Defaults, NormalizeWorkspace;
    assert DefaultAll(t.deployments) == t.deployments;
    assert Backfilled(t.deployments, t.active, t.history) == map[];
  }

  lemma LegacyMerge(t: Catalog, i: Catalog, d: Deployment, e: Deployment, r: Release)
    requires t == Catalog(map["ws/echo" := d], map[], map[], [], [], map[]) && Defaults(d) == d
    requires i == Catalog(map["ws/echo" := e], map["ws/echo" := "r1"], map[], [r], [], map[]) && Normalize(i) == i
    ensures Normalize(t) == t && Merge(t, i) == Catalog(map["ws/echo" := d], map["ws/echo" := "r1"], map[], [r], [], map[])
  {
    hide NormalizeWorkspace, Trim;
    LegacyTarget(t, d);
    MergeParts(t, i);
    assert MergeReleases([], [r]) == [r];
    assert i.deployments + t.deployments == t.deployments && i.active + t.active == i.active && i.markers + t.markers == map[];
  }

  lemma OneReleaseAgrees(i: Catalog, e: Deployment, r: Release)
    requires e.workspace == "ws" && e.app == "echo" && e.deploymentId == None && Defaults(e) == e
    requires r.id == "r1" && r.workspace == "ws" && r.app == "echo" && r.commit == e.commit && r.deploymentId == None && r.deployment == e
    requires i == Catalog(map["ws/echo" := e], map["ws/echo" := "r1"], map[], [r], [], map[])
    ensures Agree(i) && Trim("r1") != ""
  {
    assert Trim("ws") == "ws" && Trim("r1") == "r1";
    assert KeyOf(r) == "ws/echo" == DeploymentKey("ws", "echo");
    assert Names(i, "ws/echo", r);
    assert DeploymentOk(i, "ws/echo");
  }

  lemma SettledPointers(m: Catalog)
    requires forall k | k in m.deployments :: !Blank(m.active, k)
    ensures Normalize(m).active == m.active
  {}

  lemma Misfit(n: Catalog, d: Deployment, r: Release)
    requires "ws/echo" in n.active && "ws/echo" in n.deployments && n.deployments["ws/echo"].commit != r.deployment.commit && n.history == [r]
    ensures !PointersAgree(n)
  {}
}

/** The catalog over every sequence of publish, rollback, tag override, candidate, audit and import. */
module CatalogTraces {
  import opened Wrappers
  import opened Text
  import opened CatalogModel
  import opened CatalogInvariant
  import opened CatalogImport

  datatype Op =
    | OpPublish(d: Deployment, releasedAt: Time, id: ReleaseId)
    | OpRollback(request: Request, auditId: string)
    | OpAppTag(workspace: string, app: string, tag: Option<string>)
    | OpActionTag(workspace: string, app: string, action: string, tag: Option<string>)
    | OpAudit(record: Audit, id: string)
    | OpCandidate(d: Deployment, syncedAt: Time)
    | OpImport(imported: Catalog)

  datatype Call = Call(op: Op, now: Time)

  /** Release identifiers are drawn afresh, and an imported catalog is one that agrees. */
  ghost predicate Enabled(c: Catalog, op: Op) {
    match op
    case OpPublish(_, _, id) => FreshId(c, id)
    case OpImport(imported) => Agree(imported) && Consistent(c, imported)
    case _ => true
  }

  /** A failed operation leaves the stored catalog as it was. */
  function Next(c: Catalog, op: Op, now: Time): Catalog {
    var step := match op
      case OpPublish(d, releasedAt, id) => Publish(c, d, releasedAt, id, now)
      case OpRollback(request, auditId) => Rollback(c, request, auditId, now)
      case OpAppTag(workspace, app, tag) => SetAppTag(c, workspace, app, tag, now)
      case OpActionTag(workspace, app, action, tag) => SetActionTag(c, workspace, app, action, tag, now)
      case OpAudit(record, id) => AppendAudit(c, record, id, now)
      case OpCandidate(d, syncedAt) => SaveCandidate(c, d, syncedAt)
      case OpImport(imported) => Success(Import(c, imported));
    if step.Success? then step.value else c
  }

  ghost predicate StepsTo(c: Catalog, call: Call, c': Catalog) {
    Enabled(c, call.op) && c' == Next(c, call.op, call.now)
  }

  ghost predicate Trace(cs: seq<Catalog>, calls: seq<Call>) {
    && |cs| == |calls| + 1 && cs[0] == EMPTY
    && forall i {:trigger calls[i]} :: 0 <= i < |calls| ==> StepsTo(cs[i], calls[i], cs[i + 1])
  }

  lemma SideRecordsKeep(c: Catalog, c': Catalog)
    requires Agree(c) && c' == c.(candidates := c'.candidates, audit := c'.audit)
    ensures Agree(c') && Normalize(c') == c'
  {
    hide RecordOk, Normalize, SameRelease, KeyOf, NormalizedKey, Blank, Defaults;
    forall k | k in c'.active ensures ActiveOk(c', k) {
      assert ActiveOk(c, k);
      var r :| Names(c, k, r);
      assert Names(c', k, r);
    }
    forall k | k in c'.deployments ensures DeploymentOk(c', k) { assert DeploymentOk(c, k); }
    NormalizeIsIdentity(c');
  }

  lemma SideStep(c: Catalog, op: Op, now: Time)
    requires Agree(c) && (op.OpAudit? || op.OpCandidate?)
    ensures var c' := Next(c, op, now); Agree(c') && c' == c.(candidates := c'.candidates, audit := c'.audit) && c.audit <= c'.audit
  {
    NormalizeIsIdentity(c);
    hide Agree, Normalize, NormalizeWorkspace, Trim;
    match op
    case OpAudit(record, id) =>
      var prepared := record.(createdAt := if record.createdAt == 0 then now else record.createdAt, id := if record.id == "" then id else record.id);
      SideRecordsKeep(c, c.(audit := c.audit + [prepared]));
    case OpCandidate(d, syncedAt) =>
      var prepared := Candidate(Defaults(d).(workspace := NormalizeWorkspace(d.workspace), gitSourceId := SourceOf(d)), syncedAt);
      var k := CandidateKey(prepared.deployment.workspace, prepared.deployment.gitSourceId, d.commit);
      SideRecordsKeep(c, c.(candidates := c.candidates[k := prepared]));
  }

  lemma NextAgrees(c: Catalog, op: Op, now: Time)
    requires Agree(c) && Enabled(c, op)
    ensures Agree(Next(c, op, now))
    ensures c.history <= Next(c, op, now).history && c.audit <= Next(c, op, now).audit
  {
    if op.OpAudit? || op.OpCandidate? { SideStep(c, op, now); }
    hide Agree, Publish, Rollback, SetAppTag, SetActionTag, AppendAudit, SaveCandidate, Import, NormalizeWorkspace, DeploymentKey;
    if Next(c, op, now) != c {
      match op
      case OpPublish(d, releasedAt, id) => PublishKeeps(c, d, releasedAt, id, now);
      case OpRollback(request, auditId) => RollbackIsExact(c, request, auditId, now);
      case OpAppTag(workspace, app, tag) => AppTagIsCosmetic(c, workspace, app, tag, now);
      case OpActionTag(workspace, app, action, tag) => ActionTagIsCosmetic(c, workspace, app, action, tag, now);
      case OpImport(imported) => ImportKeeps(c, imported); ImportGrows(c, imported);
      case _ =>
    }
  }

  lemma ImportGrows(c: Catalog, imported: Catalog)
    requires Agree(c)
    ensures c.history <= Import(c, imported).history && c.audit <= Import(c, imported).audit
  {
    ImportNeverReplaces(c, imported);
  }

  lemma {:induction false} AgreesAlways(cs: seq<Catalog>, calls: seq<Call>, i: nat)
    requires Trace(cs, calls) && i < |cs|
    ensures Agree(cs[i])
  {
    if i > 0 {
      AgreesAlways(cs, calls, i - 1);
      hide Agree, Next, Enabled;
      assert StepsTo(cs[i - 1], calls[i - 1], cs[i]);
      NextAgrees(cs[i - 1], calls[i - 1].op, calls[i - 1].now);
    }
  }

  // The position of the record an active pointer names.
  predicate PointsTo(c: Catalog, k: Key, h: nat) {
    k in c.active && h < |c.history| && c.history[h].id == c.active[k]
  }

  predicate IsReleased(d: Deployment, r: Release) {
    && r.app == d.app && NormalizeWorkspace(r.workspace) == NormalizeWorkspace(d.workspace) && r.commit == d.commit
    && Bare(d) == Bare(Defaults(r.deployment))
  }

  /**
   * In every reachable catalog each active pointer names exactly one history
   * record, of the deployment's own workspace and app, and the deployment is
   * that record's apart from tag overrides and timestamps.
   */
  lemma ActiveReleaseAlways(cs: seq<Catalog>, calls: seq<Call>, i: nat, k: Key)
    requires Trace(cs, calls) && i < |cs|
    ensures var c := cs[i];
      && (k in c.active <==> k in c.deployments)
      && (k in c.active ==> exists h: nat :: PointsTo(c, k, h))
      && (forall h: nat, o: nat | PointsTo(c, k, h) && PointsTo(c, k, o) :: h == o)
      && (forall h: nat | PointsTo(c, k, h) :: IsReleased(c.deployments[k], c.history[h]))
  {
    AgreesAlways(cs, calls, i);
    var c := cs[i];
    hide Trace;
    if k in c.active {
      assert ActiveOk(c, k);
      var r :| Names(c, k, r);
      var h: nat :| h < |c.history| && c.history[h] == r;
      assert PointsTo(c, k, h);
      assert RecordOk(r) && DeploymentOk(c, k);
      SameIdentity(c.deployments[k], r.deployment);
      forall o: nat | PointsTo(c, k, o) ensures o == h && IsReleased(c.deployments[k], c.history[o]) {
        hide NormalizeWorkspace, Trim, Bare, KeyOf, ActiveOk;
      }
    }
    hide Agree, IsReleased;
  }

  lemma SameIdentity(d: Deployment, e: Deployment)
    requires SameRelease(d, e)
    ensures d.app == e.app && d.workspace == e.workspace && d.commit == e.commit
  {}

  /** History and audit only grow. */
  lemma {:induction false} HistoryOnlyGrows(cs: seq<Catalog>, calls: seq<Call>, i: nat, k: nat)
    requires Trace(cs, calls) && i <= k < |cs|
    ensures cs[i].history <= cs[k].history && cs[i].audit <= cs[k].audit
    decreases k
  {
    hide Agree, Next, Enabled;
    if i < k {
      HistoryOnlyGrows(cs, calls, i, k - 1);
      AgreesAlways(cs, calls, k - 1);
      assert StepsTo(cs[k - 1], calls[k - 1], cs[k]);
      NextAgrees(cs[k - 1], calls[k - 1].op, calls[k - 1].now);
    }
  }

  /** Rolling back and then rolling back to where one was restores the pointer and the release. */
  lemma RollbackUndone(c: Catalog, there: Request, back: Request, auditId: string, auditId': string, now: Time, now': Time)
    requires Agree(c) && Rollback(c, there, auditId, now).Success?
    requires var c1 := Rollback(c, there, auditId, now).value; Rollback(c1, back, auditId', now').Success?
    requires DeploymentKey(there.workspace, Trim(there.app)) == DeploymentKey(back.workspace, Trim(back.app))
    requires var k := DeploymentKey(there.workspace, Trim(there.app)); k in c.active ==> Trim(back.releaseId) == c.active[k]
    ensures var c2 := Rollback(Rollback(c, there, auditId, now).value, back, auditId', now').value;
      var k := DeploymentKey(there.workspace, Trim(there.app));
      && c2.active == c.active && c2.history == c.history && k in c.deployments && k in c2.deployments
      && SameRelease(c2.deployments[k], c.deployments[k]) && c2.deployments == c.deployments[k := c2.deployments[k]]
  {
    var c1 := Rollback(c, there, auditId, now).value;
    var c2 := Rollback(c1, back, auditId', now').value;
    var k := DeploymentKey(there.workspace, Trim(there.app));
    RollbackIsExact(c, there, auditId, now);
    RollbackIsExact(c1, back, auditId', now');
    hide Rollback, DeploymentKey, Trim, Normalize, Agree, RolledBack;
    var r, a, m :| RolledBack(c, c1, k, Trim(there.releaseId), r, a, m);
    var r', a', m' :| RolledBack(c1, c2, k, Trim(back.releaseId), r', a', m');
    TwoRollbacks(c, c1, c2, k, Trim(there.releaseId), r, a, m, r', a', m');
  }

  lemma TwoRollbacks(c: Catalog, c1: Catalog, c2: Catalog, k: Key, id: ReleaseId, r: Release, a: Audit, m: Marker, r': Release, a': Audit, m': Marker)
    requires Agree(c) && k in c.active && RolledBack(c, c1, k, id, r, a, m) && RolledBack(c1, c2, k, c.active[k], r', a', m')
    ensures c2.active == c.active && c2.history == c.history && k in c.deployments && k in c2.deployments
    ensures SameRelease(c2.deployments[k], c.deployments[k]) && c2.deployments == c.deployments[k := c2.deployments[k]]
  {
    Moved(c, c1, k, id, r, a, m);
    Moved(c1, c2, k, c.active[k], r', a', m');
    UndoneDeployment(c, k, r');
    hide *;
    PutTwice(c.active, c1.active, c2.active, k, id, c.active[k]);
    PutTwice(c.deployments, c1.deployments, c2.deployments, k, Defaults(r.deployment), Defaults(r'.deployment));
  }

  lemma PutTwice<K, V>(m: map<K, V>, m1: map<K, V>, m2: map<K, V>, k: K, v1: V, v2: V)
    requires m1 == m[k := v1] && m2 == m1[k := v2]
    ensures m2 == m[k := v2] && k in m2 && m2[k] == v2
    ensures k in m && m[k] == v2 ==> m2 == m
  {
  }

  lemma Moved(c: Catalog, c': Catalog, k: Key, id: ReleaseId, r: Release, a: Audit, m: Marker)
    requires RolledBack(c, c', k, id, r, a, m)
    ensures r in c.history && r.id == id && c'.history == c.history
    ensures c'.active == c.active[k := id] && c'.deployments == c.deployments[k := Defaults(r.deployment)]
  {
  }

  lemma UndoneDeployment(c: Catalog, k: Key, r: Release)
    requires Agree(c) && k in c.active && r in c.history && r.id == c.active[k]
    ensures k in c.deployments && SameRelease(Defaults(r.deployment), c.deployments[k])
  {
    hide RecordOk, Bare, KeyOf, DeploymentOk;
    assert ActiveOk(c, k);
    var o :| Names(c, k, o);
    IdsAreUnique(c.history, o, r);
  }
}
