/** Ownership over whole histories of one release: casts, uninstalls and whatever the control plane
    does in between. */
module Histories {
  import opened Common
  import opened Services
  import opened Resources
  import opened ServerState
  import opened Execution
  import opened Planning
  import opened Reconcile
  import opened CastSafety
  import opened Restoration
  import opened Rollback
  import opened Ownership
  import opened Uninstalling

  lemma UninstallTouches(owns: seq<Ref>, keepVolumes: bool, r: Ref)
    ensures var cs := Removals(DeletionOrder(owns), keepVolumes);
            && Uniform(cs, r, true)
            && ((exists j :: 0 <= j < |cs| && cs[j].ref == r) <==> r in owns && !(keepVolumes && r.kind.Volume?))
  {
    DeletionOrderSorts(owns);
    SameElements(DeletionOrder(owns), owns);
    var cs := Removals(DeletionOrder(owns), keepVolumes);
    if r in owns && !(keepVolumes && r.kind.Volume?) { assert Change(r, Prune) in cs; }
  }

  /** After a successful uninstall the record owns nothing, which is the truth unless volumes were
      kept; the stamps of other releases are untouched. */
  lemma UninstallStamps(w: World, recs: Records, id: ReleaseId, keepVolumes: bool, purge: bool,
                        admitted: bool, marked: bool, closed: bool, oracle: nat -> Input, name: string, r: Ref)
    requires Owned(w, OwnsOf(Get(recs, id)), id.name)
    requires UninstallRelease(w, recs, id, keepVolumes, purge, admitted, marked, closed, oracle).ok
    ensures var u := UninstallRelease(w, recs, id, keepVolumes, purge, admitted, marked, closed, oracle);
            Stamped(u.world, name, r) <==>
              (if name == id.name then keepVolumes && r.kind.Volume? && r in recs[id].owns else Stamped(w, name, r))
  {
    var u := UninstallRelease(w, recs, id, keepVolumes, purge, admitted, marked, closed, oracle);
    var owns, start := recs[id].owns, w.(pre := map[]);
    var cs := Removals(DeletionOrder(owns), keepVolumes);
    hide RunFrom, Removals, DeletionOrder;
    assert RunFrom(start, NoPayloads(id.name), cs, 0, true, oracle, 0).complete;
    assert Stamped(start, name, r) <==> Stamped(w, name, r);
    assert r in owns <==> Stamped(w, id.name, r);
    if IsManaged(r.kind) {
      UninstallTouches(owns, keepVolumes, r);
      CompleteRunStamps(start, NoPayloads(id.name), cs, 0, true, oracle, 0, name, r, true);
    }
  }

  lemma UninstallEmptiesOwnership(w: World, recs: Records, id: ReleaseId, keepVolumes: bool, purge: bool,
                                  admitted: bool, marked: bool, closed: bool, oracle: nat -> Input)
    requires Owned(w, OwnsOf(Get(recs, id)), id.name)
    requires UninstallRelease(w, recs, id, keepVolumes, purge, admitted, marked, closed, oracle).ok
    ensures var u := UninstallRelease(w, recs, id, keepVolumes, purge, admitted, marked, closed, oracle);
            && OwnsOf(Get(u.records, id)) == []
            && (Owned(u.world, OwnsOf(Get(u.records, id)), id.name) <==>
                !(keepVolumes && exists r :: r in recs[id].owns && r.kind.Volume?))
  {
    var u := UninstallRelease(w, recs, id, keepVolumes, purge, admitted, marked, closed, oracle);
    assert OwnsOf(Get(u.records, id)) == [] by { hide RunFrom; }
    hide UninstallRelease, Stamped;
    forall r ensures Stamped(u.world, id.name, r) <==> keepVolumes && r.kind.Volume? && r in recs[id].owns {
      UninstallStamps(w, recs, id, keepVolumes, purge, admitted, marked, closed, oracle, id.name, r);
    }
  }

  /** Histories */

  datatype Deed =
    | DoCast(spec: CastSpec, payloads: Payloads, live: LiveLookup, fate: Fate)
    | DoUninstall(id: ReleaseId, keepVolumes: bool, purge: bool, admitted: bool, marked: bool, closed: bool, oracle: nat -> Input)
    | Wait(interference: seq<Interference>)

  datatype Cluster = Cluster(world: World, records: Records)

  function Perform(s: Cluster, d: Deed): Cluster {
    match d
    case DoCast(spec, p, live, fate) => var c := Cast(s.world, s.records, spec, p, live, fate); Cluster(c.world, c.records)
    case DoUninstall(id, k, g, a, m, c, o) =>
      var u := UninstallRelease(s.world, s.records, id, k, g, a, m, c, o); Cluster(u.world, u.records)
    case Wait(es) => s.(world := InterfereAll(s.world, es))
  }

  /** The cast asks for what the release owns already. */
  ghost predicate SameOwnership(s: Cluster, spec: CastSpec) {
    forall r :: r in spec.desired && !IsSharedClusterKind(r.kind) <==> r in OwnsOf(Get(s.records, spec.id))
  }

  /** A cast that was rejected, deployed, or fully rolled back with everything cleanly undone, and with the
      outcome recorded unless it makes no difference to ownership.  With other releases around, it must also have planned without --adopt on a truthful lookup. */
  ghost predicate CastCarriedThrough(s: Cluster, ids: set<ReleaseId>, spec: CastSpec, p: Payloads, live: LiveLookup, fate: Fate) {
    var c := Cast(s.world, s.records, spec, p, live, fate);
    && spec.id in ids && p.stamp.release == spec.id.name && SupportedKinds(spec.desired)
    && (ids == {spec.id} || (!spec.adopt && forall r :: live(r) == Some(Lookup(s.world, r, false))))
    && (c.outcome.NotStarted? || c.outcome.IsDeployed?
        || (c.outcome.RolledBack? && (c.saved || SameOwnership(s, spec))
            && forall r: Ref :: IsManaged(r.kind) ==> CleanlyUndone(s.world, s.records, spec, p, live, fate, r)))
  }

  ghost predicate CarriedThrough(s: Cluster, ids: set<ReleaseId>, d: Deed) {
    match d
    case DoCast(spec, p, live, fate) => CastCarriedThrough(s, ids, spec, p, live, fate)
    case DoUninstall(id, k, g, a, m, c, o) =>
      id in ids &&
      (id !in s.records || !a
       || (UninstallRelease(s.world, s.records, id, k, g, a, m, c, o).ok
           && !(k && exists r :: r in s.records[id].owns && r.kind.Volume?)))
    case Wait(_) => true
  }

  ghost predicate Consistent(s: Cluster, id: ReleaseId) { Owned(s.world, OwnsOf(Get(s.records, id)), id.name) }

  ghost predicate DistinctNames(ids: set<ReleaseId>) {
    forall a, b :: a in ids && b in ids && a.name == b.name ==> a == b
  }

  lemma OtherRecordsUnchanged(w: World, recs: Records, spec: CastSpec, p: Payloads, live: LiveLookup, fate: Fate, id: ReleaseId)
    requires id != spec.id
    ensures Get(Cast(w, recs, spec, p, live, fate).records, id) == Get(recs, id)
  {
    PreparedFromPlan(recs, spec, live, fate.admitted, fate.pendingSaved);
    hide Prepare, RunFrom, RevertAll, TraceFrom;
  }

  lemma RollbackKeepsOwnership(s: Cluster, ids: set<ReleaseId>, spec: CastSpec, p: Payloads, live: LiveLookup, fate: Fate, id: ReleaseId)
    requires CastCarriedThrough(s, ids, spec, p, live, fate) && Cast(s.world, s.records, spec, p, live, fate).outcome.RolledBack?
    requires Consistent(s, id)
    ensures Consistent(Perform(s, DoCast(spec, p, live, fate)), id)
  {
    hide Cast, Stamped, CleanlyUndone;
    var c := Cast(s.world, s.records, spec, p, live, fate);
    RolledBackCastKeepsOwnership(s.world, s.records, spec, p, live, fate);
    if id != spec.id { OtherRecordsUnchanged(s.world, s.records, spec, p, live, fate, id); }
    forall r ensures r in OwnsOf(Get(c.records, id)) <==> r in OwnsOf(Get(s.records, id)) { }
    forall r ensures Stamped(c.world, id.name, r) <==> Stamped(s.world, id.name, r) {
      assert !IsManaged(r.kind) || CleanlyUndone(s.world, s.records, spec, p, live, fate, r);
    }
  }

  lemma CastKeepsOwnership(s: Cluster, ids: set<ReleaseId>, spec: CastSpec, p: Payloads, live: LiveLookup, fate: Fate, id: ReleaseId)
    requires id in ids && DistinctNames(ids) && Consistent(s, id) && Consistent(s, spec.id)
    requires CastCarriedThrough(s, ids, spec, p, live, fate)
    ensures Consistent(Perform(s, DoCast(spec, p, live, fate)), id)
  {
    var c := Cast(s.world, s.records, spec, p, live, fate);
    CastRecord(s.world, s.records, spec, p, live, fate);
    if id != spec.id { OtherRecordsUnchanged(s.world, s.records, spec, p, live, fate, id); }
    hide Cast, Stamped, CleanlyUndone;
    if c.outcome.RolledBack? {
      RollbackKeepsOwnership(s, ids, spec, p, live, fate, id);
    } else if c.outcome.IsDeployed? {
      if id == spec.id { DeployedCastOwnsItsStamps(s.world, s.records, spec, p, live, fate); }
      else { DeployedCastLeavesOthersAlone(s.world, s.records, spec, p, live, fate, id.name); }
    }
  }

  lemma UninstallKeepsOwnership(s: Cluster, ids: set<ReleaseId>, d: Deed, id: ReleaseId)
    requires d.DoUninstall? && id in ids && DistinctNames(ids) && Consistent(s, id) && Consistent(s, d.id)
    requires CarriedThrough(s, ids, d)
    ensures Consistent(Perform(s, d), id)
  {
    var u := UninstallRelease(s.world, s.records, d.id, d.keepVolumes, d.purge, d.admitted, d.marked, d.closed, d.oracle);
    assert id != d.id ==> Get(u.records, id) == Get(s.records, id) by { hide RunFrom; }
    assert d.id !in s.records || !d.admitted ==> u.world == s.world && u.records == s.records by { hide RunFrom; }
    hide UninstallRelease, Stamped;
    if d.id !in s.records || !d.admitted {
      assert Perform(s, d) == s;
    } else if id == d.id {
      UninstallEmptiesOwnership(s.world, s.records, id, d.keepVolumes, d.purge, d.admitted, d.marked, d.closed, d.oracle);
    } else {
      forall r ensures Stamped(u.world, id.name, r) <==> Stamped(s.world, id.name, r) {
        UninstallStamps(s.world, s.records, d.id, d.keepVolumes, d.purge, d.admitted, d.marked, d.closed, d.oracle, id.name, r);
      }
    }
  }

  lemma DeedKeepsOwnership(s: Cluster, ids: set<ReleaseId>, d: Deed)
    requires DistinctNames(ids) && (forall id :: id in ids ==> Consistent(s, id)) && CarriedThrough(s, ids, d)
    ensures forall id :: id in ids ==> Consistent(Perform(s, d), id)
  {
    hide Perform, Owned, CastCarriedThrough, UninstallRelease;
    forall id | id in ids ensures Consistent(Perform(s, d), id) {
      match d
      case DoCast(spec, p, live, fate) =>
        assert spec.id in ids by { SpecIsListed(s, ids, spec, p, live, fate); }
        CastKeepsOwnership(s, ids, spec, p, live, fate, id);
      case DoUninstall(_, _, _, _, _, _, _) => UninstallKeepsOwnership(s, ids, d, id);
      case Wait(es) => WaitKeepsOwnership(s, es, id);
    }
  }

  lemma SpecIsListed(s: Cluster, ids: set<ReleaseId>, spec: CastSpec, p: Payloads, live: LiveLookup, fate: Fate)
    requires CastCarriedThrough(s, ids, spec, p, live, fate)
    ensures spec.id in ids
  {
  }

  lemma WaitKeepsOwnership(s: Cluster, es: seq<Interference>, id: ReleaseId)
    requires Consistent(s, id)
    ensures Consistent(Perform(s, Wait(es)), id)
  {
    hide Stamped;
    forall r ensures Stamped(InterfereAll(s.world, es), id.name, r) <==> Stamped(s.world, id.name, r) {
      InterferenceKeepsStamps(s.world, es, id.name, r);
    }
  }

  function PerformAll(s: Cluster, ds: seq<Deed>): Cluster {
    if ds == [] then s else Perform(PerformAll(s, ds[..|ds| - 1]), ds[|ds| - 1])
  }

  /** Main result.  Take any releases with distinct names and any history of their casts and
      uninstalls, each carried through.  Afterwards the record of each release owns exactly the live
      resources stamped with it; in particular none owns a shared cluster kind. */
  lemma {:induction false} OwnershipOverHistories(s: Cluster, ids: set<ReleaseId>, ds: seq<Deed>)
    requires DistinctNames(ids) && forall id :: id in ids ==> Consistent(s, id)
    requires forall i :: 0 <= i < |ds| ==> CarriedThrough(PerformAll(s, ds[..i]), ids, ds[i])
    ensures forall id :: id in ids ==> Consistent(PerformAll(s, ds), id)
    ensures forall id, r :: id in ids && r in OwnsOf(Get(PerformAll(s, ds).records, id)) ==> !IsSharedClusterKind(r.kind)
  {
    hide Perform, CarriedThrough, Owned;
    if ds != [] {
      var init := ds[..|ds| - 1];
      assert forall i :: 0 <= i < |init| ==> init[..i] == ds[..i] && init[i] == ds[i];
      OwnershipOverHistories(s, ids, init);
      assert CarriedThrough(PerformAll(s, ds[..|ds| - 1]), ids, ds[|ds| - 1]);
      DeedKeepsOwnership(PerformAll(s, init), ids, ds[|ds| - 1]);
    }
    forall id | id in ids ensures forall r :: r in OwnsOf(Get(PerformAll(s, ds).records, id)) ==> IsManaged(r.kind) {
      OwnedIsManaged(PerformAll(s, ds), id);
    }
  }

  lemma OwnedIsManaged(s: Cluster, id: ReleaseId)
    requires Consistent(s, id)
    ensures forall r :: r in OwnsOf(Get(s.records, id)) ==> IsManaged(r.kind)
  {
  }
}
