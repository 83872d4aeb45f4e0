/** Where the release engine stops keeping its promises, each limit with the exact condition. */
module Limits {
  import opened Common
  import opened Services
  import opened Resources
  import opened ServerState
  import opened Restoration
  import opened Execution
  import opened Rollback
  import opened Planning
  import opened Reconcile
  import opened CastSafety
  import opened Ownership
  import opened Uninstalling
  import opened Histories

  /** Failed casts that are not rolled back */

  lemma FailedChangeKeepsStamps(w: World, p: Payloads, c: Change, i: Input, name: string, r: Ref)
    requires !Exec(w, p, c, i).ok
    ensures Stamped(Exec(w, p, c, i).world, name, r) <==> Stamped(w, name, r)
  {
    var v := InterfereAll(w, i.interference);
    InterferenceKeepsStamps(w, i.interference, name, r);
    hide InterfereAll;
    FailureChangesNothing(v, p, c, i.fault);
    hide Applied, Pruned;
  }

  /** Every applier call takes effect or leaves the cluster as it was. */
  lemma FailureChangesNothing(v: World, p: Payloads, c: Change, f: Fault)
    ensures var s := if c.action.Prune? then Pruned(v, c.ref, f) else Applied(v, p, c.ref, f);
            !s.ok ==> s.world.services == v.services && s.world.durables == v.durables
  {
    hide Carry, UpdatedDurable, CreatedDurable, Seed, Tombstone;
  }

  /** What a run, complete or not, did to the stamp of `r`. */
  ghost predicate StampAfter(T: seq<Event>, before: bool, after: bool, r: Ref, prune: bool) {
    after <==> if prune then before && DidPrune(r, true) !in T else before || DidApply(r, true) in T
  }

  lemma {:induction false} StepsStamp(w: World, p: Payloads, all: seq<Change>, split: nat, verified: bool, oracle: nat -> Input,
                                      i: nat, r: Ref, prune: bool)
    requires i <= |all| && IsManaged(r.kind) && Uniform(all, r, prune)
    ensures StampAfter(StepsFrom(w, p, all, split, verified, oracle, i), Stamped(w, p.stamp.release, r),
                       Stamped(RunFrom(w, p, all, split, verified, oracle, i).world, p.stamp.release, r), r, prune)
    decreases |all| - i, 0
  {
    hide Stamped, Exec;
    if i < |all| && !(i == split && !verified) {
      var s, name := Exec(w, p, all[i], oracle(i)), p.stamp.release;
      if s.ok {
        ExecStamps(w, p, all[i], oracle(i), name, r);
        RunStamps(s.world, p, all, split, verified, oracle, i + 1, r, prune);
      } else {
        FailedChangeKeepsStamps(w, p, all[i], oracle(i), name, r);
      }
    }
  }

  lemma {:induction false} RunStamps(w: World, p: Payloads, all: seq<Change>, split: nat, verified: bool, oracle: nat -> Input,
                                     i: nat, r: Ref, prune: bool)
    requires i <= |all| && IsManaged(r.kind) && Uniform(all, r, prune)
    ensures StampAfter(TraceFrom(w, p, all, split, verified, oracle, i), Stamped(w, p.stamp.release, r),
                       Stamped(RunFrom(w, p, all, split, verified, oracle, i).world, p.stamp.release, r), r, prune)
    decreases |all| - i, 1
  {
    hide Stamped, RunFrom, StepsFrom;
    StepsStamp(w, p, all, split, verified, oracle, i, r, prune);
  }

  lemma FailedCast(w: World, recs: Records, spec: CastSpec, p: Payloads, live: LiveLookup, fate: Fate)
    ensures var c, plan := Cast(w, recs, spec, p, live, fate), PlanFor(recs, spec, live);
            c.outcome.LeftFailed? ==>
              && OwnsOf(Get(c.records, spec.id)) == OwnedRefs(plan)
              && c.world == RunFrom(w.(pre := map[]), p, AppliesOf(plan) + PrunesOf(plan), |AppliesOf(plan)|, fate.verified, fate.oracle, 0).world
              && c.trace == TraceFrom(w.(pre := map[]), p, AppliesOf(plan) + PrunesOf(plan), |AppliesOf(plan)|, fate.verified, fate.oracle, 0)
  {
    PreparedFromPlan(recs, spec, live, fate.admitted, fate.pendingSaved);
    hide Prepare, RunFrom, RevertAll, TraceFrom, AppliesOf, PrunesOf, OwnedRefs, PlanOf;
  }

  /** A failed cast that is not rolled back records what it meant to own.  The record is true if and
      only if everything desired was stamped before or got applied, and everything dropped got pruned:
      what was not pruned stays in the cluster, stamped, and no record owns it. */
  lemma FailedCastRecord(w: World, recs: Records, spec: CastSpec, p: Payloads, live: LiveLookup, fate: Fate)
    requires Owned(w, OwnsOf(Get(recs, spec.id)), spec.id.name)
    requires p.stamp.release == spec.id.name && SupportedKinds(spec.desired)
    requires Cast(w, recs, spec, p, live, fate).outcome.LeftFailed?
    ensures var c, owned := Cast(w, recs, spec, p, live, fate), OwnsOf(Get(recs, spec.id));
            Owned(c.world, OwnsOf(Get(c.records, spec.id)), spec.id.name) <==>
              && (forall r :: r in spec.desired && IsManaged(r.kind) ==> r in owned || DidApply(r, true) in c.trace)
              && (forall r :: r in owned && r !in spec.desired ==> DidPrune(r, true) in c.trace)
  {
    var c, plan, prev := Cast(w, recs, spec, p, live, fate), PlanFor(recs, spec, live), Get(recs, spec.id);
    FailedCast(w, recs, spec, p, live, fate);
    hide Cast, RunFrom, TraceFrom, AppliesOf, PrunesOf, PlanOf, Stamped;
    var all, start, name := AppliesOf(plan) + PrunesOf(plan), w.(pre := map[]), spec.id.name;
    forall r
      ensures r in OwnsOf(Get(c.records, spec.id)) <==> r in spec.desired && !IsSharedClusterKind(r.kind)
      ensures IsManaged(r.kind) ==> StampAfter(c.trace, r in OwnsOf(prev), Stamped(c.world, name, r), r, r !in spec.desired)
    {
      PlanOwnsExactly(name, spec.desired, prev, live, spec.adopt, r);
      ExecutionListTouches(plan, spec, prev, live, r);
      SameStamps(w, start, name, r);
      if IsManaged(r.kind) {
        RunStamps(start, p, all, |AppliesOf(plan)|, fate.verified, fate.oracle, 0, r, r !in spec.desired);
      }
    }
    forall r ensures Stamped(w, name, r) || Stamped(c.world, name, r) ==> IsManaged(r.kind) {
      StampedIsManaged(w, name, r);
      StampedIsManaged(c.world, name, r);
    }
  }

  lemma SameStamps(a: World, b: World, name: string, r: Ref)
    requires a.services == b.services && a.durables == b.durables
    ensures Stamped(a, name, r) <==> Stamped(b, name, r)
  {
  }

  lemma StampedIsManaged(w: World, name: string, r: Ref)
    ensures Stamped(w, name, r) ==> IsManaged(r.kind)
  {
  }

  /** Rolled back casts whose record is not restored */

  /** When the closing write of a rolled back cast fails, or its rollback is incomplete, the record keeps the
      list that the cast meant to own.  What it says of a cleanly undone resource is true if and only if
      the cast had meant to leave the ownership of that resource as it was. */
  lemma RecordAfterRollback(w: World, recs: Records, spec: CastSpec, p: Payloads, live: LiveLookup, fate: Fate, r: Ref)
    requires Owned(w, OwnsOf(Get(recs, spec.id)), spec.id.name)
    requires var c := Cast(w, recs, spec, p, live, fate); c.outcome.RollbackIncomplete? || (c.outcome.RolledBack? && !c.saved)
    requires !IsManaged(r.kind) || CleanlyUndone(w, recs, spec, p, live, fate, r)
    ensures var c, before := Cast(w, recs, spec, p, live, fate), OwnsOf(Get(recs, spec.id));
            (r in OwnsOf(Get(c.records, spec.id)) <==> Stamped(c.world, spec.id.name, r)) <==>
              (r in spec.desired && !IsSharedClusterKind(r.kind) <==> r in before)
  {
    RolledBackCastKeepsOwnership(w, recs, spec, p, live, fate);
    hide Cast, Stamped, CleanlyUndone;
  }

  /** So a rolled back cast whose closing write failed leaves a true record if and only if it asked for what
      the release owned already. */
  lemma UnsavedRollbackRecordIff(w: World, recs: Records, spec: CastSpec, p: Payloads, live: LiveLookup, fate: Fate)
    requires Owned(w, OwnsOf(Get(recs, spec.id)), spec.id.name)
    requires var c := Cast(w, recs, spec, p, live, fate); c.outcome.RolledBack? && !c.saved
    requires forall r: Ref :: IsManaged(r.kind) ==> CleanlyUndone(w, recs, spec, p, live, fate, r)
    ensures var c := Cast(w, recs, spec, p, live, fate);
            Owned(c.world, OwnsOf(Get(c.records, spec.id)), spec.id.name) <==>
              forall r :: r in spec.desired && !IsSharedClusterKind(r.kind) <==> r in OwnsOf(Get(recs, spec.id))
  {
    hide Cast, Stamped, CleanlyUndone;
    forall r
      ensures var c := Cast(w, recs, spec, p, live, fate);
              (r in OwnsOf(Get(c.records, spec.id)) <==> Stamped(c.world, spec.id.name, r)) <==>
                (r in spec.desired && !IsSharedClusterKind(r.kind) <==> r in OwnsOf(Get(recs, spec.id)))
    {
      assert !IsManaged(r.kind) || CleanlyUndone(w, recs, spec, p, live, fate, r);
      RecordAfterRollback(w, recs, spec, p, live, fate, r);
    }
  }

  /** The failing input: the first cast of a release creates a secret, the check fails, the rollback removes
      the secret and reports success, and the record that says so is not written: the stored one, still
      pending, owns a secret that does not exist. */
  lemma UnsavedRollbackOwnsNothing(d: Durable, name: string)
    ensures var r := Ref(Secret, "prod", "db");
            var spec := CastSpec(ReleaseId("prod", name), [r], false, false, true);
            var calm := (i: nat) => Input([], Fault(false, false, ""));
            var c := Cast(World(map[], map[], map[]), map[], spec, Payloads(map[], map[r := d], OwnedBy(name, 1)),
                          (x: Ref) => Some(LiveState(false, None)), Fate(true, true, false, false, calm, calm));
            && c.outcome == RolledBack && r !in c.world.durables
            && spec.id in c.records && c.records[spec.id] == Release(Pending, 1, [r], [])
  {
    var r := Ref(Secret, "prod", "db");
    var spec := CastSpec(ReleaseId("prod", name), [r], false, false, true);
    var calm := (i: nat) => Input([], Fault(false, false, ""));
    var live := (x: Ref) => Some(LiveState(false, None));
    var w, p := World(map[], map[], map[]), Payloads(map[], map[r := d], OwnedBy(name, 1));
    var fate := Fate(true, true, false, false, calm, calm);
    FirstPlan(spec, r, live);
    CreateThenFail(w, p, r, calm);
    var plan := PlanFor(map[], spec, live);
    hide RunFrom, RevertAll, TraceFrom, PlanOf, AppliesOf, PrunesOf;
    var all := [Change(r, Create)] + [];
    assert all == [Change(r, Create)] && all[..1] == all && w.(pre := map[]) == w;
  }

  lemma FirstPlan(spec: CastSpec, r: Ref, live: LiveLookup)
    requires spec.desired == [r] && r.kind.Secret? && live(r) == Some(LiveState(false, None))
    ensures var plan := PlanFor(map[], spec, live);
            && IsApplyable(plan) && AppliesOf(plan) == [Change(r, Create)] && PrunesOf(plan) == []
            && OwnedRefs(plan) == [r] && ReferencedRefs(plan) == []
  {
    var one := Planned(Change(r, Create), None);
    assert spec.desired[1..] == [];
    assert PlanFor(map[], spec, live) == [one] + [] == [one];
    assert [one][1..] == [];
    assert ChangesWhere([one], false) == [Change(r, Create)] && ChangesWhere([one], true) == [];
    assert [Change(r, Create)][1..] == [];
  }

  lemma CreateThenFail(w: World, p: Payloads, r: Ref, calm: nat -> Input)
    requires w == World(map[], map[], map[]) && r.kind.Secret? && r in p.durables
    requires forall i :: calm(i) == Input([], Fault(false, false, ""))
    ensures var all := [Change(r, Create)];
            var run := RunFrom(w, p, all, 1, false, calm, 0);
            var back := RevertAll(run.world, all, calm, 0);
            !run.complete && run.count == 1 && back.errors == 0 && r !in back.world.durables
  {
    var all := [Change(r, Create)];
    assert calm(0) == Input([], Fault(false, false, ""));
    var s := Exec(w, p, all[0], calm(0));
    assert s.ok && Get(s.world.durables, r).Some? && Get(s.world.pre, r) == Some(ABSENT);
    assert RunFrom(s.world, p, all, 1, false, calm, 1) == Run(s.world, 1, false);
    assert RunFrom(w, p, all, 1, false, calm, 0) == Run(s.world, 1, false);
    assert all[..0] == [];
    var b := Reverted(s.world, r, calm(0).fault);
    assert b.ok && r !in b.world.durables;
    assert RevertAll(b.world, [], calm, 1) == Execution.Rollback(b.world, 0, []);
  }

  /** Deployed casts */

  /** A deployed cast records the truth if and only if it asked for supported kinds only: any other
      kind is recorded as owned although nothing was applied. */
  lemma DeployedRecordIsTrue(w: World, recs: Records, spec: CastSpec, p: Payloads, live: LiveLookup, fate: Fate)
    requires Owned(w, OwnsOf(Get(recs, spec.id)), spec.id.name) && p.stamp.release == spec.id.name
    requires Cast(w, recs, spec, p, live, fate).outcome.IsDeployed?
    ensures var c := Cast(w, recs, spec, p, live, fate);
            Owned(c.world, OwnsOf(Get(c.records, spec.id)), spec.id.name) <==> SupportedKinds(spec.desired)
  {
    var c := Cast(w, recs, spec, p, live, fate);
    if SupportedKinds(spec.desired) {
      DeployedCastOwnsItsStamps(w, recs, spec, p, live, fate);
    } else {
      CastRecord(w, recs, spec, p, live, fate);
      hide Cast, PlanOf, Stamped, RunFrom;
      var r :| r in spec.desired && !IsManaged(r.kind) && !IsSharedClusterKind(r.kind);
      PlanOwnsExactly(spec.id.name, spec.desired, Get(recs, spec.id), live, spec.adopt, r);
      StampedIsManaged(c.world, spec.id.name, r);
    }
  }

  /** Whatever the lookup said and whether or not adoption was asked for, a deployed cast takes from
      another release exactly the desired resources stamped with it. */
  lemma DeployedCastTakesWhatItDesires(w: World, recs: Records, spec: CastSpec, p: Payloads, live: LiveLookup, fate: Fate, other: string, r: Ref)
    requires Owned(w, OwnsOf(Get(recs, spec.id)), spec.id.name)
    requires p.stamp.release == spec.id.name && other != spec.id.name
    requires Cast(w, recs, spec, p, live, fate).outcome.IsDeployed?
    ensures Stamped(Cast(w, recs, spec, p, live, fate).world, other, r) <==> Stamped(w, other, r) && r !in spec.desired
  {
    CastRecord(w, recs, spec, p, live, fate);
    var c, plan, prev := Cast(w, recs, spec, p, live, fate), PlanFor(recs, spec, live), Get(recs, spec.id);
    StampsAreExclusive(w, spec.id.name, other, r);
    assert r in OwnsOf(prev) <==> Stamped(w, spec.id.name, r);
    StampedIsManaged(c.world, other, r);
    StampedIsManaged(w, other, r);
    hide Cast, RunFrom, AppliesOf, PrunesOf, PlanOf, Stamped, Owned;
    var all, start := AppliesOf(plan) + PrunesOf(plan), w.(pre := map[]);
    if IsManaged(r.kind) {
      ExecutionListTouches(plan, spec, prev, live, r);
      CompleteRunStamps(start, p, all, |AppliesOf(plan)|, fate.verified, fate.oracle, 0, other, r, r !in spec.desired);
      SameStamps(w, start, other, r);
    }
  }

  lemma StampsAreExclusive(w: World, a: string, b: string, r: Ref)
    requires a != b
    ensures !(Stamped(w, a, r) && Stamped(w, b, r))
  {
  }

  /** So the record of the other release stays true if and only if nothing desired was its own. */
  lemma AdoptionBreaksTheOtherRecord(w: World, recs: Records, spec: CastSpec, p: Payloads, live: LiveLookup, fate: Fate, other: ReleaseId)
    requires Owned(w, OwnsOf(Get(recs, spec.id)), spec.id.name) && Owned(w, OwnsOf(Get(recs, other)), other.name)
    requires p.stamp.release == spec.id.name && other.name != spec.id.name
    requires Cast(w, recs, spec, p, live, fate).outcome.IsDeployed?
    ensures var c := Cast(w, recs, spec, p, live, fate);
            Owned(c.world, OwnsOf(Get(c.records, other)), other.name) <==>
              forall r :: r in spec.desired ==> r !in OwnsOf(Get(recs, other))
  {
    OtherRecordsUnchanged(w, recs, spec, p, live, fate, other);
    var c := Cast(w, recs, spec, p, live, fate);
    forall r ensures Stamped(c.world, other.name, r) <==> r in OwnsOf(Get(recs, other)) && r !in spec.desired {
      DeployedCastTakesWhatItDesires(w, recs, spec, p, live, fate, other.name, r);
    }
    hide Cast, Stamped;
  }

  /** The plan shows the conflict only if the lookup did not fail: a failed read plans a create, and
      the apply then overwrites the other release's resource. */
  lemma FailedLookupHidesConflict(w: World, name: string, r: Ref, readFails: bool, other: string)
    requires Stamped(w, other, r) && other != name
    ensures PlanOne(name, false, r, Some(Lookup(w, r, readFails)), false).conflict.Some? <==> !readFails
  {
  }

  /** Uninstalls that fail half way */

  /** Not there at all. */
  predicate Missing(w: World, r: Ref) { if r.kind.Service? then r !in w.services else r !in w.durables }

  lemma {:induction false} InterferenceKeepsMissing(w: World, es: seq<Interference>, r: Ref)
    requires Missing(w, r)
    ensures Missing(InterfereAll(w, es), r)
    decreases |es|
  {
    if es != [] { InterferenceKeepsMissing(w, es[..|es| - 1], r); }
  }

  lemma PruningKeepsMissing(v: World, c: Ref, f: Fault, r: Ref)
    requires Missing(v, r) && IsManaged(r.kind)
    ensures var s := Pruned(v, c, f); Missing(s.world, r) && (c == r ==> !s.ok)
  {
  }

  lemma {:induction false} MissingStopsRemoval(w: World, p: Payloads, all: seq<Change>, oracle: nat -> Input, i: nat, r: Ref)
    requires i <= |all| && Missing(w, r) && IsManaged(r.kind)
    requires forall j :: 0 <= j < |all| ==> all[j].action.Prune?
    ensures var run := RunFrom(w, p, all, 0, true, oracle, i);
            Missing(run.world, r) && ((exists j :: i <= j < |all| && all[j].ref == r) ==> !run.complete)
    decreases |all| - i
  {
    hide Pruned, Missing;
    if i < |all| {
      var v := InterfereAll(w, oracle(i).interference);
      InterferenceKeepsMissing(w, oracle(i).interference, r);
      PruningKeepsMissing(v, all[i].ref, oracle(i).fault, r);
      var s := Exec(w, p, all[i], oracle(i));
      if s.ok { MissingStopsRemoval(s.world, p, all, oracle, i + 1, r); }
    }
  }

  /** The record still lists `r`, and `r` is gone. */
  ghost predicate Stuck(s: Cluster, id: ReleaseId, r: Ref) {
    id in s.records && r in s.records[id].owns && IsManaged(r.kind) && Missing(s.world, r)
  }

  /** The uninstall has to remove `r`. */
  predicate Removes(d: Deed, r: Ref) { d.DoUninstall? && !(d.keepVolumes && r.kind.Volume?) }

  lemma StuckUninstallFails(s: Cluster, d: Deed, r: Ref)
    requires Removes(d, r) && Stuck(s, d.id, r)
    ensures !UninstallRelease(s.world, s.records, d.id, d.keepVolumes, d.purge, d.admitted, d.marked, d.closed, d.oracle).ok
    ensures Stuck(Perform(s, d), d.id, r)
  {
    var owns, start := s.records[d.id].owns, s.world.(pre := map[]);
    var cs := Removals(DeletionOrder(owns), d.keepVolumes);
    UninstallTouches(owns, d.keepVolumes, r);
    MissingStopsRemoval(start, NoPayloads(d.id.name), cs, d.oracle, 0, r);
    hide RunFrom, Removals, DeletionOrder;
  }

  lemma StuckWhileWaiting(s: Cluster, es: seq<Interference>, id: ReleaseId, r: Ref)
    requires Stuck(s, id, r)
    ensures Stuck(Perform(s, Wait(es)), id, r)
  {
    InterferenceKeepsMissing(s.world, es, r);
    hide InterfereAll;
  }

  /** How a cluster gets stuck: an uninstall that fails after it has removed `r`. */
  lemma HalfwayIsStuck(s: Cluster, d: Deed, r: Ref)
    requires d.DoUninstall? && d.id in s.records && r in s.records[d.id].owns && IsManaged(r.kind)
    requires !UninstallRelease(s.world, s.records, d.id, d.keepVolumes, d.purge, d.admitted, d.marked, d.closed, d.oracle).ok
    requires Missing(Perform(s, d).world, r)
    ensures Stuck(Perform(s, d), d.id, r)
  {
    hide RunFrom;
  }

  /** Retrying does not help: once something that the record lists is gone, no sequence of further attempts
      that would have to remove it, with any options and any waiting in between, ever completes. */
  lemma {:induction false} RetriesNeverComplete(s: Cluster, ds: seq<Deed>, id: ReleaseId, r: Ref)
    requires Stuck(s, id, r)
    requires forall i :: 0 <= i < |ds| ==> ds[i].Wait? || (Removes(ds[i], r) && ds[i].id == id)
    ensures Stuck(PerformAll(s, ds), id, r)
    ensures forall i :: 0 <= i < |ds| && ds[i].DoUninstall? ==> UninstallFails(PerformAll(s, ds[..i]), ds[i])
  {
    hide Stuck, Perform, UninstallRelease;
    if ds != [] {
      var n := |ds| - 1;
      var init, d := ds[..n], ds[n];
      assert forall i :: 0 <= i < n ==> init[..i] == ds[..i] && init[i] == ds[i];
      RetriesNeverComplete(s, init, id, r);
      if d.Wait? { StuckWhileWaiting(PerformAll(s, init), d.interference, id, r); }
      else { StuckUninstallFails(PerformAll(s, init), d, r); }
    }
  }

  predicate UninstallFails(s: Cluster, d: Deed)
    requires d.DoUninstall?
  {
    !UninstallRelease(s.world, s.records, d.id, d.keepVolumes, d.purge, d.admitted, d.marked, d.closed, d.oracle).ok
  }

  /** Uninstalls that complete */

  predicate NoWriteFails(oracle: nat -> Input, i: nat) { oracle(i).interference == [] && !oracle(i).fault.writeFails }

  /** How often `r` is to be removed. */
  function Times(cs: seq<Change>, r: Ref): nat {
    if cs == [] then 0 else (if cs[0].ref == r then 1 else 0) + Times(cs[1..], r)
  }

  /** Nothing stands in the way of removing `r`: a service that is there can be deleted again and again,
      any other resource once. */
  predicate Removable(w: World, cs: seq<Change>, r: Ref) {
    IsManaged(r.kind) && Times(cs, r) > 0 ==> !Missing(w, r) && (r.kind.Service? || Times(cs, r) == 1)
  }

  lemma RemovalStep(w: World, cs: seq<Change>, f: Fault, r: Ref)
    requires cs != [] && !f.writeFails
    ensures var s := Pruned(w, cs[0].ref, f);
            if r == cs[0].ref then Removable(w, cs, r) <==> s.ok && Removable(s.world, cs[1..], r)
            else Removable(w, cs, r) <==> Removable(s.world, cs[1..], r)
  {
    hide Tombstone;
  }

  ghost predicate AllRemovable(w: World, cs: seq<Change>) { forall r :: Removable(w, cs, r) }

  lemma AllRemovableStep(w: World, cs: seq<Change>, f: Fault)
    requires cs != [] && !f.writeFails
    ensures var s := Pruned(w, cs[0].ref, f); AllRemovable(w, cs) <==> s.ok && AllRemovable(s.world, cs[1..])
  {
    hide Pruned, Removable;
    var s := Pruned(w, cs[0].ref, f);
    if AllRemovable(w, cs) {
      assert Removable(w, cs, cs[0].ref);
      RemovalStep(w, cs, f, cs[0].ref);
      assert s.ok;
      forall r ensures Removable(s.world, cs[1..], r) {
        assert Removable(w, cs, r);
        RemovalStep(w, cs, f, r);
      }
    }
    if s.ok && AllRemovable(s.world, cs[1..]) {
      forall r ensures Removable(w, cs, r) { RemovalStep(w, cs, f, r); }
    }
  }

  lemma {:induction false} RemovalCompletesIff(w: World, p: Payloads, cs: seq<Change>, oracle: nat -> Input, i: nat)
    requires i <= |cs| && (forall j :: NoWriteFails(oracle, j)) && forall j :: 0 <= j < |cs| ==> cs[j].action.Prune?
    ensures RunFrom(w, p, cs, 0, true, oracle, i).complete <==> AllRemovable(w, cs[i..])
    decreases |cs| - i
  {
    hide Pruned, AllRemovable;
    if i == |cs| {
      NothingToRemove(w);
    } else {
      assert NoWriteFails(oracle, i);
      var s := Pruned(w, cs[i].ref, oracle(i).fault);
      assert cs[i..][0] == cs[i] && cs[i..][1..] == cs[i + 1..];
      assert Exec(w, p, cs[i], oracle(i)) == s;
      AllRemovableStep(w, cs[i..], oracle(i).fault);
      if s.ok { RemovalCompletesIff(s.world, p, cs, oracle, i + 1); }
    }
  }

  lemma NothingToRemove(w: World)
    ensures AllRemovable(w, [])
  {
  }

  lemma {:induction false} RemovalsCount(order: seq<Ref>, keepVolumes: bool, r: Ref)
    ensures Times(Removals(order, keepVolumes), r) == if keepVolumes && r.kind.Volume? then 0 else multiset(order)[r]
  {
    if order != [] {
      RemovalsCount(order[1..], keepVolumes, r);
      assert order == [order[0]] + order[1..];
      var rest := Removals(order[1..], keepVolumes);
      assert ([Change(order[0], Prune)] + rest)[1..] == rest;
    }
  }

  /** An admitted uninstall that meets no write failure completes if and only if everything it has to
      remove is there, and nothing but services is listed twice. */
  lemma UninstallCompletesIff(s: Cluster, d: Deed)
    requires d.DoUninstall? && d.id in s.records && d.admitted && d.closed && forall i :: NoWriteFails(d.oracle, i)
    ensures UninstallRelease(s.world, s.records, d.id, d.keepVolumes, d.purge, d.admitted, d.marked, d.closed, d.oracle).ok <==>
              forall r :: r in s.records[d.id].owns && IsManaged(r.kind) && !(d.keepVolumes && r.kind.Volume?) ==>
                !Missing(s.world, r) && (r.kind.Service? || multiset(s.records[d.id].owns)[r] == 1)
  {
    var owns, start := s.records[d.id].owns, s.world.(pre := map[]);
    var cs := Removals(DeletionOrder(owns), d.keepVolumes);
    DeletionOrderSorts(owns);
    assert cs[0..] == cs;
    RemovalCompletesIff(start, NoPayloads(d.id.name), cs, d.oracle, 0);
    hide RunFrom, DeletionOrder;
    forall r
      ensures Removable(start, cs, r) <==>
                (r in owns && IsManaged(r.kind) && !(d.keepVolumes && r.kind.Volume?) ==>
                   !Missing(s.world, r) && (r.kind.Service? || multiset(owns)[r] == 1))
    {
      RemovalsCount(DeletionOrder(owns), d.keepVolumes, r);
      assert r in owns <==> multiset(owns)[r] > 0;
    }
  }

  /** A record that lists a secret twice is enough: the first removal works, the second fails. */
  lemma DuplicateIsNeverUninstalled(s: Cluster, d: Deed, r: Ref)
    requires d.DoUninstall? && d.id in s.records && d.admitted && d.closed && forall i :: NoWriteFails(d.oracle, i)
    requires s.records[d.id].owns == [r, r] && r.kind.Secret? && !Missing(s.world, r)
    ensures !UninstallRelease(s.world, s.records, d.id, d.keepVolumes, d.purge, d.admitted, d.marked, d.closed, d.oracle).ok
    ensures Stuck(Perform(s, d), d.id, r)
  {
    hide DeletionOrder, Removals, RunFrom;
    var owns, start := [r, r], s.world.(pre := map[]);
    assert multiset(owns)[r] == 2 && r in owns;
    UninstallCompletesIff(s, d);
    RemovalsOfPair(r, d.keepVolumes);
    FirstRemovalRemoves(start, NoPayloads(d.id.name), Removals(DeletionOrder(owns), d.keepVolumes), d.oracle, r);
  }

  lemma RemovalsOfPair(r: Ref, keepVolumes: bool)
    requires !r.kind.Volume?
    ensures var cs := Removals(DeletionOrder([r, r]), keepVolumes); cs != [] && cs[0] == Change(r, Prune)
  {
    var order := DeletionOrder([r, r]);
    DeletionOrderSorts([r, r]);
    hide DeletionOrder;
    assert |order| == |multiset(order)| == 2 && order[0] in multiset(order);
  }

  lemma FirstRemovalRemoves(w: World, p: Payloads, cs: seq<Change>, oracle: nat -> Input, r: Ref)
    requires cs != [] && cs[0] == Change(r, Prune) && r.kind.Secret? && !Missing(w, r)
    requires (forall j :: NoWriteFails(oracle, j)) && forall j :: 0 <= j < |cs| ==> cs[j].action.Prune?
    ensures Missing(RunFrom(w, p, cs, 0, true, oracle, 0).world, r)
  {
    assert NoWriteFails(oracle, 0);
    var s := Pruned(w, r, oracle(0).fault);
    assert s.ok && Missing(s.world, r);
    assert Exec(w, p, cs[0], oracle(0)) == s;
    MissingStopsRemoval(s.world, p, cs, oracle, 1, r);
  }

  /** Rollback after a failed read */

  /** The first exception of `AtomicRollback`: an update of one secret whose read fails, then fails;
      the rollback reports success and deletes the secret. */
  lemma TransientReadDeletesSecret(d: Durable, stamp: OwnedBy)
    ensures var r := Ref(Secret, "prod", "db");
            var before := World(map[], map[r := d], map[]);
            var blind := (i: nat) => Input([], Fault(true, false, ""));
            var calm := (i: nat) => Input([], Fault(false, false, ""));
            var all := [Change(r, Update)];
            var run := RunFrom(before, Payloads(map[], map[r := d], stamp), all, 1, true, blind, 0);
            var back := RevertAll(run.world, all[..run.count], calm, 0);
            && run.world.durables == before.durables && run.count == 1 && !run.complete
            && back.errors == 0 && r !in back.world.durables
  {
    var r := Ref(Secret, "prod", "db");
    var before := World(map[], map[r := d], map[]);
    var blind := (i: nat) => Input([], Fault(true, false, ""));
    var all := [Change(r, Update)];
    var run := RunFrom(before, Payloads(map[], map[r := d], stamp), all, 1, true, blind, 0);
    assert run.count == 1 && all[..1] == all && all[..0] == [];
    assert Get(run.world.durables, r) == Some(d) && Get(run.world.pre, r) == Some(ABSENT);
  }

  /** The other way round: a secret that the cast created stays, under a rollback that reports success,
      when the read of it fails. */
  lemma FailedRevertReadKeepsSecret(d: Durable, stamp: OwnedBy)
    ensures var r := Ref(Secret, "prod", "db");
            var before := World(map[], map[], map[]);
            var calm := (i: nat) => Input([], Fault(false, false, ""));
            var deaf := (i: nat) => Input([], Fault(true, false, ""));
            var all := [Change(r, Create)];
            var run := RunFrom(before, Payloads(map[], map[r := d], stamp), all, 1, false, calm, 0);
            var back := RevertAll(run.world, all[..run.count], deaf, 0);
            && run.count == 1 && !run.complete && r in run.world.durables
            && back.errors == 0 && r in back.world.durables
  {
    var r := Ref(Secret, "prod", "db");
    var before := World(map[], map[], map[]);
    var calm := (i: nat) => Input([], Fault(false, false, ""));
    var all := [Change(r, Create)];
    var p := Payloads(map[], map[r := d], stamp);
    var s := Exec(before, p, all[0], calm(0));
    assert s.ok && Get(s.world.durables, r).Some? && Get(s.world.pre, r) == Some(ABSENT);
    assert RunFrom(s.world, p, all, 1, false, calm, 1) == Run(s.world, 1, false);
    assert RunFrom(before, p, all, 1, false, calm, 0) == Run(s.world, 1, false);
    assert all[..1] == all && all[..0] == [];
  }
}
