/** The release record against the cluster: over whole histories of casts and uninstalls, the record
    owns exactly the live resources stamped with the release. */
module Ownership {
  import opened Common
  import opened Services
  import opened Resources
  import opened ServerState
  import opened Execution
  import opened Planning
  import opened Reconcile
  import opened CastSafety
  import opened Restoration
  import opened Rollback

  /** Live (not being torn down) and stamped with release `name`. */
  ghost predicate Stamped(w: World, name: string, r: Ref) {
    if r.kind.Service? then r in w.services && !Terminating(w.services[r]) && OwnedByRelease(OwnerOf(w.services[r]), name)
    else IsDurable(r.kind) && r in w.durables && OwnedByRelease(w.durables[r].owner, name)
  }

  /** The record owns exactly what is stamped. */
  ghost predicate Owned(w: World, owns: seq<Ref>, name: string) {
    forall r :: r in owns <==> Stamped(w, name, r)
  }

  lemma {:induction false} InterferenceKeepsStamps(w: World, es: seq<Interference>, name: string, r: Ref)
    ensures Stamped(InterfereAll(w, es), name, r) <==> Stamped(w, name, r)
    decreases |es|
  {
    if es != [] { InterferenceKeepsStamps(w, es[..|es| - 1], name, r); }
  }

  lemma ApplyStampsService(s: ServiceSlot, payload: Option<Service>, stamp: OwnedBy, f: Fault)
    ensures var d := ApplyService(s, payload, stamp, f);
            d.ok ==> d.slot.live.Some? && !Terminating(d.slot.live.value) && OwnerOf(d.slot.live.value) == Some(stamp)
  {
    if payload.Some? && s.live.Some? && Carry(s.live.value, WithOwner(payload.value, stamp)).Some? {
      CarryKeeps(s.live.value, WithOwner(payload.value, stamp));
    }
    hide Carry;
  }

  lemma AppliedStamps(v: World, p: Payloads, r: Ref, f: Fault, name: string)
    requires Applied(v, p, r, f).ok && IsManaged(r.kind)
    ensures Stamped(Applied(v, p, r, f).world, name, r) <==> name == p.stamp.release
  {
    ApplyStampsService(ServiceAt(v, r), Get(p.services, r), p.stamp, f);
    hide ApplyService;
  }

  lemma PrunedUnstamps(v: World, r: Ref, f: Fault, name: string)
    requires Pruned(v, r, f).ok && IsManaged(r.kind)
    ensures !Stamped(Pruned(v, r, f).world, name, r)
  {
  }

  lemma OthersKeepStamps(v: World, p: Payloads, c: Change, f: Fault, name: string, r: Ref)
    requires r != c.ref
    ensures Stamped((if c.action.Prune? then Pruned(v, c.ref, f) else Applied(v, p, c.ref, f)).world, name, r) <==> Stamped(v, name, r)
  {
    hide ApplyService, PruneService, ApplyDurable, PruneDurable;
    var s := if c.action.Prune? then Pruned(v, c.ref, f) else Applied(v, p, c.ref, f);
    assert Get(s.world.services, r) == Get(v.services, r) && Get(s.world.durables, r) == Get(v.durables, r);
  }

  /** One successful change decides the stamp of its own reference and of no other. */
  lemma ExecStamps(w: World, p: Payloads, c: Change, i: Input, name: string, r: Ref)
    requires Exec(w, p, c, i).ok && IsManaged(r.kind)
    ensures Stamped(Exec(w, p, c, i).world, name, r) <==>
              (if c.ref == r then !c.action.Prune? && name == p.stamp.release else Stamped(w, name, r))
  {
    var v := InterfereAll(w, i.interference);
    InterferenceKeepsStamps(w, i.interference, name, r);
    hide Applied, Pruned, Stamped, InterfereAll;
    if c.ref != r { OthersKeepStamps(v, p, c, i.fault, name, r); }
    else if c.action.Prune? { PrunedUnstamps(v, r, i.fault, name); }
    else { AppliedStamps(v, p, r, i.fault, name); }
  }

  /** Every change to `r` from `i` on is a prune, or none is. */
  ghost predicate Uniform(all: seq<Change>, r: Ref, prune: bool) {
    forall j :: 0 <= j < |all| && all[j].ref == r ==> all[j].action.Prune? == prune
  }

  /** After a complete run, what was applied is stamped, what was pruned is not, and the rest is as before. */
  lemma {:induction false} CompleteRunStamps(w: World, p: Payloads, all: seq<Change>, split: nat, verified: bool,
                                             oracle: nat -> Input, i: nat, name: string, r: Ref, prune: bool)
    requires i <= |all| && IsManaged(r.kind) && Uniform(all, r, prune)
    requires RunFrom(w, p, all, split, verified, oracle, i).complete
    ensures Stamped(RunFrom(w, p, all, split, verified, oracle, i).world, name, r) <==>
              (if exists j :: i <= j < |all| && all[j].ref == r then !prune && name == p.stamp.release else Stamped(w, name, r))
    decreases |all| - i
  {
    hide Stamped, Exec;
    if i < |all| {
      ExecStamps(w, p, all[i], oracle(i), name, r);
      CompleteRunStamps(Exec(w, p, all[i], oracle(i)).world, p, all, split, verified, oracle, i + 1, name, r, prune);
    }
  }

  /** Only the four managed kinds and the shared kinds are asked for. */
  ghost predicate SupportedKinds(desired: seq<Ref>) {
    forall r :: r in desired ==> IsManaged(r.kind) || IsSharedClusterKind(r.kind)
  }

  /** Casts */

  lemma ExecutionListTouches(plan: seq<Planned>, spec: CastSpec, prev: Option<Release>, live: LiveLookup, r: Ref)
    requires plan == PlanOf(spec.id.name, spec.desired, prev, live, spec.adopt)
    ensures var all := AppliesOf(plan) + PrunesOf(plan);
            && Uniform(all, r, r !in spec.desired)
            && ((exists j :: 0 <= j < |all| && all[j].ref == r) <==> r in spec.desired || r in OwnsOf(prev))
  {
    PlanIsExact(spec.id.name, spec.desired, prev, live, spec.adopt);
    ExecutionListIsOrdered(plan);
    hide PlanOf, AppliesOf, PrunesOf, OwnedRefs, Sorted, PrunesLast;
    var all := AppliesOf(plan) + PrunesOf(plan);
    forall j | 0 <= j < |all| && all[j].ref == r
      ensures all[j].action.Prune? == (r !in spec.desired) && (r in spec.desired || r in OwnsOf(prev))
    {
      assert all[j] in AppliesOf(plan) || all[j] in PrunesOf(plan);
      var k :| 0 <= k < |plan| && plan[k].change == all[j];
      if k < |spec.desired| { assert spec.desired[k] == r; } else { assert Plans(plan, Change(r, Prune)); }
    }
    if r in spec.desired {
      var k :| 0 <= k < |spec.desired| && spec.desired[k] == r;
      assert Plans(plan, plan[k].change);
      assert plan[k].change in all;
    } else if r in OwnsOf(prev) {
      assert Change(r, Prune) in all;
    }
  }

  /** What a cast that ended this way leaves in the record. */
  lemma CastRecord(w: World, recs: Records, spec: CastSpec, p: Payloads, live: LiveLookup, fate: Fate)
    ensures var c := Cast(w, recs, spec, p, live, fate);
            var plan := PlanFor(recs, spec, live);
            var owns := OwnsOf(Get(c.records, spec.id));
            && (c.outcome.NotStarted? ==> c.world == w && c.records == recs)
            && (c.outcome.IsDeployed? ==>
                  && owns == OwnedRefs(plan)
                  && var run := RunFrom(w.(pre := map[]), p, AppliesOf(plan) + PrunesOf(plan), |AppliesOf(plan)|, fate.verified, fate.oracle, 0);
                     run.complete && c.world == run.world)
            && (c.outcome.RolledBack? || c.outcome.RollbackIncomplete? ==>
                  && owns == (if c.outcome.RolledBack? && c.saved then OwnsOf(Get(recs, spec.id)) else OwnedRefs(plan))
                  && var run := RunFrom(w.(pre := map[]), p, AppliesOf(plan) + PrunesOf(plan), |AppliesOf(plan)|, fate.verified, fate.oracle, 0);
                     var back := RevertAll(run.world, (AppliesOf(plan) + PrunesOf(plan))[..run.count], fate.revertOracle, 0);
                     (back.errors == 0 <==> c.outcome.RolledBack?) && c.world == back.world)
  {
    PreparedFromPlan(recs, spec, live, fate.admitted, fate.pendingSaved);
    hide Prepare, RunFrom, RevertAll, TraceFrom, AppliesOf, PrunesOf, OwnedRefs, PlanOf;
  }

  lemma DeployedCastOwnsItsStamps(w: World, recs: Records, spec: CastSpec, p: Payloads, live: LiveLookup, fate: Fate)
    requires Owned(w, OwnsOf(Get(recs, spec.id)), spec.id.name)
    requires p.stamp.release == spec.id.name && SupportedKinds(spec.desired)
    requires Cast(w, recs, spec, p, live, fate).outcome.IsDeployed?
    ensures var c := Cast(w, recs, spec, p, live, fate); Owned(c.world, OwnsOf(Get(c.records, spec.id)), spec.id.name)
  {
    CastRecord(w, recs, spec, p, live, fate);
    var c, plan, prev := Cast(w, recs, spec, p, live, fate), PlanFor(recs, spec, live), Get(recs, spec.id);
    hide Cast, RunFrom, AppliesOf, PrunesOf, PlanOf;
    var all, start := AppliesOf(plan) + PrunesOf(plan), w.(pre := map[]);
    forall r ensures r in OwnsOf(Get(c.records, spec.id)) <==> Stamped(c.world, spec.id.name, r) {
      PlanOwnsExactly(spec.id.name, spec.desired, prev, live, spec.adopt, r);
      if IsManaged(r.kind) {
        ExecutionListTouches(plan, spec, prev, live, r);
        CompleteRunStamps(start, p, all, |AppliesOf(plan)|, fate.verified, fate.oracle, 0, spec.id.name, r, r !in spec.desired);
        assert Stamped(start, spec.id.name, r) <==> Stamped(w, spec.id.name, r);
      }
    }
  }

  /** A deployed cast without --adopt, planned on a truthful lookup, leaves the stamps of every other
      release alone: it neither takes over nor prunes what they own. */
  lemma DeployedCastLeavesOthersAlone(w: World, recs: Records, spec: CastSpec, p: Payloads, live: LiveLookup, fate: Fate, other: string)
    requires Owned(w, OwnsOf(Get(recs, spec.id)), spec.id.name)
    requires p.stamp.release == spec.id.name && other != spec.id.name && !spec.adopt
    requires forall r :: live(r) == Some(Lookup(w, r, false))
    requires Cast(w, recs, spec, p, live, fate).outcome.IsDeployed?
    ensures forall r :: Stamped(Cast(w, recs, spec, p, live, fate).world, other, r) <==> Stamped(w, other, r)
  {
    CastRecord(w, recs, spec, p, live, fate);
    DeployedPlanHasNoConflict(w, recs, spec, p, live, fate);
    var c, plan, prev := Cast(w, recs, spec, p, live, fate), PlanFor(recs, spec, live), Get(recs, spec.id);
    hide Cast, RunFrom, AppliesOf, PrunesOf, PlanOf, IsApplyable;
    var all, start := AppliesOf(plan) + PrunesOf(plan), w.(pre := map[]);
    forall r ensures Stamped(c.world, other, r) <==> Stamped(w, other, r) {
      if IsManaged(r.kind) {
        ExecutionListTouches(plan, spec, prev, live, r);
        CompleteRunStamps(start, p, all, |AppliesOf(plan)|, fate.verified, fate.oracle, 0, other, r, r !in spec.desired);
        assert Stamped(start, other, r) <==> Stamped(w, other, r);
        if Stamped(w, other, r) { OthersAreNotPlanned(w, recs, spec, live, other, r); }
      }
    }
  }

  lemma DeployedPlanHasNoConflict(w: World, recs: Records, spec: CastSpec, p: Payloads, live: LiveLookup, fate: Fate)
    requires Cast(w, recs, spec, p, live, fate).outcome.IsDeployed?
    ensures IsApplyable(PlanFor(recs, spec, live))
  {
    PreparedFromPlan(recs, spec, live, fate.admitted, fate.pendingSaved);
    hide Prepare, RunFrom, RevertAll, TraceFrom, PlanOf;
  }

  lemma OthersAreNotPlanned(w: World, recs: Records, spec: CastSpec, live: LiveLookup, other: string, r: Ref)
    requires Owned(w, OwnsOf(Get(recs, spec.id)), spec.id.name) && IsApplyable(PlanFor(recs, spec, live))
    requires other != spec.id.name && !spec.adopt && Stamped(w, other, r) && live(r) == Some(Lookup(w, r, false))
    ensures r !in spec.desired && r !in OwnsOf(Get(recs, spec.id))
  {
    assert !Stamped(w, spec.id.name, r);
    forall i | 0 <= i < |spec.desired| ensures spec.desired[i] != r {
      if live(spec.desired[i]).Some? { ConflictsAreExact(spec.id.name, spec.desired, Get(recs, spec.id), live, spec.adopt, i); }
    }
  }

  lemma RestoredKeepsStamp(before: World, after: World, name: string, r: Ref)
    requires Restored(before, after, r)
    ensures Stamped(after, name, r) <==> (if IsManaged(r.kind) then Stamped(before, name, r) else false)
  {
  }

  lemma ExecutionListIsWellFormed(plan: seq<Planned>, spec: CastSpec, prev: Option<Release>, live: LiveLookup)
    requires plan == PlanOf(spec.id.name, spec.desired, prev, live, spec.adopt)
    ensures WellFormed(AppliesOf(plan) + PrunesOf(plan), |AppliesOf(plan)|)
  {
    PlanIsExact(spec.id.name, spec.desired, prev, live, spec.adopt);
    ExecutionListIsOrdered(plan);
    hide PlanOf, AppliesOf, PrunesOf, OwnedRefs, Sorted;
    var all := AppliesOf(plan) + PrunesOf(plan);
    forall i | 0 <= i < |all| && all[i].action.Reference? ensures !IsManaged(all[i].ref.kind) {
      assert all[i] in AppliesOf(plan);
      var k :| 0 <= k < |plan| && plan[k].change == all[i];
    }
  }

  /** The rollback of this cast has answered for `r`, and run and rollback read it consistently: neither of
      them misread it, or both. */
  ghost predicate CleanlyUndone(w: World, recs: Records, spec: CastSpec, p: Payloads, live: LiveLookup, fate: Fate, r: Ref) {
    var plan, start := PlanFor(recs, spec, live), w.(pre := map[]);
    var all := AppliesOf(plan) + PrunesOf(plan);
    var run := RunFrom(start, p, all, |AppliesOf(plan)|, fate.verified, fate.oracle, 0);
    Answered(run.world, all[..run.count], fate.revertOracle, 0, r)
    && ReadsAgree(start, p, run, all[..run.count], fate.oracle, fate.revertOracle, r)
  }

  /** A cast that was rolled back, in full or in part, changes no ownership in the cluster of what was cleanly
      undone.  Its record is the one from before if the rollback was complete and could be recorded;
      otherwise it is the one that the cast meant to leave. */
  lemma RolledBackCastKeepsOwnership(w: World, recs: Records, spec: CastSpec, p: Payloads, live: LiveLookup, fate: Fate)
    requires var c := Cast(w, recs, spec, p, live, fate); c.outcome.RolledBack? || c.outcome.RollbackIncomplete?
    ensures var c := Cast(w, recs, spec, p, live, fate);
            && (c.outcome.RolledBack? && c.saved ==> OwnsOf(Get(c.records, spec.id)) == OwnsOf(Get(recs, spec.id)))
            && (!(c.outcome.RolledBack? && c.saved) ==>
                  forall r :: r in OwnsOf(Get(c.records, spec.id)) <==> r in spec.desired && !IsSharedClusterKind(r.kind))
            && forall name: string, r: Ref :: !IsManaged(r.kind) || CleanlyUndone(w, recs, spec, p, live, fate, r) ==>
                 (Stamped(c.world, name, r) <==> Stamped(w, name, r))
  {
    CastRecord(w, recs, spec, p, live, fate);
    var c, plan, prev := Cast(w, recs, spec, p, live, fate), PlanFor(recs, spec, live), Get(recs, spec.id);
    ExecutionListIsWellFormed(plan, spec, prev, live);
    hide Cast, RunFrom, RevertAll, AppliesOf, PrunesOf, PlanOf, ReadsAgree, Answered;
    forall r ensures r in OwnedRefs(plan) <==> r in spec.desired && !IsSharedClusterKind(r.kind) {
      PlanOwnsExactly(spec.id.name, spec.desired, prev, live, spec.adopt, r);
    }
    var all, start := AppliesOf(plan) + PrunesOf(plan), w.(pre := map[]);
    forall name: string, r: Ref | !IsManaged(r.kind) || CleanlyUndone(w, recs, spec, p, live, fate, r)
      ensures Stamped(c.world, name, r) <==> Stamped(w, name, r)
    {
      if IsManaged(r.kind) {
        AtomicRollback(start, p, all, |AppliesOf(plan)|, fate.verified, fate.oracle, fate.revertOracle, r);
        RestoredKeepsStamp(start, c.world, name, r);
        assert Stamped(start, name, r) <==> Stamped(w, name, r);
      }
    }
  }
}
