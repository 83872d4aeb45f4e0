/** Casting the same payload again: once a cast has deployed a service, further casts of that payload,
    whatever becomes of them, leave the service's counters alone. */
module Recasting {
  import opened Common
  import opened Services
  import opened Resources
  import opened ServerState
  import opened Restoration
  import opened Execution
  import opened Counters
  import opened Rollback
  import opened Planning
  import opened Reconcile
  import opened CastSafety
  import opened Ownership
  import opened Uninstalling
  import opened Histories
  import opened Lives

  /** Payloads that differ at most in what a cast overwrites. */
  predicate SamePayload(a: Service, b: Service) { a.spec == b.spec && a.discovery == b.discovery }

  /** `a` asks for what `b` asks for. */
  predicate SameDesire(a: Service, b: Service) {
    a.spec == b.spec && DiscoveryWithoutVIP(a.discovery) == DiscoveryWithoutVIP(b.discovery)
  }

  predicate Alike(a: Service, b: Service) {
    SameDesire(a, b) && Generation(a) == Generation(b) && TemplateGeneration(a) == TemplateGeneration(b) && !Terminating(a)
  }

  /** The live record is like `first`, and so is the one a rollback would go back to. */
  predicate Holding(s: ServiceSlot, first: Service) {
    && s.live.Some? && Alike(s.live.value, first)
    && (s.img.Some? ==> s.img.value.existed && !s.img.value.pruned && s.img.value.service.Some? && SameDesire(s.img.value.service.value, first))
  }

  /** One operation */

  lemma CarryOfSameDesire(stored: Service, rendered: Service)
    requires stored.spec == rendered.spec && Carry(stored, rendered).Some?
    requires DiscoveryWithoutVIP(MergeDiscovery(stored.discovery, rendered.discovery)) == DiscoveryWithoutVIP(stored.discovery)
    ensures var n := Carry(stored, rendered).value;
            && SameDesire(n, stored) && Generation(n) == Generation(stored) && TemplateGeneration(n) == TemplateGeneration(stored)
            && Terminating(n) == Terminating(stored)
  {
    hide Template, Desired, DiscoveryWithoutVIP, MergeDiscovery;
    SameSpecSameHash(stored, Carry(stored, rendered).value);
  }

  lemma PayloadMergesAway(first: Service, x: Service, cur: Service)
    requires HoldsPayload(first, x) && SameDesire(cur, first)
    ensures cur.spec == x.spec && DiscoveryWithoutVIP(MergeDiscovery(cur.discovery, x.discovery)) == DiscoveryWithoutVIP(cur.discovery)
  {
    hide DiscoveryWithoutVIP, MergeDiscovery;
    var base :| DiscoveryWithoutVIP(first.discovery) == DiscoveryWithoutVIP(MergeDiscovery(base, x.discovery));
    MergeIsIdempotent(base, x.discovery, cur.discovery);
  }

  lemma ApplyKeepsHolding(s: ServiceSlot, payload: Option<Service>, stamp: OwnedBy, f: Fault, first: Service, x: Service)
    requires Holding(s, first) && HoldsPayload(first, x) && (payload.Some? ==> SamePayload(payload.value, x))
    ensures Holding(ApplyService(s, payload, stamp, f).slot, first)
  {
    hide DiscoveryWithoutVIP, MergeDiscovery, HoldsPayload;
    PayloadMergesAway(first, x, s.live.value);
    if payload.Some? && Carry(s.live.value, WithOwner(payload.value, stamp)).Some? {
      CarryOfSameDesire(s.live.value, WithOwner(payload.value, stamp));
    }
    hide Carry;
  }

  lemma SameDesireMergesAway(a: Service, b: Service)
    requires SameDesire(a, b)
    ensures DiscoveryWithoutVIP(MergeDiscovery(a.discovery, b.discovery)) == DiscoveryWithoutVIP(a.discovery)
    ensures forall vip :: DiscoveryWithoutVIP(RestoreDiscovery(b.discovery, vip)) == DiscoveryWithoutVIP(b.discovery)
  {
  }

  lemma RewoundIsAlike(img: PreImage, p: Service, cur: Service, first: Service)
    requires Alike(cur, first) && SameDesire(p, first)
    ensures var n := Rewound(img, p, cur); n.Some? ==> Alike(n.value, first)
  {
    SameDesireMergesAway(cur, p);
    hide DiscoveryWithoutVIP, MergeDiscovery, RestoreDiscovery;
    if Carry(cur, p).Some? { CarryOfSameDesire(cur, p); }
    hide Carry;
  }

  lemma RevertKeepsHolding(s: ServiceSlot, f: Fault, first: Service)
    requires Holding(s, first)
    ensures Holding(RevertService(s, f).slot, first)
  {
    hide Alike, SameDesire, Rewound, Recreated;
    if s.img.Some? { RewoundIsAlike(s.img.value, s.img.value.service.value, s.live.value, first); }
  }

  lemma InterfereKeepsHolding(s: ServiceSlot, e: Interference, first: Service)
    requires Holding(s, first)
    ensures Holding(s.(live := Interfere(s.live, e)), first)
  {
  }

  /** What follows a successful apply, in the cast that deployed the service. */
  ghost predicate Holds(live: Option<Service>, x: Service) { live.Some? && !Terminating(live.value) && HoldsPayload(live.value, x) }

  lemma InterfereKeepsPayload(live: Option<Service>, e: Interference, x: Service)
    requires Holds(live, x)
    ensures Holds(Interfere(live, e), x)
  {
    assert Interfere(live, e).Some? && SameDesire(Interfere(live, e).value, live.value);
    hide DiscoveryWithoutVIP, MergeDiscovery, Interfere;
  }

  lemma ApplyBringsPayload(s: ServiceSlot, payload: Service, stamp: OwnedBy, f: Fault)
    requires ApplyService(s, Some(payload), stamp, f).ok
    ensures Holds(ApplyService(s, Some(payload), stamp, f).slot.live, payload)
  {
    ApplyHoldsPayload(s, payload, stamp, f);
    ApplyStampsService(s, Some(payload), stamp, f);
    hide ApplyService, HoldsPayload;
  }

  /** Whole runs and rollbacks */

  lemma {:induction false} InterferenceKeepsHolding(w: World, es: seq<Interference>, r: Ref, first: Service)
    requires Holding(ServiceAt(w, r), first)
    ensures Holding(ServiceAt(InterfereAll(w, es), r), first)
    decreases |es|
  {
    hide Holding, Interfere;
    if es != [] {
      var e, v := es[|es| - 1], InterfereAll(w, es[..|es| - 1]);
      InterferenceKeepsHolding(w, es[..|es| - 1], r, first);
      if e.ref == r { InterfereKeepsHolding(ServiceAt(v, r), e, first); }
    }
  }

  lemma {:induction false} InterferenceKeepsPayload(w: World, es: seq<Interference>, r: Ref, x: Service)
    requires Holds(Get(w.services, r), x)
    ensures Holds(Get(InterfereAll(w, es).services, r), x)
    decreases |es|
  {
    hide Holds, Interfere;
    if es != [] {
      var e, v := es[|es| - 1], InterfereAll(w, es[..|es| - 1]);
      InterferenceKeepsPayload(w, es[..|es| - 1], r, x);
      if e.ref == r { InterfereKeepsPayload(Get(v.services, r), e, x); }
    }
  }

  lemma ExecAt(w: World, p: Payloads, c: Change, i: Input, r: Ref)
    requires r.kind.Service? && !(c.ref == r && c.action.Prune?)
    ensures var v, s := ServiceAt(InterfereAll(w, i.interference), r), Exec(w, p, c, i);
            if c.ref == r then var d := ApplyService(v, Get(p.services, r), p.stamp, i.fault); ServiceAt(s.world, r) == d.slot && s.ok == d.ok
            else ServiceAt(s.world, r) == v
  {
    hide ApplyService, PruneService, ApplyDurable, PruneDurable, InterfereAll;
  }

  lemma {:induction false} RunKeepsHolding(w: World, p: Payloads, all: seq<Change>, split: nat, verified: bool, oracle: nat -> Input, i: nat,
                                           r: Ref, first: Service, x: Service)
    requires i <= |all| && r.kind.Service? && Uniform(all, r, false)
    requires Holding(ServiceAt(w, r), first) && HoldsPayload(first, x) && (r in p.services ==> SamePayload(p.services[r], x))
    ensures Holding(ServiceAt(RunFrom(w, p, all, split, verified, oracle, i).world, r), first)
    decreases |all| - i
  {
    hide Holding, HoldsPayload, SamePayload, Exec, ServiceAt, ApplyService;
    if i < |all| && !(i == split && !verified) {
      var c := all[i];
      var v := InterfereAll(w, oracle(i).interference);
      InterferenceKeepsHolding(w, oracle(i).interference, r, first);
      ExecAt(w, p, c, oracle(i), r);
      if c.ref == r { ApplyKeepsHolding(ServiceAt(v, r), Get(p.services, r), p.stamp, oracle(i).fault, first, x); }
      var s := Exec(w, p, c, oracle(i));
      if s.ok { RunKeepsHolding(s.world, p, all, split, verified, oracle, i + 1, r, first, x); }
    }
  }

  lemma {:induction false} RollbackKeepsHolding(w: World, done: seq<Change>, oracle: nat -> Input, k: nat, r: Ref, first: Service)
    requires r.kind.Service? && Holding(ServiceAt(w, r), first)
    ensures Holding(ServiceAt(RevertAll(w, done, oracle, k).world, r), first)
    decreases |done|
  {
    hide Holding, ServiceAt, RevertService, Reverted;
    if done != [] {
      var c, rest := done[|done| - 1], done[..|done| - 1];
      if c.action.Reference? {
        RollbackKeepsHolding(w, rest, oracle, k + 1, r, first);
      } else {
        var v := InterfereAll(w, oracle(k).interference);
        InterferenceKeepsHolding(w, oracle(k).interference, r, first);
        RevertKeepsImages(v, c.ref, oracle(k).fault, r);
        if c.ref == r { RevertKeepsHolding(ServiceAt(v, r), oracle(k).fault, first); }
        RollbackKeepsHolding(Reverted(v, c.ref, oracle(k).fault).world, rest, oracle, k + 1, r, first);
      }
    }
  }

  /** After a complete run that applies it, a service holds its payload. */
  lemma {:induction false} CompleteRunHolds(w: World, p: Payloads, all: seq<Change>, split: nat, verified: bool, oracle: nat -> Input, i: nat,
                                            r: Ref, x: Service)
    requires i <= |all| && r.kind.Service? && Uniform(all, r, false) && Get(p.services, r) == Some(x)
    requires Holds(Get(w.services, r), x) || exists j :: i <= j < |all| && all[j].ref == r
    requires RunFrom(w, p, all, split, verified, oracle, i).complete
    ensures Holds(Get(RunFrom(w, p, all, split, verified, oracle, i).world.services, r), x)
    decreases |all| - i
  {
    hide Holds, Exec, ApplyService;
    if i < |all| {
      var c := all[i];
      var v := InterfereAll(w, oracle(i).interference);
      if Holds(Get(w.services, r), x) { InterferenceKeepsPayload(w, oracle(i).interference, r, x); }
      ExecAt(w, p, c, oracle(i), r);
      if c.ref == r { ApplyBringsPayload(ServiceAt(v, r), x, p.stamp, oracle(i).fault); }
      CompleteRunHolds(Exec(w, p, c, oracle(i)).world, p, all, split, verified, oracle, i + 1, r, x);
    }
  }

  /** Deeds */

  /** A deed that does nothing to `r`, or casts payload `x` on it again. */
  predicate LeavesOrRecasts(s: Cluster, d: Deed, r: Ref, x: Service) {
    match d
    case DoCast(spec, p, _, _) =>
      && (r in p.services ==> SamePayload(p.services[r], x))
      && (r in OwnsOf(Get(s.records, spec.id)) ==> r in spec.desired)
    case DoUninstall(id, _, _, _, _, _, _) => id !in s.records || r !in s.records[id].owns
    case Wait(_) => true
  }

  lemma BeginKeepsHolding(w: World, r: Ref, first: Service)
    requires r in w.services && Alike(w.services[r], first)
    ensures Holding(ServiceAt(w.(pre := map[]), r), first)
  {
  }

  lemma HoldingIsAlike(w: World, r: Ref, first: Service)
    requires Holding(ServiceAt(w, r), first)
    ensures r in w.services && Alike(w.services[r], first)
  {
  }

  /** The uninstaller removes owned resources only. */
  lemma RemovalsAreOwned(owns: seq<Ref>, keepVolumes: bool, r: Ref)
    requires r !in owns
    ensures Uniform(Removals(DeletionOrder(owns), keepVolumes), r, false)
  {
    UninstallTouches(owns, keepVolumes, r);
  }

  lemma CastKeepsCounters(s: Cluster, d: Deed, r: Ref, first: Service, x: Service)
    requires d.DoCast? && r.kind.Service? && HoldsPayload(first, x) && LeavesOrRecasts(s, d, r, x)
    requires r in s.world.services && Alike(s.world.services[r], first)
    ensures var t := Perform(s, d).world; r in t.services && Alike(t.services[r], first)
  {
    hide HoldsPayload, Alike, Holding, Prepare, RunFrom, RevertAll, TraceFrom, AppliesOf, PrunesOf, PlanOf, Cast, SamePayload, ServiceAt;
    CastEndsInRunOrRollback(s, d.spec, d.payloads, d.live, d.fate);
    var plan := PlanFor(s.records, d.spec, d.live);
    var all, split, start := AppliesOf(plan) + PrunesOf(plan), |AppliesOf(plan)|, s.world.(pre := map[]);
    var run := RunFrom(start, d.payloads, all, split, d.fate.verified, d.fate.oracle, 0);
    ExecutionListTouches(plan, d.spec, Get(s.records, d.spec.id), d.live, r);
    BeginKeepsHolding(s.world, r, first);
    RunKeepsHolding(start, d.payloads, all, split, d.fate.verified, d.fate.oracle, 0, r, first, x);
    HoldingIsAlike(run.world, r, first);
    RollbackKeepsHolding(run.world, all[..run.count], d.fate.revertOracle, 0, r, first);
    HoldingIsAlike(RevertAll(run.world, all[..run.count], d.fate.revertOracle, 0).world, r, first);
  }

  lemma DeedKeepsCounters(s: Cluster, d: Deed, r: Ref, first: Service, x: Service)
    requires r.kind.Service? && HoldsPayload(first, x) && LeavesOrRecasts(s, d, r, x)
    requires r in s.world.services && Alike(s.world.services[r], first)
    ensures var t := Perform(s, d).world; r in t.services && Alike(t.services[r], first)
  {
    match d
    case DoCast(_, _, _, _) => CastKeepsCounters(s, d, r, first, x);
    case DoUninstall(id, keepVolumes, _, admitted, _, _, oracle) =>
      hide HoldsPayload, Alike, Holding, RunFrom, ServiceAt;
      if id in s.records && admitted {
        var cs, start := Removals(DeletionOrder(s.records[id].owns), keepVolumes), s.world.(pre := map[]);
        RemovalsAreOwned(s.records[id].owns, keepVolumes, r);
        BeginKeepsHolding(s.world, r, first);
        RunKeepsHolding(start, NoPayloads(id.name), cs, 0, true, oracle, 0, r, first, x);
        HoldingIsAlike(RunFrom(start, NoPayloads(id.name), cs, 0, true, oracle, 0).world, r, first);
      }
    case Wait(es) =>
      hide HoldsPayload, Alike, Holding, ServiceAt;
      BeginKeepsHolding(s.world, r, first);
      InterferenceKeepsHolding(s.world.(pre := map[]), es, r, first);
      HoldingIsAlike(InterfereAll(s.world.(pre := map[]), es), r, first);
      InterferenceIgnoresImages(s.world, s.world.(pre := map[]), es);
  }

  lemma DeployedHolds(s: Cluster, d: Deed, r: Ref)
    requires d.DoCast? && r.kind.Service? && r in d.spec.desired && r in d.payloads.services
    requires Cast(s.world, s.records, d.spec, d.payloads, d.live, d.fate).outcome.IsDeployed?
    ensures var t := Perform(s, d).world; r in t.services && !Terminating(t.services[r]) && HoldsPayload(t.services[r], d.payloads.services[r])
  {
    hide Holds, Prepare, RunFrom, RevertAll, TraceFrom, AppliesOf, PrunesOf, PlanOf, Cast;
    CastRecord(s.world, s.records, d.spec, d.payloads, d.live, d.fate);
    var plan := PlanFor(s.records, d.spec, d.live);
    var all, split, start, x := AppliesOf(plan) + PrunesOf(plan), |AppliesOf(plan)|, s.world.(pre := map[]), d.payloads.services[r];
    ExecutionListTouches(plan, d.spec, Get(s.records, d.spec.id), d.live, r);
    CompleteRunHolds(start, d.payloads, all, split, d.fate.verified, d.fate.oracle, 0, r, x);
    HoldsPayloadOf(Get(Perform(s, d).world.services, r), x);
  }

  lemma HoldsPayloadOf(live: Option<Service>, x: Service)
    requires Holds(live, x)
    ensures live.Some? && !Terminating(live.value) && HoldsPayload(live.value, x)
  {
  }

  /** Main result: once a cast has deployed service `r` with a payload, no history in which every deed either
      leaves `r` alone or casts that payload on it again moves its Generation or TemplateGeneration, however
      those casts end: deployed, rejected, failed or rolled back. */
  lemma {:induction false} RecastingMovesNoCounter(s: Cluster, d: Deed, ds: seq<Deed>, r: Ref)
    requires d.DoCast? && r.kind.Service? && r in d.spec.desired && r in d.payloads.services
    requires Cast(s.world, s.records, d.spec, d.payloads, d.live, d.fate).outcome.IsDeployed?
    requires forall i :: 0 <= i < |ds| ==> LeavesOrRecasts(PerformAll(Perform(s, d), ds[..i]), ds[i], r, d.payloads.services[r])
    ensures var t, u := Perform(s, d).world, PerformAll(Perform(s, d), ds).world;
            r in t.services && r in u.services && Alike(u.services[r], t.services[r])
    decreases |ds|
  {
    hide Cast, Perform, LeavesOrRecasts, Alike, HoldsPayload;
    DeployedHolds(s, d, r);
    var t, x := Perform(s, d), d.payloads.services[r];
    if ds == [] {
      AlikeItself(t.world.services[r]);
    } else {
      var init, last := ds[..|ds| - 1], |ds| - 1;
      forall i | 0 <= i < |init| ensures LeavesOrRecasts(PerformAll(t, init[..i]), init[i], r, x) { assert init[..i] == ds[..i]; }
      RecastingMovesNoCounter(s, d, init, r);
      DeedKeepsCounters(PerformAll(t, init), ds[last], r, t.world.services[r], x);
    }
  }

  lemma AlikeItself(s: Service)
    requires !Terminating(s)
    ensures Alike(s, s)
  {
  }
}
