/** What a deployed cast has done: everything desired is there with its payload and stamp, and everything
    dropped is gone or going away. */
module Deployment {
  import opened Common
  import opened Services
  import opened Resources
  import opened ServerState
  import opened Restoration
  import opened Execution
  import opened Counters
  import opened Rollback
  import opened Planning
  import opened Reconcile
  import opened CastSafety
  import opened Ownership
  import opened Histories
  import opened Lives
  import opened Recasting
  import opened Views

  /** One durable record */

  /** A secret keeps no ID and no phase; a configmap or volume keeps those the payload brings. */
  predicate HoldsDurable(k: Kind, d: Durable, payload: Durable, stamp: OwnedBy) {
    && d.data == payload.data && d.owner == Some(stamp)
    && (k.Secret? ==> d.id == "" && d.status == "")
    && (!k.Secret? && payload.id != "" ==> d.id == payload.id)
    && (!k.Secret? && payload.status != "" ==> d.status == payload.status)
  }

  /** The version of a secret or configmap counts its writes, and a volume keeps its ID. */
  predicate Continues(k: Kind, before: Option<Durable>, payload: Durable, after: Durable) {
    match k
    case Secret => after.version == if before.Some? then before.value.version + 1 else 1
    case Configmap => after.version == if before.Some? then before.value.version + 1 else payload.version
    case _ => (before.Some? ==> after.id == before.value.id) && (before.None? && payload.status == "" ==> after.status == "Pending")
  }

  /** A successful apply of a secret, configmap or volume writes the payload under the stamp. */
  lemma DurableApplyWrites(k: Kind, s: DurableSlot, payload: Option<Durable>, stamp: OwnedBy, f: Fault)
    requires IsDurable(k) && ApplyDurable(k, s, payload, stamp, f).ok
    ensures var after := ApplyDurable(k, s, payload, stamp, f).slot.live;
            && payload.Some? && after.Some?
            && HoldsDurable(k, after.value, payload.value, stamp) && Continues(k, s.live, payload.value, after.value)
  {
  }

  /** When an apply of a secret, configmap or volume succeeds: there is a payload, the write works, and a record
      that is there was read and, for a volume, keeps its ID. */
  lemma DurableApplySucceedsIff(k: Kind, s: DurableSlot, payload: Option<Durable>, stamp: OwnedBy, f: Fault)
    requires IsDurable(k)
    ensures ApplyDurable(k, s, payload, stamp, f).ok <==>
              && payload.Some? && !f.writeFails
              && (s.live.Some? ==> !f.readFails && (k.Volume? ==> payload.value.id == "" || payload.value.id == s.live.value.id))
  {
  }

  /** One service record */

  const LAST_GENERATION := 9223372036854775807

  /** When an apply of a service succeeds. */
  lemma ServiceApplySucceedsIff(s: ServiceSlot, payload: Option<Service>, stamp: OwnedBy, f: Fault)
    ensures ApplyService(s, payload, stamp, f).ok <==>
              && payload.Some? && !f.readFails && !f.writeFails
              && (s.live.Some? ==> !Terminating(s.live.value) && Generation(s.live.value) != LAST_GENERATION)
  {
    hide SameHash, SameTemplate, MergeDiscovery;
  }

  function Chosen(wished: string, kept: string): string { if wished != "" then wished else kept }

  /** A successful apply onto a live service writes the payload's spec, discovery fields and stamp, keeps
      identity, VIP, certificate and the rest of the server's state, and resets what is observed. */
  lemma UpdateWrites(s: ServiceSlot, payload: Service, stamp: OwnedBy, f: Fault)
    requires s.live.Some? && ApplyService(s, Some(payload), stamp, f).ok
    ensures var was, after := s.live.value, ApplyService(s, Some(payload), stamp, f).slot.live;
            && after.Some? && var n := after.value;
            && n.spec == payload.spec && OwnerOf(n) == Some(stamp) && n.observed == PENDING
            && n.id == Chosen(was.id, payload.id) && n.ingressCert == was.ingressCert && VipOf(n.discovery) == VipOf(was.discovery)
            && ModeOf(n.discovery) == Chosen(ModeOf(payload.discovery), ModeOf(was.discovery))
            && LocalityOf(n.discovery) == Chosen(LocalityOf(payload.discovery), LocalityOf(was.discovery))
            && MetadataOf(n).observedGeneration == MetadataOf(was).observedGeneration && MetadataOf(n).finalizers == MetadataOf(was).finalizers
            && MetadataOf(n).lastNonZeroScale == (if payload.spec.scale > 0 then payload.spec.scale else MetadataOf(was).lastNonZeroScale)
  {
    hide SameHash, SameTemplate;
  }

  /** A successful create writes the payload's spec, discovery fields and stamp, and starts everything else. */
  lemma CreateWrites(s: ServiceSlot, payload: Service, stamp: OwnedBy, f: Fault)
    requires s.live.None? && ApplyService(s, Some(payload), stamp, f).ok
    ensures var after := ApplyService(s, Some(payload), stamp, f).slot.live;
            && after.Some? && var n := after.value;
            && n.spec == payload.spec && OwnerOf(n) == Some(stamp) && n.observed == PENDING && n.id == f.freshId
            && n.ingressCert == "" && VipOf(n.discovery) == ""
            && ModeOf(n.discovery) == ModeOf(payload.discovery) && LocalityOf(n.discovery) == LocalityOf(payload.discovery)
            && MetadataOf(n) == Metadata(1, 1, 0, Some(stamp), if payload.spec.scale > 0 then payload.spec.scale else 0, false, [])
  {
  }

  /** A delete keeps the record and marks it: going away, with volumes to clean up if and only if some mount
      claims one.  Deleting again changes nothing. */
  lemma TombstoneMarks(s: Service)
    ensures var t := Tombstone(s);
            && t.id == s.id && t.spec == s.spec && t.discovery == s.discovery && t.ingressCert == s.ingressCert && OwnerOf(t) == OwnerOf(s)
            && Generation(t) == Generation(s) && TemplateGeneration(t) == TemplateGeneration(s) && Terminating(t) && Tombstone(t) == t
            && (!Terminating(s) ==>
                  && t.observed.status == "Deleted"
                  && MetadataOf(t).finalizers == ["instance-cleanup"] +
                       (if exists v :: v in s.spec.volumes && v.claimTemplate.Some? then ["volume-cleanup"] else []))
  {
    assert (exists v :: v in s.spec.volumes && v.claimTemplate.Some?) <==>
           (exists i :: 0 <= i < |s.spec.volumes| && s.spec.volumes[i].claimTemplate.Some?);
  }

  /** A recreated record is the pre-image, identity included, without its VIP, certificate and teardown. */
  lemma RecreatedIsPreImage(img: PreImage, p: Service)
    ensures var n := Recreated(img, p);
            && n.id == p.id && n.spec == p.spec && OwnerOf(n) == OwnerOf(p) && n.observed == PENDING && n.ingressCert == ""
            && VipOf(n.discovery) == "" && ModeOf(n.discovery) == ModeOf(p.discovery) && LocalityOf(n.discovery) == LocalityOf(p.discovery)
            && !Terminating(n) && MetadataOf(n).finalizers == []
  {
  }

  /** It goes above every generation, but the template counter moves only if the cast had moved it: instances
      that the cast never touched are not rolled. */
  lemma RecreatedCounts(img: PreImage, p: Service)
    requires Seeded(p)
    ensures var n, top := Recreated(img, p), Reached(img, p);
            && Generation(n) == (if top < LAST_GENERATION then top + 1 else top)
            && TemplateGeneration(n) == (if img.appliedTemplateGeneration > TemplateGeneration(p) then Generation(n) else TemplateGeneration(p))
  {
  }

  /** The cast remembers the highest counters it has written. */
  lemma NotedIsHighest(img: PreImage, g: int, t: int)
    ensures var n := NoteApplied(img, g, t);
            && n == img.(appliedGeneration := n.appliedGeneration, appliedTemplateGeneration := n.appliedTemplateGeneration)
            && g <= n.appliedGeneration && img.appliedGeneration <= n.appliedGeneration && n.appliedGeneration in {g, img.appliedGeneration}
            && t <= n.appliedTemplateGeneration && img.appliedTemplateGeneration <= n.appliedTemplateGeneration
            && n.appliedTemplateGeneration in {t, img.appliedTemplateGeneration}
  {
  }

  /** A rewritten record keeps the server's state; lifting a teardown clears its finalizers. */
  lemma RewoundKeepsServerState(img: PreImage, p: Service, cur: Service)
    requires Rewound(img, p, cur).Some?
    ensures var n := Rewound(img, p, cur).value;
            && n.observed == PENDING && n.ingressCert == cur.ingressCert
            && MetadataOf(n).observedGeneration == MetadataOf(cur).observedGeneration
            && MetadataOf(n).finalizers == (if img.pruned then [] else MetadataOf(cur).finalizers)
  {
    hide SameHash, SameTemplate, MergeDiscovery;
  }

  /** When a prune or a revert reports success: a revert that has to remove what the cast created takes a failed
      read for success, and one that would recreate what somebody else removed has nothing to do. */
  lemma StepsSucceedIff(s: ServiceSlot, f: Fault)
    ensures PruneService(s, f).ok <==> s.live.Some? && !f.writeFails
    ensures RevertService(s, f).ok <==>
              || s.img.None?
              || (!s.img.value.existed && (s.live.None? || f.readFails || !f.writeFails))
              || (s.img.value.existed && s.img.value.service.Some? && !f.readFails
                  && (s.live.Some? ==> Generation(s.live.value) != LAST_GENERATION && !f.writeFails)
                  && (s.live.None? && s.img.value.pruned ==> !f.writeFails))
  {
    hide SameHash, SameTemplate, MergeDiscovery, Recreated, Tombstone;
  }

  lemma DurableStepsSucceedIff(k: Kind, s: DurableSlot, f: Fault)
    requires IsDurable(k)
    ensures PruneDurable(s, f).ok <==> s.live.Some? && !f.writeFails
    ensures RevertDurable(k, s, f).ok <==>
              || s.img.None?
              || (!s.img.value.existed && (s.live.None? || f.readFails || !f.writeFails))
              || (s.img.value.existed && s.img.value.durable.Some? && !f.writeFails
                  && (s.live.Some? ==>
                        !f.readFails && (k.Volume? ==> s.img.value.durable.value.id == "" || s.img.value.durable.value.id == s.live.value.id)))
  {
  }

  /** A step that fails leaves the record as it was, and an update that fails leaves no pre-image. */
  lemma FailuresChangeNothing(s: ServiceSlot, payload: Option<Service>, stamp: OwnedBy, f: Fault)
    ensures var d := ApplyService(s, payload, stamp, f); !d.ok ==> d.slot.live == s.live && (s.live.Some? ==> d.slot == s)
    ensures !PruneService(s, f).ok ==> PruneService(s, f).slot.live == s.live
    ensures !RevertService(s, f).ok ==> RevertService(s, f).slot == s
  {
    hide Carry, Rewound, Recreated, Tombstone;
  }

  lemma DurableFailuresChangeNothing(k: Kind, s: DurableSlot, payload: Option<Durable>, stamp: OwnedBy, f: Fault)
    ensures !ApplyDurable(k, s, payload, stamp, f).ok ==> ApplyDurable(k, s, payload, stamp, f).slot.live == s.live
    ensures !PruneDurable(s, f).ok ==> PruneDurable(s, f).slot.live == s.live
    ensures !RevertDurable(k, s, f).ok ==> RevertDurable(k, s, f).slot == s
  {
    hide UpdatedDurable, CreatedDurable;
  }

  /** Whole runs */

  ghost predicate Delivered(w: World, p: Payloads, r: Ref) {
    if r.kind.Service? then
      r in p.services && Holds(Get(w.services, r), p.services[r]) && OwnerOf(w.services[r]) == Some(p.stamp)
    else r in p.durables && r in w.durables && HoldsDurable(r.kind, w.durables[r], p.durables[r], p.stamp)
  }

  predicate Removed(w: World, r: Ref) {
    if r.kind.Service? then r !in w.services || Terminating(w.services[r]) else r !in w.durables
  }

  ghost predicate Settled(w: World, p: Payloads, r: Ref, prune: bool) { if prune then Removed(w, r) else Delivered(w, p, r) }

  lemma {:induction false} InterferenceKeepsSettled(w: World, es: seq<Interference>, p: Payloads, r: Ref, prune: bool)
    requires Settled(w, p, r, prune)
    ensures Settled(InterfereAll(w, es), p, r, prune)
    decreases |es|
  {
    if es != [] {
      var e, v := es[|es| - 1], InterfereAll(w, es[..|es| - 1]);
      InterferenceKeepsSettled(w, es[..|es| - 1], p, r, prune);
      hide HoldsPayload;
      if e.ref == r && r.kind.Service? {
        InterfereKeepsOwner(Get(v.services, r), e);
        if !prune { InterfereKeepsPayload(Get(v.services, r), e, p.services[r]); }
      }
      hide Interfere;
    }
  }

  lemma InterfereKeepsOwner(live: Option<Service>, e: Interference)
    ensures var t := Interfere(live, e);
            t.Some? ==> live.Some? && OwnerOf(t.value) == OwnerOf(live.value) && Terminating(t.value) == Terminating(live.value)
  {
  }

  lemma PruneRemoves(s: ServiceSlot, f: Fault)
    ensures PruneService(s, f).ok ==> PruneService(s, f).slot.live.Some? && Terminating(PruneService(s, f).slot.live.value)
  {
  }

  lemma AppliedDelivers(v: World, p: Payloads, r: Ref, f: Fault)
    requires IsManaged(r.kind) && Applied(v, p, r, f).ok
    ensures Delivered(Applied(v, p, r, f).world, p, r)
  {
    if r.kind.Service? {
      ApplyStampsService(ServiceAt(v, r), Get(p.services, r), p.stamp, f);
      assert r in p.services;
      ApplyBringsPayload(ServiceAt(v, r), p.services[r], p.stamp, f);
      hide ApplyService, Holds;
    } else {
      DurableApplyWrites(r.kind, DurableAt(v, r), Get(p.durables, r), p.stamp, f);
      hide ApplyDurable, HoldsDurable, Continues;
    }
  }

  lemma PrunedRemoves(v: World, r: Ref, f: Fault)
    requires IsManaged(r.kind) && Pruned(v, r, f).ok
    ensures Removed(Pruned(v, r, f).world, r)
  {
    if r.kind.Service? {
      PruneRemoves(ServiceAt(v, r), f);
      hide PruneService, Terminating;
    }
  }

  lemma OtherStaysSettled(v: World, p: Payloads, c: Change, f: Fault, r: Ref, prune: bool)
    requires c.ref != r && Settled(v, p, r, prune)
    ensures Settled(Executed(v, p, c, f).world, p, r, prune)
  {
    OtherSlotsStay(p, c, f, v, r);
    var t := Executed(v, p, c, f).world;
    hide Executed, Holds, HoldsDurable, Terminating;
    assert Get(t.services, r) == ServiceAt(t, r).live && Get(t.durables, r) == DurableAt(t, r).live;
  }

  lemma ExecSettles(w: World, p: Payloads, c: Change, i: Input, r: Ref, prune: bool)
    requires IsManaged(r.kind) && Exec(w, p, c, i).ok
    requires if c.ref == r then c.action.Prune? == prune else Settled(w, p, r, prune)
    ensures Settled(Exec(w, p, c, i).world, p, r, prune)
  {
    hide Delivered, Removed, Applied, Pruned;
    var v := InterfereAll(w, i.interference);
    if c.ref != r {
      InterferenceKeepsSettled(w, i.interference, p, r, prune);
      OtherStaysSettled(v, p, c, i.fault, r, prune);
    } else if prune {
      PrunedRemoves(v, r, i.fault);
    } else {
      AppliedDelivers(v, p, r, i.fault);
    }
  }

  lemma {:induction false} CompleteRunSettles(w: World, p: Payloads, all: seq<Change>, split: nat, verified: bool, oracle: nat -> Input, i: nat,
                                              r: Ref, prune: bool)
    requires i <= |all| && IsManaged(r.kind) && Uniform(all, r, prune)
    requires Settled(w, p, r, prune) || exists j :: i <= j < |all| && all[j].ref == r
    requires RunFrom(w, p, all, split, verified, oracle, i).complete
    ensures Settled(RunFrom(w, p, all, split, verified, oracle, i).world, p, r, prune)
    decreases |all| - i
  {
    hide Settled, Exec;
    if i < |all| {
      var s := Exec(w, p, all[i], oracle(i));
      if all[i].ref == r || Settled(w, p, r, prune) { ExecSettles(w, p, all[i], oracle(i), r, prune); }
      CompleteRunSettles(s.world, p, all, split, verified, oracle, i + 1, r, prune);
    }
  }

  /** Main result: a deployed cast has delivered every service, secret, configmap and volume it desired, payload
      and stamp, and has removed every one that the release owned and that is no longer desired. */
  lemma DeployedCastDelivers(s: Cluster, d: Deed, r: Ref)
    requires d.DoCast? && (r.kind.Service? || r.kind.Secret? || r.kind.Configmap? || r.kind.Volume?)
    requires Cast(s.world, s.records, d.spec, d.payloads, d.live, d.fate).outcome.IsDeployed?
    ensures r in d.spec.desired ==> Delivered(Perform(s, d).world, d.payloads, r)
    ensures r in OwnsOf(Get(s.records, d.spec.id)) && r !in d.spec.desired ==> Removed(Perform(s, d).world, r)
  {
    hide Delivered, Removed, Prepare, RunFrom, RevertAll, TraceFrom, AppliesOf, PrunesOf, PlanOf, Cast;
    CastRecord(s.world, s.records, d.spec, d.payloads, d.live, d.fate);
    var plan := PlanFor(s.records, d.spec, d.live);
    ExecutionListTouches(plan, d.spec, Get(s.records, d.spec.id), d.live, r);
    if r in d.spec.desired || r in OwnsOf(Get(s.records, d.spec.id)) {
      CompleteRunSettles(s.world.(pre := map[]), d.payloads, AppliesOf(plan) + PrunesOf(plan), |AppliesOf(plan)|,
                         d.fate.verified, d.fate.oracle, 0, r, r !in d.spec.desired);
    }
  }
}
