/** What an atomic rollback owes each resource, and the invariant that a cast keeps of every slot
    so that a later revert can pay it. */
module Restoration {
  import opened Common
  import opened Services
  import opened Resources
  import opened ServerState

  /** `b` is `a` after any amount of control-plane interference. */
  ghost predicate SameButObserved(a: Service, b: Service) {
    && b.id == a.id && b.spec == a.spec
    && DiscoveryWithoutVIP(b.discovery) == DiscoveryWithoutVIP(a.discovery)
    && b.meta.Some? == a.meta.Some?
    && (a.meta.Some? ==> b.meta.value == a.meta.value.(observedGeneration := b.meta.value.observedGeneration))
  }

  /** Rolled back: a service that was live is live again with its spec, owner, discovery fields and
      identity; one that was absent or already going away is absent or going away. */
  ghost predicate ServiceRestored(before: Option<Service>, after: Option<Service>) {
    if before.None? || Terminating(before.value) then after.None? || Terminating(after.value)
    else
      && after.Some? && !Terminating(after.value)
      && after.value.spec == before.value.spec
      && OwnerOf(after.value) == OwnerOf(before.value)
      && DiscoveryWithoutVIP(after.value.discovery) == DiscoveryWithoutVIP(before.value.discovery)
      && (before.value.id != "" ==> after.value.id == before.value.id)
  }

  /** Rolled back: same data and owner; the ID and the volume phase are the same wherever they were
      set (the secret store keeps neither). */
  ghost predicate DurableRestored(k: Kind, before: Option<Durable>, after: Option<Durable>) {
    if before.None? then after.None?
    else
      && after.Some? && after.value.data == before.value.data && after.value.owner == before.value.owner
      && (!k.Secret? && before.value.id != "" ==> after.value.id == before.value.id)
      && (!k.Secret? && before.value.status != "" ==> after.value.status == before.value.status)
  }

  /** Not touched by the cast. */
  ghost predicate Untouched(before: Option<Service>, now: Option<Service>) {
    || (before.Some? && now.Some? && SameButObserved(before.value, now.value))
    || (now.None? && (before.None? || Terminating(before.value)))
  }

  /** Slot invariant for services, as long as the pre-image was read truthfully. */
  ghost predicate ServiceInv(before: Option<Service>, s: ServiceSlot) {
    if s.img.None? then Untouched(before, s.live)
    else
      var img := s.img.value;
      if !img.existed then before.None? || Terminating(before.value)
      else
        && img.service.Some? && before.Some? && SameButObserved(before.value, img.service.value)
        && if Terminating(img.service.value) then (s.live.None? || Terminating(s.live.value)) && !img.pruned
           else
             && (s.live.None? ==> img.pruned)
             && (s.live.Some? ==> (Terminating(s.live.value) ==> img.pruned)
                                  && (before.value.id != "" ==> s.live.value.id == before.value.id))
  }

  /** Before any prune has run. */
  ghost predicate ApplyPhase(s: ServiceSlot) {
    s.img.Some? ==> !s.img.value.pruned
                    && (s.img.value.service.Some? ==> !Terminating(s.img.value.service.value))
  }

  lemma ApplyKeepsServiceInv(before: Option<Service>, s: ServiceSlot, payload: Option<Service>, stamp: OwnedBy, f: Fault)
    requires ServiceInv(before, s) && ApplyPhase(s)
    ensures ServiceInv(before, ApplyService(s, payload, stamp, f).slot)
    ensures ApplyPhase(ApplyService(s, payload, stamp, f).slot)
  {
  }

  lemma PruneKeepsServiceInv(before: Option<Service>, s: ServiceSlot, f: Fault)
    requires ServiceInv(before, s)
    requires f.readFails && s.img.None? ==> before.None? || Terminating(before.value)
    ensures ServiceInv(before, PruneService(s, f).slot)
  {
  }

  lemma InterferenceKeepsServiceInv(before: Option<Service>, s: ServiceSlot, e: Interference)
    requires ServiceInv(before, s)
    ensures ServiceInv(before, s.(live := Interfere(s.live, e)))
    ensures ApplyPhase(s) ==> ApplyPhase(s.(live := Interfere(s.live, e)))
  {
    if s.live.Some? && e.Observe? { VipIsInvisible(s.live.value, e.vip); }
  }

  lemma InterferenceKeepsRestored(before: Option<Service>, after: Option<Service>, e: Interference)
    requires ServiceRestored(before, after)
    ensures ServiceRestored(before, Interfere(after, e))
  {
    if after.Some? && e.Observe? { VipIsInvisible(after.value, e.vip); }
  }

  /** What a carry keeps of each side. */
  lemma CarryKeeps(stored: Service, rendered: Service)
    requires Carry(stored, rendered).Some?
    ensures var n := Carry(stored, rendered).value;
            && n.id == (if stored.id != "" then stored.id else rendered.id)
            && n.spec == rendered.spec && n.meta.Some?
            && OwnerOf(n) == OwnerOf(rendered)
            && Terminating(n) == Terminating(stored)
  {
  }

  lemma RewoundKeeps(img: PreImage, p: Service, cur: Service)
    requires Rewound(img, p, cur).Some?
    ensures var n := Rewound(img, p, cur).value;
            && n.id == (if cur.id != "" then cur.id else p.id)
            && n.spec == p.spec && n.meta.Some?
            && OwnerOf(n) == OwnerOf(p)
            && Terminating(n) == (Terminating(cur) && !img.pruned)
            && DiscoveryWithoutVIP(n.discovery) == DiscoveryWithoutVIP(p.discovery)
            && VipOf(n.discovery) == VipOf(cur.discovery)
  {
    CarryKeeps(cur, p);
    hide Carry;
    VipIsInvisible(p, VipOf(cur.discovery));
  }

  lemma RevertByUpdate(before: Option<Service>, s: ServiceSlot, f: Fault)
    requires ServiceInv(before, s)
    requires s.img.Some? && s.img.value.existed && s.live.Some?
    ensures ServiceInv(before, RevertService(s, f).slot)
    ensures RevertService(s, f).ok ==> ServiceRestored(before, RevertService(s, f).slot.live)
  {
    hide Rewound;
    var p, cur := s.img.value.service.value, s.live.value;
    if Rewound(s.img.value, p, cur).Some? { RewoundKeeps(s.img.value, p, cur); }
  }

  lemma RevertByRecreate(before: Option<Service>, s: ServiceSlot, f: Fault)
    requires ServiceInv(before, s)
    requires s.img.Some? && s.img.value.existed && s.live.None?
    ensures ServiceInv(before, RevertService(s, f).slot)
    ensures RevertService(s, f).ok ==> ServiceRestored(before, RevertService(s, f).slot.live)
  {
    VipIsInvisible(s.img.value.service.value, "");
  }

  /** A service that the cast knows to have been absent, and that is there now. */
  predicate ServiceToRemove(s: ServiceSlot) {
    s.img.Some? && !s.img.value.existed && s.live.Some? && !Terminating(s.live.value)
  }

  /** A revert that reports success has restored the service, unless it had to remove it and could not
      read it: a failed read is taken for "never landed". */
  lemma RevertRestoresService(before: Option<Service>, s: ServiceSlot, f: Fault)
    requires ServiceInv(before, s)
    ensures ServiceInv(before, RevertService(s, f).slot)
    ensures RevertService(s, f).ok ==>
              (ServiceRestored(before, RevertService(s, f).slot.live) <==> !(ServiceToRemove(s) && f.readFails))
  {
    if s.img.Some? && s.img.value.existed {
      if s.live.Some? { RevertByUpdate(before, s, f); } else { RevertByRecreate(before, s, f); }
    }
  }

  /** Slot invariant for secrets, configmaps and volumes. */
  ghost predicate DurableInv(k: Kind, before: Option<Durable>, s: DurableSlot) {
    if s.img.None? then s.live == before
    else if !s.img.value.existed then before.None?
    else s.img.value.durable == before && before.Some?
         && (k.Volume? && s.live.Some? && before.value.id != "" ==> s.live.value.id == before.value.id)
  }

  lemma ApplyKeepsDurableInv(k: Kind, before: Option<Durable>, s: DurableSlot, payload: Option<Durable>, stamp: OwnedBy, f: Fault)
    requires IsDurable(k) && DurableInv(k, before, s)
    requires f.readFails && payload.Some? && s.img.None? ==> before.None?
    requires s.img.Some? && s.img.value.existed ==> s.live.Some?
    ensures var s' := ApplyDurable(k, s, payload, stamp, f).slot;
            DurableInv(k, before, s') && (s'.img.Some? && s'.img.value.existed ==> s'.live.Some?)
  {
  }

  lemma PruneKeepsDurableInv(k: Kind, before: Option<Durable>, s: DurableSlot, f: Fault)
    requires IsDurable(k) && DurableInv(k, before, s)
    requires f.readFails && s.img.None? ==> before.None?
    ensures DurableInv(k, before, PruneDurable(s, f).slot)
  {
  }

  predicate DurableToRemove(s: DurableSlot) { s.img.Some? && !s.img.value.existed && s.live.Some? }

  /** The same for secrets, configmaps and volumes. */
  lemma RevertRestoresDurable(k: Kind, before: Option<Durable>, s: DurableSlot, f: Fault)
    requires IsDurable(k) && DurableInv(k, before, s)
    ensures DurableInv(k, before, RevertDurable(k, s, f).slot)
    ensures RevertDurable(k, s, f).ok ==>
              (DurableRestored(k, before, RevertDurable(k, s, f).slot.live) <==> !(DurableToRemove(s) && f.readFails))
  {
  }
}
