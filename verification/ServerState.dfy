/** What happens to one service record and to one durable record when a cast applies, prunes or
    reverts it.  Each operation works on a slot (the live record, if any, and the pre-image, if
    captured) and on the faults the store injects.  Every store call either takes effect or fails
    without effect, because each is one transaction. */
module ServerState {
  import opened Common
  import opened Services
  import opened Resources

  const MAX_INT64: int := 0x7fff_ffff_ffff_ffff

  function OwnerOf(s: Service): Option<OwnedBy> { if s.meta.Some? then s.meta.value.owner else None }
  function MetadataOf(s: Service): Metadata { if s.meta.Some? then s.meta.value else NO_METADATA }
  predicate Terminating(s: Service) { s.meta.Some? && s.meta.value.terminating }
  function Generation(s: Service): int { MetadataOf(s).generation }
  function TemplateGeneration(s: Service): int { MetadataOf(s).templateGeneration }

  /** Operator fields from `updated` onto `existing`, always keeping the VIP. */
  function MergeDiscovery(existing: Option<Discovery>, updated: Option<Discovery>): Option<Discovery> {
    if existing.None? && updated.None? then None
    else
      var base := if existing.Some? then existing.value else Discovery("", "", "");
      var mode := if updated.Some? && updated.value.mode != "" then updated.value.mode else base.mode;
      var locality := if updated.Some? && updated.value.locality != "" then updated.value.locality else base.locality;
      if mode == "" && locality == "" && base.vip == "" then None else Some(Discovery(mode, base.vip, locality))
  }

  /** The pre-image's operator fields with the live record's VIP. */
  function RestoreDiscovery(preImage: Option<Discovery>, vip: string): Option<Discovery> {
    WithVIP(preImage, vip)
  }

  /** carryServerState: the stored identity and server-owned state on the rendered spec, with the
      counters advanced if the spec moved.  None when the generation counter is exhausted. */
  function Carry(stored: Service, rendered: Service): (r: Option<Service>)
    ensures r.None? <==> stored.meta.Some? && stored.meta.value.generation == MAX_INT64
  {
    if stored.meta.Some? && stored.meta.value.generation == MAX_INT64 then None
    else
      var m := MetadataOf(stored).(owner := OwnerOf(rendered));
      var next := Services.Service(
        if stored.id != "" then stored.id else rendered.id,
        rendered.spec,
        MergeDiscovery(stored.discovery, rendered.discovery),
        PENDING, stored.ingressCert, Some(m));
      var g := if SameHash(stored, next) then m.generation else m.generation + 1;
      var t := if SameTemplate(stored, next) then m.templateGeneration else g;
      var z := if rendered.spec.scale > 0 then rendered.spec.scale else m.lastNonZeroScale;
      Some(next.(meta := Some(m.(generation := g, templateGeneration := t, lastNonZeroScale := z))))
  }

  /** sanitizeServerFields: drops everything a payload must not choose. */
  function Sanitize(s: Service, freshId: string): Service {
    Services.Service(
      freshId, s.spec,
      if s.discovery.Some? then Some(s.discovery.value.(vip := "")) else None,
      PENDING, "", Some(NO_METADATA.(owner := OwnerOf(s))))
  }

  /** The counters that CreateService seeds. */
  function Seed(s: Service): Service {
    var m := MetadataOf(s);
    var g := if m.generation == 0 then 1 else m.generation;
    var t := if m.templateGeneration == 0 then g else m.templateGeneration;
    var z := if m.lastNonZeroScale == 0 && s.spec.scale > 0 then s.spec.scale else m.lastNonZeroScale;
    s.(meta := Some(m.(generation := g, templateGeneration := t, lastNonZeroScale := z)))
  }

  /** DeleteService stamps a tombstone; a second delete is a no-op. */
  function Tombstone(s: Service): Service {
    if Terminating(s) then s
    else
      var cleanup := if exists i :: 0 <= i < |s.spec.volumes| && s.spec.volumes[i].claimTemplate.Some?
                     then ["instance-cleanup", "volume-cleanup"] else ["instance-cleanup"];
      s.(meta := Some(MetadataOf(s).(terminating := true, finalizers := cleanup)),
         observed := s.observed.(status := "Deleted"))
  }

  function WithOwner(s: Service, stamp: OwnedBy): Service {
    s.(meta := Some(MetadataOf(s).(owner := Some(stamp))))
  }

  /** Faults injected into one applier call. */
  datatype Fault = Fault(readFails: bool, writeFails: bool, freshId: string)

  datatype ServiceSlot = ServiceSlot(live: Option<Service>, img: Option<PreImage>)
  datatype DurableSlot = DurableSlot(live: Option<Durable>, img: Option<PreImage>)
  datatype Did<S> = Did(slot: S, ok: bool)

  /** Services */

  function ApplyService(s: ServiceSlot, payload: Option<Service>, stamp: OwnedBy, f: Fault): Did<ServiceSlot> {
    if payload.None? || f.readFails then Did(s, false)
    else
      var original := WithOwner(payload.value, stamp);
      if s.live.Some? then
        var stored := s.live.value;
        if Terminating(stored) then Did(s, false)
        else
          var next := Carry(stored, original);
          if next.None? || f.writeFails then Did(s, false)
          else
            var img := Capture(s.img, OfService(stored)).value;
            Did(ServiceSlot(next, Some(NoteApplied(img, Generation(next.value), TemplateGeneration(next.value)))), true)
      else
        var img := Capture(s.img, ABSENT);
        if f.writeFails then Did(ServiceSlot(None, img), false)
        else Did(ServiceSlot(Some(Seed(Sanitize(original, f.freshId))), img), true)
  }

  /** The two halves of Prune: the snapshot, then the delete.  A read error records "absent". */
  function SnapshotService(s: ServiceSlot, f: Fault): ServiceSlot {
    s.(img := Capture(s.img, if s.live.Some? && !f.readFails then OfService(s.live.value) else ABSENT))
  }

  function DeleteSnapshotted(s: ServiceSlot, f: Fault): Did<ServiceSlot>
    requires s.img.Some?
  {
    if s.live.None? || f.writeFails then Did(s, false)
    else
      var img := s.img.value;
      var alreadyTerminating := img.service.Some? && Terminating(img.service.value);
      Did(ServiceSlot(Some(Tombstone(s.live.value)), Some(if alreadyTerminating then img else img.(pruned := true))), true)
  }

  function PruneService(s: ServiceSlot, f: Fault): Did<ServiceSlot> {
    DeleteSnapshotted(SnapshotService(s, f), f)
  }

  /** The record a revert recreates when its own prune has already removed the service. */
  function Recreated(img: PreImage, p: Service): Service {
    var m := MetadataOf(p).(terminating := false, finalizers := []);
    var top := if img.appliedGeneration > m.generation then img.appliedGeneration else m.generation;
    var g := if top < MAX_INT64 then top + 1 else top;
    var t := if img.appliedTemplateGeneration > m.templateGeneration then g else m.templateGeneration;
    Seed(Sanitize(p, p.id).(meta := Some(m.(generation := g, templateGeneration := t))))
  }

  /** The record a revert writes over one that is still there: the pre-image's spec carried onto the
      live record, the pre-image's discovery fields with the live VIP, and the teardown lifted only
      if this cast's own prune requested it. */
  function Rewound(img: PreImage, p: Service, cur: Service): Option<Service> {
    var carried := Carry(cur, p);
    if carried.None? then None
    else
      var m := MetadataOf(carried.value);
      Some(carried.value.(
        discovery := RestoreDiscovery(p.discovery, VipOf(cur.discovery)),
        meta := Some(if img.pruned then m.(terminating := false, finalizers := []) else m)))
  }

  function RevertService(s: ServiceSlot, f: Fault): Did<ServiceSlot> {
    if s.img.None? then Did(s, true)
    else
      var img := s.img.value;
      if !img.existed then
        if s.live.None? || f.readFails then Did(s, true)
        else if f.writeFails then Did(s, false)
        else Did(s.(live := Some(Tombstone(s.live.value))), true)
      else if img.service.None? || f.readFails then Did(s, false)
      else
        var p := img.service.value;
        if s.live.Some? then
          var next := Rewound(img, p, s.live.value);
          if next.None? || f.writeFails then Did(s, false) else Did(s.(live := next), true)
        else if !img.pruned then Did(s, true)
        else if f.writeFails then Did(s, false)
        else Did(s.(live := Some(Recreated(img, p))), true)
  }

  /** Secrets, configmaps and volumes.  A read error is taken for "absent". */

  function ApplyDurable(k: Kind, s: DurableSlot, payload: Option<Durable>, stamp: OwnedBy, f: Fault): Did<DurableSlot> {
    if payload.None? then Did(s, false)
    else
      var next := payload.value.(owner := Some(stamp));
      if s.live.Some? && !f.readFails then
        var updated := UpdatedDurable(k, s.live.value, next);
        var img := Capture(s.img, OfDurable(s.live.value));
        if f.writeFails || updated.None? then Did(s.(img := img), false) else Did(DurableSlot(updated, img), true)
      else
        var img := Capture(s.img, ABSENT);
        if f.writeFails || s.live.Some? then Did(s.(img := img), false)   // "already exists"
        else Did(DurableSlot(Some(CreatedDurable(k, next, f.freshId)), img), true)
  }

  function PruneDurable(s: DurableSlot, f: Fault): Did<DurableSlot> {
    var img := Capture(s.img, if s.live.Some? && !f.readFails then OfDurable(s.live.value) else ABSENT);
    if s.live.None? || f.writeFails then Did(s.(img := img), false) else Did(DurableSlot(None, img), true)
  }

  function RevertDurable(k: Kind, s: DurableSlot, f: Fault): Did<DurableSlot> {
    if s.img.None? then Did(s, true)
    else if !s.img.value.existed then
      if s.live.None? || f.readFails then Did(s, true)
      else if f.writeFails then Did(s, false)
      else Did(s.(live := None), true)
    else if s.img.value.durable.None? then Did(s, false)
    else
      var p := s.img.value.durable.value;
      if s.live.Some? && !f.readFails then
        var updated := UpdatedDurable(k, s.live.value, p);
        if f.writeFails || updated.None? then Did(s, false) else Did(s.(live := updated), true)
      else if f.writeFails || s.live.Some? then Did(s, false)
      else Did(s.(live := Some(CreatedDurable(k, p, f.freshId))), true)
  }

  /** What the control plane itself may do to a service between two applier calls: publish observed
      state, allocate or release the VIP, and complete a teardown that was requested. */
  datatype Interference =
    | Observe(ref: Ref, observed: Observed, vip: string, ingressCert: string, observedGeneration: int)
    | FinishTeardown(ref: Ref)

  function Interfere(live: Option<Service>, e: Interference): Option<Service> {
    if live.None? then None
    else
      var s := live.value;
      match e
      case Observe(_, observed, vip, cert, g) =>
        Some(s.(observed := observed, discovery := WithVIP(s.discovery, vip), ingressCert := cert,
                meta := if s.meta.Some? then Some(s.meta.value.(observedGeneration := g)) else None))
      case FinishTeardown(_) => if Terminating(s) then None else live
  }
}
