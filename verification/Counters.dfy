/** Generation and TemplateGeneration over the life of one service: through any sequence of casts,
    applies, prunes, reverts and control-plane writes, the counters only move forward and an equal
    TemplateGeneration means an equal template. */
module Counters {
  import opened Common
  import opened Services
  import opened Resources
  import opened ServerState
  import opened Restoration

  /** The counters of a seeded record. */
  predicate Seeded(s: Service) { 1 <= TemplateGeneration(s) <= Generation(s) }

  /** `b` may come after `a` in the life of a service. */
  predicate Follows(a: Service, b: Service) {
    && Generation(a) <= Generation(b)
    && TemplateGeneration(a) <= TemplateGeneration(b)
    && (TemplateGeneration(a) == TemplateGeneration(b) ==> SameTemplate(a, b))
  }

  lemma FollowsIsTransitive(a: Service, b: Service, c: Service)
    requires Follows(a, b) && Follows(b, c)
    ensures Follows(a, c)
  {
  }

  /** A service's slot together with every record its current life has had, the latest last. */
  datatype Life = Life(slot: ServiceSlot, records: seq<Service>, reverting: bool)

  datatype Op =
    | BeginCast
    | ApplyOp(payload: Option<Service>, stamp: OwnedBy, fault: Fault)
    | PruneOp(fault: Fault)
    | RevertOp(fault: Fault)
    | InterfereOp(e: Interference)

  function Live(l: Life, slot: ServiceSlot, newLife: bool): Life {
    if slot.live.None? || (l.slot.live == slot.live) then l.(slot := slot)
    else l.(slot := slot, records := (if newLife then [] else l.records) + [slot.live.value])
  }

  function Do(l: Life, op: Op): Life {
    match op
    case BeginCast => l.(slot := l.slot.(img := None), reverting := false)
    case ApplyOp(payload, stamp, f) => Live(l, ApplyService(l.slot, payload, stamp, f).slot, l.slot.live.None?)
    case PruneOp(f) => Live(l, PruneService(l.slot, f).slot, false)
    case RevertOp(f) => Live(l, RevertService(l.slot, f).slot, false).(reverting := true)
    case InterfereOp(e) => Live(l, l.slot.(live := Interfere(l.slot.live, e)), false)
  }

  /** The highest generation the cast knows of. */
  function Reached(img: PreImage, p: Service): int {
    if img.appliedGeneration > Generation(p) then img.appliedGeneration else Generation(p)
  }

  /** A recreation can still outrank what the cast applied: the template counter it applied, or at least the
      generation, is below the int64 limit. */
  predicate CanOutrank(img: PreImage, p: Service) {
    Reached(img, p) < MAX_INT64 || img.appliedTemplateGeneration < MAX_INT64
  }

  /** What the executor guarantees when it calls the applier: no apply or prune after the first
      revert, and no apply onto a captured service that has vanished.  Where a revert recreates a record, the
      counters must not have been driven to the int64 limit. */
  predicate Allowed(l: Life, op: Op) {
    match op
    case ApplyOp(_, _, _) => !l.reverting && (l.slot.img.Some? && l.slot.img.value.existed ==> l.slot.live.Some?)
    case PruneOp(_) => !l.reverting
    case RevertOp(_) =>
      l.slot.img.Some? && l.slot.img.value.service.Some? && l.slot.img.value.pruned && l.slot.live.None? ==>
        CanOutrank(l.slot.img.value, l.slot.img.value.service.value)
    case _ => true
  }

  /** Records of the life so far, pairwise in order. */
  ghost predicate Ordered(rs: seq<Service>) {
    && (forall i :: 0 <= i < |rs| ==> Seeded(rs[i]))
    && (forall i, j :: 0 <= i < j < |rs| ==> Follows(rs[i], rs[j]))
  }

  /** A recreation from `img` would come after `last`. */
  ghost predicate Bounds(img: PreImage, p: Service, last: Service) {
    && Generation(last) <= Reached(img, p)
    && (if img.appliedTemplateGeneration <= TemplateGeneration(p)
        then TemplateGeneration(last) == TemplateGeneration(p) && SameTemplate(last, p)
        else TemplateGeneration(last) <= Reached(img, p) && TemplateGeneration(last) <= img.appliedTemplateGeneration)
  }

  ghost predicate LifeInv(l: Life) {
    && Ordered(l.records)
    && (l.slot.live.Some? ==> l.records != [] && l.slot.live.value == l.records[|l.records| - 1])
    && (l.slot.img.Some? && l.slot.img.value.existed ==>
          && l.slot.img.value.service.Some? && Seeded(l.slot.img.value.service.value) && l.records != []
          && (!l.reverting || (l.slot.img.value.pruned && (l.slot.live.None? || Terminating(l.slot.live.value))) ==>
                Bounds(l.slot.img.value, l.slot.img.value.service.value, l.records[|l.records| - 1])))
  }

  lemma OrderedExtends(rs: seq<Service>, s: Service)
    requires Ordered(rs) && Seeded(s) && (rs != [] ==> Follows(rs[|rs| - 1], s))
    ensures Ordered(rs + [s])
  {
    forall i | 0 <= i < |rs| ensures Follows(rs[i], s) {
      if i < |rs| - 1 { FollowsIsTransitive(rs[i], rs[|rs| - 1], s); }
    }
  }

  /** A carry moves the counters forward, and moves the template counter exactly when the template moves. */
  lemma CarryFollows(stored: Service, rendered: Service)
    requires Seeded(stored) && Carry(stored, rendered).Some?
    ensures var n := Carry(stored, rendered).value;
            && Seeded(n) && Follows(stored, n)
            && (TemplateGeneration(n) == TemplateGeneration(stored) <==> Template(stored.spec) == Template(rendered.spec))
            && (Template(stored.spec) != Template(rendered.spec) ==> TemplateGeneration(n) == Generation(n) == Generation(stored) + 1)
            && Generation(n) <= Generation(stored) + 1
  {
    hide Template, Desired;
  }

  /** Applying keeps a later recreation above everything written. */
  lemma AppliedBounds(img: PreImage, p: Service, stored: Service, next: Service)
    requires Bounds(img, p, stored) && Seeded(next) && Follows(stored, next)
    ensures Bounds(NoteApplied(img, Generation(next), TemplateGeneration(next)), p, next)
  {
    hide Template;
  }

  lemma ApplyOntoLive(l: Life, op: Op)
    requires LifeInv(l) && op.ApplyOp? && Allowed(l, op) && l.slot.live.Some?
    ensures LifeInv(Do(l, op))
  {
    hide Carry, Template, Bounds, Ordered;
    LastIsSeeded(l);
    var stored := l.slot.live.value;
    if op.payload.Some? && Carry(stored, WithOwner(op.payload.value, op.stamp)).Some? {
      var next := Carry(stored, WithOwner(op.payload.value, op.stamp)).value;
      CarryFollows(stored, WithOwner(op.payload.value, op.stamp));
      OrderedExtends(l.records, next);
      CapturedBounds(stored);
      var img := Capture(l.slot.img, OfService(stored)).value;
      if img.existed { AppliedBounds(img, img.service.value, stored, next); }
    }
  }

  lemma CapturedBounds(s: Service)
    ensures Seeded(s) ==> Bounds(OfService(s), s, s)
  {
  }

  lemma ApplyKeepsLife(l: Life, op: Op)
    requires LifeInv(l) && op.ApplyOp? && Allowed(l, op)
    ensures LifeInv(Do(l, op))
  {
    if l.slot.live.Some? {
      ApplyOntoLive(l, op);
    } else {
      hide Carry;
      var d := ApplyService(l.slot, op.payload, op.stamp, op.fault);
      if d.slot.live.Some? { OrderedExtends([], d.slot.live.value); }
    }
  }

  lemma PruneKeepsLife(l: Life, op: Op)
    requires LifeInv(l) && op.PruneOp? && Allowed(l, op)
    ensures LifeInv(Do(l, op))
  {
    hide Tombstone, Template, Bounds, Ordered, Terminating, Seeded, Follows;
    if l.slot.live.Some? {
      var last := l.slot.live.value;
      LastIsSeeded(l);
      TombstoneFollows(last);
      OrderedExtends(l.records, Tombstone(last));
      CapturedBounds(last);
      var img := SnapshotService(l.slot, op.fault).img.value;
      if img.existed { TombstoneBounds(img, img.service.value, last); }
    }
  }

  lemma TombstoneBounds(img: PreImage, p: Service, last: Service)
    ensures Bounds(img, p, last) ==> Bounds(img, p, Tombstone(last)) && Bounds(img.(pruned := true), p, Tombstone(last)) && Bounds(img.(pruned := true), p, last)
  {
    hide Template;
  }

  lemma ObservedFollows(s: Service, e: Interference)
    ensures var t := Interfere(Some(s), e);
            t.Some? ==> Follows(s, t.value) && Follows(t.value, s) && (Seeded(s) ==> Seeded(t.value)) && Terminating(t.value) == Terminating(s)
  {
    hide Template;
  }

  lemma ObservedBounds(img: PreImage, p: Service, a: Service, b: Service)
    requires Follows(a, b) && Follows(b, a)
    ensures Bounds(img, p, a) ==> Bounds(img, p, b)
  {
    hide Template;
  }

  lemma InterfereKeepsLife(l: Life, op: Op)
    requires LifeInv(l) && op.InterfereOp?
    ensures LifeInv(Do(l, op))
  {
    hide Ordered, Template, Bounds;
    var after := Interfere(l.slot.live, op.e);
    if after.Some? {
      LastIsSeeded(l);
      ObservedFollows(l.slot.live.value, op.e);
      OrderedExtends(l.records, after.value);
      if l.slot.img.Some? && l.slot.img.value.existed {
        ObservedBounds(l.slot.img.value, l.slot.img.value.service.value, l.slot.live.value, after.value);
      }
    }
  }

  lemma RewoundFollows(img: PreImage, p: Service, cur: Service)
    requires Seeded(cur) && Rewound(img, p, cur).Some?
    ensures Seeded(Rewound(img, p, cur).value) && Follows(cur, Rewound(img, p, cur).value)
  {
    CarryFollows(cur, p);
    hide Carry, Template;
  }

  lemma RecreatedFollows(img: PreImage, p: Service, last: Service)
    requires Seeded(p) && Bounds(img, p, last) && CanOutrank(img, p)
    ensures Seeded(Recreated(img, p)) && Follows(last, Recreated(img, p))
  {
    hide Template;
  }

  /** Without that, a recreation follows the last record if and only if the template is back where it was or
      the last template counter is still below what the cast reached. */
  lemma RecreatedFollowsIff(img: PreImage, p: Service, last: Service)
    requires Seeded(p) && Bounds(img, p, last) && Reached(img, p) == MAX_INT64
    ensures Follows(last, Recreated(img, p)) <==>
              img.appliedTemplateGeneration <= TemplateGeneration(p) || TemplateGeneration(last) < MAX_INT64 || SameTemplate(last, p)
  {
    assert SameTemplate(last, Recreated(img, p)) == SameTemplate(last, p);
    hide Template;
  }

  lemma RevertKeepsLife(l: Life, op: Op)
    requires LifeInv(l) && op.RevertOp? && Allowed(l, op)
    ensures LifeInv(Do(l, op))
  {
    hide Rewound, Recreated, Template, Bounds, Ordered;
    if l.slot.img.Some? {
      var img := l.slot.img.value;
      if !img.existed {
        if l.slot.live.Some? { LastIsSeeded(l); TombstoneFollows(l.slot.live.value); OrderedExtends(l.records, Tombstone(l.slot.live.value)); }
      } else if l.slot.live.Some? {
        var next := Rewound(img, img.service.value, l.slot.live.value);
        LastIsSeeded(l);
        if next.Some? {
          RewoundFollows(img, img.service.value, l.slot.live.value);
          RewoundKeeps(img, img.service.value, l.slot.live.value);
          OrderedExtends(l.records, next.value);
        }
      } else if img.pruned {
        RecreatedFollows(img, img.service.value, l.records[|l.records| - 1]);
        RecreatedIsLive(img, img.service.value);
        OrderedExtends(l.records, Recreated(img, img.service.value));
      }
    }
  }

  lemma LastIsSeeded(l: Life)
    requires LifeInv(l) && l.slot.live.Some?
    ensures Seeded(l.slot.live.value)
  {
  }

  lemma TombstoneFollows(s: Service)
    ensures Follows(s, Tombstone(s)) && (Seeded(s) ==> Seeded(Tombstone(s)))
  {
  }

  lemma RecreatedIsLive(img: PreImage, p: Service)
    ensures !Terminating(Recreated(img, p))
  {
  }

  lemma DoKeepsLife(l: Life, op: Op)
    requires LifeInv(l) && Allowed(l, op)
    ensures LifeInv(Do(l, op))
  {
    match op
    case BeginCast =>
    case ApplyOp(_, _, _) => ApplyKeepsLife(l, op);
    case PruneOp(_) => PruneKeepsLife(l, op);
    case RevertOp(_) => RevertKeepsLife(l, op);
    case InterfereOp(_) => InterfereKeepsLife(l, op);
  }

  function DoAll(l: Life, ops: seq<Op>): Life
    decreases |ops|
  {
    if ops == [] then l else DoAll(Do(l, ops[0]), ops[1..])
  }

  /** Each operation is allowed where it happens. */
  predicate AllAllowed(l: Life, ops: seq<Op>)
    decreases |ops|
  {
    ops == [] || (Allowed(l, ops[0]) && AllAllowed(Do(l, ops[0]), ops[1..]))
  }

  /** Main result: from a service that does not exist yet, or any seeded record, through every
      history of casts, the records of one life satisfy 1 <= TemplateGeneration <= Generation, neither
      counter ever decreases, and equal template counters mean equal templates. */
  lemma {:induction false} CountersAreFaithful(l: Life, ops: seq<Op>)
    requires LifeInv(l) && AllAllowed(l, ops)
    ensures LifeInv(DoAll(l, ops)) && Ordered(DoAll(l, ops).records)
    decreases |ops|
  {
    hide LifeInv, Allowed, Do, Ordered;
    if ops == [] {
      LifeIsOrdered(l);
    } else {
      DoKeepsLife(l, ops[0]);
      CountersAreFaithful(Do(l, ops[0]), ops[1..]);
    }
  }

  lemma LifeIsOrdered(l: Life)
    requires LifeInv(l)
    ensures Ordered(l.records)
  {
  }

  lemma LivesBegin(s: Service)
    ensures LifeInv(Life(ServiceSlot(None, None), [], false))
    ensures Seeded(s) ==> LifeInv(Life(ServiceSlot(Some(s), None), [s], false))
  {
  }

  /** Reverting `applied` to `before` outranks it exactly when apply moved the template. */
  predicate Outranks(before: Service, applied: Service, reverted: Service) {
    if SameTemplate(before, applied)
    then TemplateGeneration(reverted) == TemplateGeneration(applied) == TemplateGeneration(before)
    else TemplateGeneration(reverted) > TemplateGeneration(applied) > TemplateGeneration(before)
  }

  lemma CarryThereAndBack(before: Service, payload: Service, img: PreImage, seen: Service)
    requires Seeded(before) && Carry(before, payload).Some?
    requires SameButObserved(Carry(before, payload).value, seen) && Rewound(img, before, seen).Some?
    ensures Outranks(before, Carry(before, payload).value, Rewound(img, before, seen).value)
  {
    CarryFollows(before, payload);
    CarryKeeps(before, payload);
    CarryFollows(seen, before);
    hide Carry, Template;
  }

  lemma ApplyIsCarry(before: Service, payload: Option<Service>, stamp: OwnedBy, f: Fault)
    ensures var d := ApplyService(ServiceSlot(Some(before), None), payload, stamp, f);
            d.ok ==>
              && payload.Some? && d.slot.live == Carry(before, WithOwner(payload.value, stamp)) && d.slot.live.Some?
              && d.slot.img.Some? && d.slot.img.value.existed && d.slot.img.value.service == Some(before) && !d.slot.img.value.pruned
  {
    hide Carry;
  }

  lemma RevertIsRewind(t: ServiceSlot, f: Fault)
    requires t.live.Some? && t.img.Some? && t.img.value.existed && t.img.value.service.Some? && RevertService(t, f).ok
    ensures RevertService(t, f).slot.live == Rewound(t.img.value, t.img.value.service.value, t.live.value)
    ensures RevertService(t, f).slot.live.Some?
  {
    hide Rewound;
  }

  /** Revert outranks the failed cast: if apply changed the template, the reverted record's template
      counter is strictly above the one apply stamped, so the instances the cast created are outdated;
      if apply left the template alone, the counter is the one from before the cast.  `t` is the slot
      apply left, after any control-plane writes. */
  lemma RevertOutranksApply(before: Service, payload: Option<Service>, stamp: OwnedBy, f: Fault, t: ServiceSlot, f': Fault)
    requires Seeded(before)
    requires var d := ApplyService(ServiceSlot(Some(before), None), payload, stamp, f);
             d.ok && t.img == d.slot.img && t.live.Some? && d.slot.live.Some? && SameButObserved(d.slot.live.value, t.live.value)
    requires RevertService(t, f').ok
    ensures var d, r := ApplyService(ServiceSlot(Some(before), None), payload, stamp, f), RevertService(t, f');
            d.slot.live.Some? && r.slot.live.Some? && Outranks(before, d.slot.live.value, r.slot.live.value)
  {
    ApplyIsCarry(before, payload, stamp, f);
    hide ApplyService;
    RevertIsRewind(t, f');
    hide RevertService, Carry, Rewound, SameButObserved, Outranks;
    CarryThereAndBack(before, WithOwner(payload.value, stamp), t.img.value, t.live.value);
  }

  lemma RewoundLifts(img: PreImage, p: Service, cur: Service)
    ensures var n := Rewound(img, p, cur); n.Some? ==> Terminating(n.value) == (Terminating(cur) && !img.pruned)
  {
    hide *;
    if Rewound(img, p, cur).Some? { RewoundKeeps(img, p, cur); }
  }

  lemma TombstoneIsDown(s: Service)
    ensures Terminating(Tombstone(s))
  {
  }

  /** A teardown that the cast found in place is never lifted: the reverted record is still going away. */
  lemma FoundTeardownIsNotLifted(s: ServiceSlot, f: Fault, t: ServiceSlot, f': Fault)
    requires s.live.Some? && Terminating(s.live.value) && s.img.None?
    requires t.img == PruneService(s, f).slot.img && (t.live.Some? ==> Terminating(t.live.value))
    ensures var r := RevertService(t, f').slot.live; r.Some? ==> Terminating(r.value)
  {
    hide Rewound, Recreated, Terminating;
    if t.live.Some? {
      TombstoneIsDown(t.live.value);
      RewoundLifts(t.img.value, s.live.value, t.live.value);
    }
    hide Tombstone;
  }

  /** But a teardown that starts between the snapshot and the delete of one prune is taken for the
      cast's own, and lifted by the revert. */
  lemma TeardownDuringPruneIsLifted(s: ServiceSlot, f: Fault)
    requires s.live.Some? && !Terminating(s.live.value) && s.img.None? && !f.readFails && !f.writeFails
    requires Generation(s.live.value) < MAX_INT64
    ensures var snapshot := SnapshotService(s, f);
            var byOperator := snapshot.(live := Some(Tombstone(s.live.value)));
            var pruned := DeleteSnapshotted(byOperator, f);
            var reverted := RevertService(pruned.slot, f);
            && Terminating(byOperator.live.value) && pruned.ok && pruned.slot.live == byOperator.live
            && reverted.ok && reverted.slot.live.Some? && !Terminating(reverted.slot.live.value)
  {
    var byOperator := SnapshotService(s, f).(live := Some(Tombstone(s.live.value)));
    var pruned := DeleteSnapshotted(byOperator, f);
    RewoundKeeps(pruned.slot.img.value, s.live.value, Tombstone(s.live.value));
    hide Rewound;
  }

  /** The identity survives a cast and its revert unless the record had none and the payload brought one. */
  lemma IdentityIsRestored(before: Service, payload: Option<Service>, stamp: OwnedBy, f: Fault, t: ServiceSlot, f': Fault)
    requires var d := ApplyService(ServiceSlot(Some(before), None), payload, stamp, f);
             d.ok && t.img == d.slot.img && t.live.Some? && d.slot.live.Some? && t.live.value.id == d.slot.live.value.id
    requires RevertService(t, f').ok
    ensures RevertService(t, f').slot.live.Some?
    ensures RevertService(t, f').slot.live.value.id == before.id <==> before.id != "" || payload.value.id == ""
  {
    ApplyIsCarry(before, payload, stamp, f);
    CarryKeeps(before, WithOwner(payload.value, stamp));
    hide ApplyService, Carry;
    RevertIsRewind(t, f');
    hide RevertService;
    RewoundKeeps(t.img.value, before, t.live.value);
    hide Rewound;
  }

  /** `first` is what applying `payload` to some record, or creating it, leaves. */
  ghost predicate HoldsPayload(first: Service, payload: Service) {
    && first.spec == payload.spec
    && exists base: Option<Discovery> :: DiscoveryWithoutVIP(first.discovery) == DiscoveryWithoutVIP(MergeDiscovery(base, payload.discovery))
  }

  lemma MergeIsIdempotent(base: Option<Discovery>, updated: Option<Discovery>, seen: Option<Discovery>)
    requires DiscoveryWithoutVIP(seen) == DiscoveryWithoutVIP(MergeDiscovery(base, updated))
    ensures DiscoveryWithoutVIP(MergeDiscovery(seen, updated)) == DiscoveryWithoutVIP(seen)
  {
  }

  lemma SameSpecSameHash(a: Service, b: Service)
    requires a.spec == b.spec && DiscoveryWithoutVIP(a.discovery) == DiscoveryWithoutVIP(b.discovery)
    ensures SameHash(a, b)
  {
  }

  lemma ReapplyMovesNoCounter(first: Service, payload: Service, seen: Service)
    requires HoldsPayload(first, payload) && SameButObserved(first, seen) && Carry(seen, payload).Some?
    ensures var again := Carry(seen, payload).value;
            Generation(again) == Generation(first) && TemplateGeneration(again) == TemplateGeneration(first)
  {
    hide Template, Desired, DiscoveryWithoutVIP, MergeDiscovery;
    var base :| DiscoveryWithoutVIP(first.discovery) == DiscoveryWithoutVIP(MergeDiscovery(base, payload.discovery));
    MergeIsIdempotent(base, payload.discovery, seen.discovery);
    SameSpecSameHash(seen, Carry(seen, payload).value);
  }

  lemma ApplyHoldsPayload(s: ServiceSlot, payload: Service, stamp: OwnedBy, f: Fault)
    requires ApplyService(s, Some(payload), stamp, f).ok
    ensures var d := ApplyService(s, Some(payload), stamp, f); d.slot.live.Some? && HoldsPayload(d.slot.live.value, payload)
  {
    var n := ApplyService(s, Some(payload), stamp, f).slot.live.value;
    if s.live.Some? {
      assert n.discovery == MergeDiscovery(s.live.value.discovery, payload.discovery);
    } else {
      assert DiscoveryWithoutVIP(n.discovery) == DiscoveryWithoutVIP(MergeDiscovery(None, payload.discovery));
    }
    hide Template, SameHash;
  }

  /** Casting the same payload twice, whatever the control plane wrote in between, moves neither counter. */
  lemma CastingTwiceMovesNoCounter(s: ServiceSlot, payload: Service, stamp: OwnedBy, f: Fault, seen: Service, stamp': OwnedBy, f': Fault)
    requires ApplyService(s, Some(payload), stamp, f).ok
    requires var d := ApplyService(s, Some(payload), stamp, f); d.slot.live.Some? && SameButObserved(d.slot.live.value, seen)
    requires ApplyService(ServiceSlot(Some(seen), None), Some(payload), stamp', f').ok
    ensures var first := ApplyService(s, Some(payload), stamp, f).slot.live;
            var again := ApplyService(ServiceSlot(Some(seen), None), Some(payload), stamp', f').slot.live;
            first.Some? && again.Some?
            && Generation(again.value) == Generation(first.value) && TemplateGeneration(again.value) == TemplateGeneration(first.value)
  {
    ApplyHoldsPayload(s, payload, stamp, f);
    ApplyIsCarry(seen, Some(payload), stamp', f');
    var first := ApplyService(s, Some(payload), stamp, f).slot.live.value;
    hide ApplyService, Carry;
    assert HoldsPayload(first, WithOwner(payload, stamp'));
    ReapplyMovesNoCounter(first, WithOwner(payload, stamp'), seen);
  }
}
