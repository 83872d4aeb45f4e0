/** Revert outranks the failed cast, over whole casts: however often a service was applied and reverted,
    its template counter ends above everything the cast stamped if the cast changed its template, and
    where it was if the cast did not. */
module Outranking {
  import opened Common
  import opened Services
  import opened Resources
  import opened ServerState
  import opened Restoration
  import opened Execution
  import opened Counters
  import opened Rollback
  import opened Ownership

  /** The template counter of `live` tells whether its template is that of `before`. */
  predicate Tells(before: Service, live: Service) {
    if SameTemplate(before, live) then TemplateGeneration(live) == TemplateGeneration(before)
    else TemplateGeneration(live) > TemplateGeneration(before)
  }

  /** A slot that has only been applied to: it has the template of `before` or of the payload. */
  predicate OnlyApplied(before: Service, payload: Option<Service>, s: ServiceSlot) {
    && s.live.Some? && Seeded(s.live.value) && !Terminating(s.live.value) && Tells(before, s.live.value)
    && (SameTemplate(before, s.live.value) || (payload.Some? && Template(s.live.value.spec) == Template(payload.value.spec)))
    && (s.img.None? ==> SameTemplate(before, s.live.value))
    && (s.img.Some? ==> Rewindable(before, s.img.value))
  }

  /** A pre-image with the template of `before`, to which nothing was pruned. */
  predicate Rewindable(before: Service, img: PreImage) {
    img.existed && !img.pruned && img.service.Some? && Template(img.service.value.spec) == Template(before.spec)
  }

  lemma StartsApplied(before: Service, payload: Option<Service>)
    requires Seeded(before) && !Terminating(before)
    ensures OnlyApplied(before, payload, ServiceSlot(Some(before), None))
  {
  }

  lemma CarryTells(before: Service, stored: Service, rendered: Service)
    requires Seeded(stored) && Tells(before, stored) && Carry(stored, rendered).Some?
    requires SameTemplate(before, stored) || Template(stored.spec) == Template(rendered.spec)
    ensures Seeded(Carry(stored, rendered).value) && Tells(before, Carry(stored, rendered).value)
  {
    CarryFollows(stored, rendered);
    CarryKeeps(stored, rendered);
    hide Carry, Template;
  }

  lemma ApplyKeepsApplied(before: Service, payload: Option<Service>, s: ServiceSlot, stamp: OwnedBy, f: Fault)
    requires OnlyApplied(before, payload, s)
    ensures OnlyApplied(before, payload, ApplyService(s, payload, stamp, f).slot)
  {
    hide Carry, Template;
    if payload.Some? {
      var stored, rendered := s.live.value, WithOwner(payload.value, stamp);
      if Carry(stored, rendered).Some? {
        CarryTells(before, stored, rendered);
        CarryKeeps(stored, rendered);
      }
    }
  }

  lemma InterferenceKeepsApplied(before: Service, payload: Option<Service>, s: ServiceSlot, e: Interference)
    requires OnlyApplied(before, payload, s)
    ensures OnlyApplied(before, payload, s.(live := Interfere(s.live, e)))
  {
    hide Template;
  }

  lemma {:induction false} InterferenceAllKeepsApplied(before: Service, payload: Option<Service>, w: World, es: seq<Interference>, r: Ref)
    requires OnlyApplied(before, payload, ServiceAt(w, r))
    ensures OnlyApplied(before, payload, ServiceAt(InterfereAll(w, es), r))
    decreases |es|
  {
    hide OnlyApplied, Interfere;
    if es != [] {
      var e, u := es[|es| - 1], InterfereAll(w, es[..|es| - 1]);
      InterferenceAllKeepsApplied(before, payload, w, es[..|es| - 1], r);
      if e.ref == r { InterferenceKeepsApplied(before, payload, ServiceAt(u, r), e); }
    }
  }

  lemma {:induction false} RunKeepsApplied(before: Service, w: World, p: Payloads, all: seq<Change>, split: nat, verified: bool,
                                           oracle: nat -> Input, i: nat, r: Ref)
    requires i <= |all| && r.kind.Service? && Uniform(all, r, false) && OnlyApplied(before, Get(p.services, r), ServiceAt(w, r))
    ensures OnlyApplied(before, Get(p.services, r), ServiceAt(RunFrom(w, p, all, split, verified, oracle, i).world, r))
    decreases |all| - i
  {
    hide OnlyApplied, ApplyService, PruneService, ApplyDurable, PruneDurable, ServiceAt;
    if (i == split && !verified) || i == |all| { return; }
    var c, f, v := all[i], oracle(i).fault, InterfereAll(w, oracle(i).interference);
    InterferenceAllKeepsApplied(before, Get(p.services, r), w, oracle(i).interference, r);
    if c.ref == r {
      ApplyKeepsApplied(before, Get(p.services, r), ServiceAt(v, r), p.stamp, f);
      AppliedAt(v, p, r, f);
    } else {
      OtherSlotsStay(p, c, f, v, r);
    }
    var s := Exec(w, p, c, oracle(i));
    if s.ok { RunKeepsApplied(before, s.world, p, all, split, verified, oracle, i + 1, r); }
  }

  lemma AppliedAt(v: World, p: Payloads, r: Ref, f: Fault)
    requires r.kind.Service?
    ensures ServiceAt(Applied(v, p, r, f).world, r) == ApplyService(ServiceAt(v, r), Get(p.services, r), p.stamp, f).slot
  {
    hide ApplyService;
  }

  /** A slot in rollback: still as the run left it, or reverted. */
  predicate Unwinding(before: Service, stopped: Service, s: ServiceSlot, settled: bool) {
    && s.live.Some? && Seeded(s.live.value) && !Terminating(s.live.value)
    && (s.img.Some? ==> Rewindable(before, s.img.value))
    && (if settled then Outranks(before, stopped, s.live.value) && SameTemplate(before, s.live.value)
        else SameTemplate(stopped, s.live.value) && TemplateGeneration(s.live.value) == TemplateGeneration(stopped))
  }

  /** Rewinding `cur` to `p` moves the template counter exactly if the template moves. */
  lemma RewoundCounter(img: PreImage, p: Service, cur: Service)
    requires Seeded(cur) && Rewound(img, p, cur).Some?
    ensures var n := Rewound(img, p, cur).value;
            && Seeded(n) && Template(n.spec) == Template(p.spec) && (!Terminating(cur) ==> !Terminating(n))
            && (if Template(cur.spec) == Template(p.spec) then TemplateGeneration(n) == TemplateGeneration(cur)
                else TemplateGeneration(n) > TemplateGeneration(cur))
  {
    hide Template;
    RewoundKeeps(img, p, cur);
    CarryFollows(cur, p);
    hide Carry;
  }

  lemma RevertSettles(before: Service, stopped: Service, s: ServiceSlot, f: Fault, settled: bool)
    requires Tells(before, stopped) && Unwinding(before, stopped, s, settled) && s.img.Some? && RevertService(s, f).ok
    ensures Unwinding(before, stopped, RevertService(s, f).slot, true)
  {
    hide Template, Rewound;
    RevertIsRewind(s, f);
    RevertKeepsImage(s, f);
    RewoundCounter(s.img.value, s.img.value.service.value, s.live.value);
    hide RevertService, Seeded, Terminating;
  }

  lemma RevertKeepsImage(s: ServiceSlot, f: Fault)
    ensures RevertService(s, f).slot.img == s.img
  {
    hide Rewound, Recreated;
  }

  lemma {:induction false} InterferenceKeepsUnwinding(before: Service, stopped: Service, w: World, es: seq<Interference>, r: Ref, settled: bool)
    requires Unwinding(before, stopped, ServiceAt(w, r), settled)
    ensures Unwinding(before, stopped, ServiceAt(InterfereAll(w, es), r), settled)
    decreases |es|
  {
    hide Template;
    if es != [] { InterferenceKeepsUnwinding(before, stopped, w, es[..|es| - 1], r, settled); }
  }

  lemma {:induction false} RollbackOutranks(before: Service, stopped: Service, w: World, done: seq<Change>, oracle: nat -> Input, k: nat, r: Ref, settled: bool)
    requires r.kind.Service? && Tells(before, stopped) && r in w.pre && Unwinding(before, stopped, ServiceAt(w, r), settled)
    requires settled || Touches(done, r)
    requires forall i :: 0 <= i < |done| && done[i].action.Reference? ==> !IsManaged(done[i].ref.kind)
    ensures var b := RevertAll(w, done, oracle, k);
            b.errors == 0 ==> Unwinding(before, stopped, ServiceAt(b.world, r), true)
    decreases |done|
  {
    hide Unwinding, Tells, Reverted, RevertService, Touches;
    if done == [] {
      NothingTouched(r);
    } else {
      var c, rest := done[|done| - 1], done[..|done| - 1];
      TouchesSplit(done, r);
      if c.action.Reference? {
        RollbackOutranks(before, stopped, w, rest, oracle, k + 1, r, settled);
      } else {
        var f, v := oracle(k).fault, InterfereAll(w, oracle(k).interference);
        InterferenceKeepsUnwinding(before, stopped, w, oracle(k).interference, r, settled);
        InterferenceFrame(w, w, oracle(k).interference, r);
        var s := Reverted(v, c.ref, f);
        RevertedAt(v, c.ref, f, r);
        if s.ok {
          if c.ref == r { RevertSettles(before, stopped, ServiceAt(v, r), f, settled); }
          RollbackOutranks(before, stopped, s.world, rest, oracle, k + 1, r, settled || c.ref == r);
        }
      }
    }
  }

  lemma RevertedAt(v: World, c: Ref, f: Fault, r: Ref)
    requires r.kind.Service?
    ensures var s := Reverted(v, c, f);
            && s.world.pre == v.pre
            && ServiceAt(s.world, r) == (if c == r then RevertService(ServiceAt(v, r), f).slot else ServiceAt(v, r))
            && (c == r ==> s.ok == RevertService(ServiceAt(v, r), f).ok)
  {
    hide Rewound, Recreated, UpdatedDurable, CreatedDurable;
  }

  /** Main result: for every plan that applies service `r`, wherever the run stopped and whatever it met,
      once every revert has succeeded the service is there, with a template counter above the one it had
      when the run stopped if the cast had changed its template, and unchanged from before the cast if
      not. */
  lemma RolledBackCastOutranks(w: World, p: Payloads, all: seq<Change>, split: nat, verified: bool,
                               oracle: nat -> Input, revertOracle: nat -> Input, r: Ref)
    requires WellFormed(all, split) && w.pre == map[] && r.kind.Service? && Uniform(all, r, false)
    requires r in w.services && Seeded(w.services[r]) && !Terminating(w.services[r])
    ensures var run := RunFrom(w, p, all, split, verified, oracle, 0);
            var back := RevertAll(run.world, all[..run.count], revertOracle, 0);
            && r in run.world.services
            && (back.errors == 0 ==> r in back.world.services && Outranks(w.services[r], run.world.services[r], back.world.services[r]))
  {
    hide RunFrom, RevertAll, OnlyApplied, SlotInv, OnCourse, StillApplying, Unwinding, Tells, Outranks, SameTemplate, Seeded, Terminating, Touches;
    var before, run := w.services[r], RunFrom(w, p, all, split, verified, oracle, 0);
    var done := all[..run.count];
    StartsApplied(before, Get(p.services, r));
    assert ServiceAt(w, r) == ServiceSlot(Some(before), None);
    RunKeepsApplied(before, w, p, all, split, verified, oracle, 0, r);
    StartsClean(w, p, oracle, r);
    assert all[..0] == [];
    RunKeepsSlot(w, w, p, all, split, verified, oracle, 0, r);
    AppliedCanUnwind(before, Get(p.services, r), ServiceAt(run.world, r));
    var stopped := run.world.services[r];
    if r in run.world.pre {
      CapturedIsTouched(w, p, done, oracle, run.world, r);
      RollbackOutranks(before, stopped, run.world, done, revertOracle, 0, r, false);
      var back := RevertAll(run.world, done, revertOracle, 0);
      if back.errors == 0 { UnwoundOutranks(before, stopped, ServiceAt(back.world, r)); }
    } else {
      UntouchedUnwinds(before, stopped, run.world, done, revertOracle, 0, r);
    }
  }

  lemma CapturedIsTouched(before: World, p: Payloads, done: seq<Change>, oracle: nat -> Input, w: World, r: Ref)
    requires SlotInv(before, p, done, oracle, w, r) && r in w.pre
    ensures Touches(done, r)
  {
  }

  lemma UnwoundOutranks(before: Service, stopped: Service, s: ServiceSlot)
    requires Unwinding(before, stopped, s, true)
    ensures s.live.Some? && Outranks(before, stopped, s.live.value)
  {
  }

  lemma AppliedCanUnwind(before: Service, payload: Option<Service>, s: ServiceSlot)
    requires OnlyApplied(before, payload, s)
    ensures s.live.Some? && Tells(before, s.live.value) && Unwinding(before, s.live.value, s, false)
    ensures s.img.None? ==> SameTemplate(before, s.live.value)
  {
    hide Template;
  }

  /** Without a pre-image the rollback leaves the service alone. */
  lemma {:induction false} UntouchedUnwinds(before: Service, stopped: Service, w: World, done: seq<Change>, oracle: nat -> Input, k: nat, r: Ref)
    requires r.kind.Service? && r !in w.pre && Unwinding(before, stopped, ServiceAt(w, r), false)
    requires Tells(before, stopped) && SameTemplate(before, stopped)
    ensures var b := RevertAll(w, done, oracle, k); r in b.world.services && Outranks(before, stopped, b.world.services[r])
    decreases |done|
  {
    hide Template, Reverted, RevertService;
    if done != [] {
      var c, rest := done[|done| - 1], done[..|done| - 1];
      if c.action.Reference? {
        UntouchedUnwinds(before, stopped, w, rest, oracle, k + 1, r);
      } else {
        var f, v := oracle(k).fault, InterfereAll(w, oracle(k).interference);
        InterferenceKeepsUnwinding(before, stopped, w, oracle(k).interference, r, false);
        InterferenceFrame(w, w, oracle(k).interference, r);
        RevertedAt(v, c.ref, f, r);
        NoImageNoRevert(ServiceAt(v, r), f);
        UntouchedUnwinds(before, stopped, Reverted(v, c.ref, f).world, rest, oracle, k + 1, r);
      }
    }
  }

  lemma NoImageNoRevert(s: ServiceSlot, f: Fault)
    requires s.img.None?
    ensures RevertService(s, f).slot == s
  {
  }
}
