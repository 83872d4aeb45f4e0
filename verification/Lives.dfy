/** Every cast, rollback and uninstall, seen from one service, is a sequence of the operations whose
    counters `Counters` accounts for.  The sequence is a function of the deed. */
module Lives {
  import opened Common
  import opened Services
  import opened Resources
  import opened ServerState
  import opened Restoration
  import opened Execution
  import opened Counters
  import opened Rollback
  import opened Planning
  import opened Reconcile
  import opened CastSafety
  import opened Ownership
  import opened Uninstalling
  import opened Histories

  /** What happens to service `r`, operation by operation */

  function InterfereOps(es: seq<Interference>, r: Ref): seq<Op>
    decreases |es|
  {
    if es == [] then []
    else
      var e, init := es[|es| - 1], InterfereOps(es[..|es| - 1], r);
      if e.ref == r then init + [InterfereOp(e)] else init
  }

  function ChangeOps(p: Payloads, c: Change, f: Fault, r: Ref): seq<Op> {
    if c.ref != r then [] else if c.action.Prune? then [PruneOp(f)] else [ApplyOp(Get(p.services, r), p.stamp, f)]
  }

  function RunOps(w: World, p: Payloads, all: seq<Change>, split: nat, verified: bool, oracle: nat -> Input, i: nat, r: Ref): seq<Op>
    requires i <= |all|
    decreases |all| - i
  {
    if (i == split && !verified) || i == |all| then []
    else
      var s := Exec(w, p, all[i], oracle(i));
      InterfereOps(oracle(i).interference, r) + ChangeOps(p, all[i], oracle(i).fault, r)
      + (if s.ok then RunOps(s.world, p, all, split, verified, oracle, i + 1, r) else [])
  }

  function RevertOps(done: seq<Change>, oracle: nat -> Input, k: nat, r: Ref): seq<Op>
    decreases |done|
  {
    if done == [] then []
    else
      var c, rest := done[|done| - 1], RevertOps(done[..|done| - 1], oracle, k + 1, r);
      if c.action.Reference? then rest
      else InterfereOps(oracle(k).interference, r) + (if c.ref == r then [RevertOp(oracle(k).fault)] else []) + rest
  }

  /** Where the run of a cast stops, before any rollback. */
  function RunOf(s: Cluster, spec: CastSpec, p: Payloads, live: LiveLookup, fate: Fate): Run {
    var plan := PlanFor(s.records, spec, live);
    RunFrom(s.world.(pre := map[]), p, AppliesOf(plan) + PrunesOf(plan), |AppliesOf(plan)|, fate.verified, fate.oracle, 0)
  }

  function CastOps(s: Cluster, spec: CastSpec, p: Payloads, live: LiveLookup, fate: Fate, r: Ref): seq<Op> {
    var outcome, plan := Cast(s.world, s.records, spec, p, live, fate).outcome, PlanFor(s.records, spec, live);
    var all, start, run := AppliesOf(plan) + PrunesOf(plan), s.world.(pre := map[]), RunOf(s, spec, p, live, fate);
    if outcome.NotStarted? then []
    else
      [BeginCast] + RunOps(start, p, all, |AppliesOf(plan)|, fate.verified, fate.oracle, 0, r)
      + (if outcome.IsDeployed? || outcome.LeftFailed? then [] else RevertOps(all[..run.count], fate.revertOracle, 0, r))
  }

  function DeedOps(s: Cluster, d: Deed, r: Ref): seq<Op> {
    match d
    case DoCast(spec, p, live, fate) => CastOps(s, spec, p, live, fate, r)
    case DoUninstall(id, keepVolumes, _, admitted, _, _, oracle) =>
      if id !in s.records || !admitted then []
      else
        var cs := Removals(DeletionOrder(s.records[id].owns), keepVolumes);
        [BeginCast] + RunOps(s.world.(pre := map[]), NoPayloads(id.name), cs, 0, true, oracle, 0, r)
    case Wait(es) => InterfereOps(es, r)
  }

  /** Composing operations */

  lemma {:induction false} DoAllConcat(l: Life, a: seq<Op>, b: seq<Op>)
    ensures DoAll(l, a + b) == DoAll(DoAll(l, a), b)
    ensures AllAllowed(l, a + b) <==> AllAllowed(l, a) && AllAllowed(DoAll(l, a), b)
    decreases |a|
  {
    hide Do, Allowed;
    if a == [] {
      assert a + b == b;
    } else {
      assert (a + b)[0] == a[0] && (a + b)[1..] == a[1..] + b;
      DoAllConcat(Do(l, a[0]), a[1..], b);
    }
  }

  /** The slot an operation leaves. */
  function After(slot: ServiceSlot, op: Op): ServiceSlot {
    match op
    case BeginCast => slot.(img := None)
    case ApplyOp(payload, stamp, f) => ApplyService(slot, payload, stamp, f).slot
    case PruneOp(f) => PruneService(slot, f).slot
    case RevertOp(f) => RevertService(slot, f).slot
    case InterfereOp(e) => slot.(live := Interfere(slot.live, e))
  }

  /** Allowed operations that lead from `l` to `slot`, and if `steady` without beginning a new life. */
  predicate LeadTo(l: Life, ops: seq<Op>, slot: ServiceSlot, steady: bool) {
    AllAllowed(l, ops) && DoAll(l, ops).slot == slot && (steady ==> l.records <= DoAll(l, ops).records)
  }

  lemma OneOp(l: Life, op: Op, steady: bool)
    requires Allowed(l, op) && (steady ==> !op.ApplyOp? || l.slot.live.Some?)
    ensures LeadTo(l, [op], After(l.slot, op), steady)
    ensures DoAll(l, [op]).reverting == ((l.reverting || op.RevertOp?) && !op.BeginCast?)
  {
    hide ApplyService, PruneService, RevertService, Interfere;
    var m := Do(l, op);
    assert [op][1..] == [] && DoAll(m, []) == m && AllAllowed(m, []);
    assert DoAll(l, [op]) == m && AllAllowed(l, [op]);
    assert m.slot == After(l.slot, op);
    assert steady ==> l.records <= m.records;
  }

  lemma NoOps(l: Life, steady: bool)
    ensures LeadTo(l, [], l.slot, steady) && DoAll(l, []) == l
  {
  }

  lemma Compose(l: Life, a: seq<Op>, mid: ServiceSlot, b: seq<Op>, slot: ServiceSlot, steady: bool)
    requires LeadTo(l, a, mid, steady) && LeadTo(DoAll(l, a), b, slot, steady)
    ensures LeadTo(l, a + b, slot, steady) && DoAll(l, a + b) == DoAll(DoAll(l, a), b)
  {
    hide AllAllowed, DoAll;
    DoAllConcat(l, a, b);
  }

  /** Projections */

  lemma {:induction false} InterferenceProjects(l: Life, w: World, es: seq<Interference>, r: Ref)
    requires l.slot == ServiceAt(w, r)
    ensures LeadTo(l, InterfereOps(es, r), ServiceAt(InterfereAll(w, es), r), true)
    ensures DoAll(l, InterfereOps(es, r)).reverting == l.reverting
    decreases |es|
  {
    hide LeadTo, Interfere;
    if es == [] {
      NoOps(l, true);
    } else {
      var e, init := es[|es| - 1], es[..|es| - 1];
      InterferenceProjects(l, w, init, r);
      var ops, u := InterfereOps(init, r), InterfereAll(w, init);
      if e.ref == r {
        LedTo(l, ops, ServiceAt(u, r), true);
        OneOp(DoAll(l, ops), InterfereOp(e), true);
        Compose(l, ops, ServiceAt(u, r), [InterfereOp(e)], ServiceAt(InterfereAll(w, es), r), true);
      }
    }
  }

  lemma LedTo(l: Life, ops: seq<Op>, slot: ServiceSlot, steady: bool)
    requires LeadTo(l, ops, slot, steady)
    ensures DoAll(l, ops).slot == slot
  {
  }

  lemma Weaken(l: Life, ops: seq<Op>, slot: ServiceSlot, steady: bool)
    requires LeadTo(l, ops, slot, true)
    ensures LeadTo(l, ops, slot, steady)
  {
  }

  /** Services are only misread by prunes. */
  lemma NotBlindWhileApplying(before: World, p: Payloads, done: seq<Change>, oracle: nat -> Input, v: World, r: Ref)
    requires SlotInv(before, p, done, oracle, v, r) && StillApplying(before, p, done, oracle, v, r)
    ensures Truthful(before, v, r) && Applying(v, r)
  {
    hide Truthful, Applying;
  }

  /** In the apply phase a captured service is still there, and so is one that was live before. */
  lemma ApplyIsAllowed(before: World, w: World, l: Life, r: Ref, payload: Option<Service>, stamp: OwnedBy, f: Fault)
    requires r.kind.Service? && Truthful(before, w, r) && Applying(w, r) && l.slot == ServiceAt(w, r) && !l.reverting
    ensures Allowed(l, ApplyOp(payload, stamp, f)) && (WasLive(before, r) ==> l.slot.live.Some?)
  {
  }

  lemma ChangeProjects(before: World, l: Life, v: World, p: Payloads, done: seq<Change>, c: Change, oracle: nat -> Input, r: Ref)
    requires r.kind.Service? && SlotInv(before, p, done, oracle, v, r)
    requires !c.action.Prune? ==> StillApplying(before, p, done, oracle, v, r)
    requires l.slot == ServiceAt(v, r) && !l.reverting
    ensures var f := oracle(|done|).fault;
            && LeadTo(l, ChangeOps(p, c, f, r), ServiceAt(Executed(v, p, c, f).world, r), WasLive(before, r))
            && !DoAll(l, ChangeOps(p, c, f, r)).reverting
  {
    hide LeadTo, SlotInv, StillApplying, WasLive, ApplyService, PruneService;
    var f := oracle(|done|).fault;
    if c.ref != r {
      NoOps(l, WasLive(before, r));
      OtherSlotsStay(p, c, f, v, r);
    } else if c.action.Prune? {
      OneOp(l, PruneOp(f), WasLive(before, r));
    } else {
      NotBlindWhileApplying(before, p, done, oracle, v, r);
      ApplyIsAllowed(before, v, l, r, Get(p.services, r), p.stamp, f);
      OneOp(l, ApplyOp(Get(p.services, r), p.stamp, f), WasLive(before, r));
    }
  }

  /** Every run is, for service `r`, the operations `RunOps`; they begin no new life for a service that
      was live before the run. */
  lemma {:induction false} RunProjects(before: World, l: Life, w: World, p: Payloads, all: seq<Change>, split: nat,
                                       verified: bool, oracle: nat -> Input, i: nat, r: Ref)
    requires i <= |all| && WellFormed(all, split) && r.kind.Service?
    requires SlotInv(before, p, all[..i], oracle, w, r) && OnCourse(before, p, all[..i], oracle, w, r)
    requires i <= split ==> StillApplying(before, p, all[..i], oracle, w, r)
    requires l.slot == ServiceAt(w, r) && !l.reverting
    ensures LeadTo(l, RunOps(w, p, all, split, verified, oracle, i, r),
                   ServiceAt(RunFrom(w, p, all, split, verified, oracle, i).world, r), WasLive(before, r))
    decreases |all| - i
  {
    hide LeadTo, SlotInv, OnCourse, StillApplying, WasLive, DoAll, ChangeOps, InterfereOps, Applied, Pruned, ServiceAt;
    var steady := WasLive(before, r);
    if (i == split && !verified) || i == |all| {
      NoOps(l, steady);
    } else {
      var c, f, es := all[i], oracle(i).fault, oracle(i).interference;
      var v, s := InterfereAll(w, es), Exec(w, p, c, oracle(i));
      assert s == Executed(v, p, c, f) && |all[..i]| == i && all[..i + 1] == all[..i] + [c];
      InterferenceKeepsSlot(before, p, all[..i], oracle, w, es, r);
      InterferenceProjects(l, w, es, r);
      var a, b := InterfereOps(es, r), ChangeOps(p, c, f, r);
      Weaken(l, a, ServiceAt(v, r), steady);
      LedTo(l, a, ServiceAt(v, r), steady);
      ChangeProjects(before, DoAll(l, a), v, p, all[..i], c, oracle, r);
      Compose(l, a, ServiceAt(v, r), b, ServiceAt(s.world, r), steady);
      LedTo(l, a + b, ServiceAt(s.world, r), steady);
      if r == c.ref { ExecKeepsOwnSlot(before, p, all[..i], c, oracle, v); } else { ExecKeepsOtherSlots(before, p, all[..i], c, oracle, v, r); }
      if s.ok {
        RunProjects(before, DoAll(l, a + b), s.world, p, all, split, verified, oracle, i + 1, r);
        Compose(l, a + b, ServiceAt(s.world, r), RunOps(s.world, p, all, split, verified, oracle, i + 1, r),
                ServiceAt(RunFrom(w, p, all, split, verified, oracle, i).world, r), steady);
      } else {
        assert a + b + [] == a + b;
      }
    }
  }

  /** A recreation from the pre-image of `r` can outrank what the cast applied. */
  predicate Headroom(w: World, r: Ref) {
    r in w.pre && w.pre[r].service.Some? && w.pre[r].pruned ==> CanOutrank(w.pre[r], w.pre[r].service.value)
  }

  /** A cast either applies a resource or prunes it, never both. */
  predicate OneSided(w: World, r: Ref, prune: bool) {
    r in w.pre ==> if prune then w.pre[r].appliedTemplateGeneration == 0 else !w.pre[r].pruned
  }

  lemma ExecIsOneSided(w: World, p: Payloads, c: Change, i: Input, r: Ref, prune: bool)
    requires r.kind.Service? && OneSided(w, r, prune) && (c.ref == r ==> c.action.Prune? == prune)
    ensures OneSided(Exec(w, p, c, i).world, r, prune)
  {
    InterferenceFrame(w, w, i.interference, r);
    hide Carry, Seed, Sanitize, Tombstone, InterfereAll, UpdatedDurable, CreatedDurable;
  }

  lemma {:induction false} RunIsOneSided(w: World, p: Payloads, all: seq<Change>, split: nat, verified: bool, oracle: nat -> Input, i: nat,
                                         r: Ref, prune: bool)
    requires i <= |all| && r.kind.Service? && OneSided(w, r, prune) && Uniform(all, r, prune)
    ensures OneSided(RunFrom(w, p, all, split, verified, oracle, i).world, r, prune)
    decreases |all| - i
  {
    hide OneSided, Exec;
    if i < |all| && !(i == split && !verified) {
      var s := Exec(w, p, all[i], oracle(i));
      ExecIsOneSided(w, p, all[i], oracle(i), r, prune);
      if s.ok { RunIsOneSided(s.world, p, all, split, verified, oracle, i + 1, r, prune); }
    }
  }

  /** So no run of a cast, not even one that reaches the int64 limit, leaves its rollback without headroom. */
  lemma RunsLeaveHeadroom(s: Cluster, spec: CastSpec, p: Payloads, live: LiveLookup, fate: Fate, r: Ref)
    requires r.kind.Service?
    ensures Headroom(RunOf(s, spec, p, live, fate).world, r)
  {
    var plan, start := PlanFor(s.records, spec, live), s.world.(pre := map[]);
    ExecutionListTouches(plan, spec, Get(s.records, spec.id), live, r);
    assert OneSided(start, r, r !in spec.desired);
    hide AppliesOf, PrunesOf, PlanOf, RunFrom;
    RunIsOneSided(start, p, AppliesOf(plan) + PrunesOf(plan), |AppliesOf(plan)|, fate.verified, fate.oracle, 0, r, r !in spec.desired);
  }

  lemma RevertKeepsImages(w: World, c: Ref, f: Fault, r: Ref)
    requires r.kind.Service?
    ensures var s := Reverted(w, c, f);
            && s.world.pre == w.pre
            && ServiceAt(s.world, r) == (if c == r then RevertService(ServiceAt(w, r), f).slot else ServiceAt(w, r))
  {
    hide Rewound, Recreated, UpdatedDurable, CreatedDurable;
  }

  lemma RevertIsAllowed(l: Life, w: World, r: Ref, f: Fault)
    requires Headroom(w, r) && l.slot == ServiceAt(w, r)
    ensures Allowed(l, RevertOp(f))
  {
  }

  /** Every rollback is, for service `r`, the operations `RevertOps`; they never begin a new life. */
  lemma {:induction false} RevertProjects(l: Life, w: World, done: seq<Change>, oracle: nat -> Input, k: nat, r: Ref)
    requires r.kind.Service? && Headroom(w, r) && l.slot == ServiceAt(w, r)
    ensures LeadTo(l, RevertOps(done, oracle, k, r), ServiceAt(RevertAll(w, done, oracle, k).world, r), true)
    decreases |done|
  {
    hide LeadTo, DoAll, InterfereOps, Reverted, ServiceAt, RevertService, Allowed;
    if done == [] {
      NoOps(l, true);
    } else {
      var c, rest := done[|done| - 1], done[..|done| - 1];
      if c.action.Reference? {
        RevertProjects(l, w, rest, oracle, k + 1, r);
      } else {
        var f, es := oracle(k).fault, oracle(k).interference;
        var v := InterfereAll(w, es);
        InterferenceFrame(w, w, es, r);
        InterferenceProjects(l, w, es, r);
        var a := InterfereOps(es, r);
        LedTo(l, a, ServiceAt(v, r), true);
        RevertKeepsImages(v, c.ref, f, r);
        var s := Reverted(v, c.ref, f);
        var b := if c.ref == r then [RevertOp(f)] else [];
        if c.ref == r {
          RevertIsAllowed(DoAll(l, a), v, r, f);
          OneOp(DoAll(l, a), RevertOp(f), true);
        } else {
          NoOps(DoAll(l, a), true);
        }
        Compose(l, a, ServiceAt(v, r), b, ServiceAt(s.world, r), true);
        LedTo(l, a + b, ServiceAt(s.world, r), true);
        RevertProjects(DoAll(l, a + b), s.world, rest, oracle, k + 1, r);
        Compose(l, a + b, ServiceAt(s.world, r), RevertOps(rest, oracle, k + 1, r), ServiceAt(RevertAll(w, done, oracle, k).world, r), true);
      }
    }
  }

  /** Deeds */

  /** `r` is there and not being torn down. */
  predicate Standing(s: Cluster, r: Ref) { r in s.world.services && !Terminating(s.world.services[r]) }

  lemma FreshRunProjects(l: Life, w: World, p: Payloads, all: seq<Change>, split: nat, verified: bool, oracle: nat -> Input, r: Ref)
    requires r.kind.Service? && WellFormed(all, split) && l.slot.live == Get(w.services, r)
    ensures var start := w.(pre := map[]);
            LeadTo(l, [BeginCast] + RunOps(start, p, all, split, verified, oracle, 0, r),
                   ServiceAt(RunFrom(start, p, all, split, verified, oracle, 0).world, r), WasLive(start, r))
  {
    hide RunFrom, RunOps, LeadTo, SlotInv, OnCourse, StillApplying, WasLive, DoAll;
    var start, steady := w.(pre := map[]), WasLive(w.(pre := map[]), r);
    OneOp(l, BeginCast, steady);
    LedTo(l, [BeginCast], ServiceAt(start, r), steady);
    StartsClean(start, p, oracle, r);
    assert all[..0] == [];
    RunProjects(start, DoAll(l, [BeginCast]), start, p, all, split, verified, oracle, 0, r);
    Compose(l, [BeginCast], ServiceAt(start, r), RunOps(start, p, all, split, verified, oracle, 0, r),
            ServiceAt(RunFrom(start, p, all, split, verified, oracle, 0).world, r), steady);
  }

  lemma CastEndsInRunOrRollback(s: Cluster, spec: CastSpec, p: Payloads, live: LiveLookup, fate: Fate)
    ensures var c, run, plan := Cast(s.world, s.records, spec, p, live, fate), RunOf(s, spec, p, live, fate), PlanFor(s.records, spec, live);
            if c.outcome.NotStarted? then c.world == s.world
            else if c.outcome.IsDeployed? || c.outcome.LeftFailed? then c.world == run.world
            else c.world == RevertAll(run.world, (AppliesOf(plan) + PrunesOf(plan))[..run.count], fate.revertOracle, 0).world
                 && (c.outcome.RolledBack? || c.outcome.RollbackIncomplete?)
  {
    PreparedFromPlan(s.records, spec, live, fate.admitted, fate.pendingSaved);
    hide Prepare, RunFrom, RevertAll, TraceFrom, AppliesOf, PrunesOf, PlanOf;
  }

  /** What a deed does to service `r` is the operations `DeedOps`. */
  predicate DeedLeads(l: Life, s: Cluster, d: Deed, r: Ref) {
    var m := DoAll(l, DeedOps(s, d, r));
    && AllAllowed(l, DeedOps(s, d, r)) && m.slot.live == Get(Perform(s, d).world.services, r)
    && (Standing(s, r) ==> l.records <= m.records)
  }

  lemma LeadsDeed(l: Life, s: Cluster, d: Deed, r: Ref, slot: ServiceSlot)
    requires LeadTo(l, DeedOps(s, d, r), slot, Standing(s, r)) && slot.live == Get(Perform(s, d).world.services, r)
    ensures DeedLeads(l, s, d, r)
  {
    hide DeedOps, Perform, AllAllowed, DoAll;
  }

  lemma CastProjects(l: Life, s: Cluster, d: Deed, r: Ref)
    requires r.kind.Service? && d.DoCast? && l.slot.live == Get(s.world.services, r)
    ensures DeedLeads(l, s, d, r)
  {
    CastEndsInRunOrRollback(s, d.spec, d.payloads, d.live, d.fate);
    var plan, start, run := PlanFor(s.records, d.spec, d.live), s.world.(pre := map[]), RunOf(s, d.spec, d.payloads, d.live, d.fate);
    ExecutionListIsWellFormed(plan, d.spec, Get(s.records, d.spec.id), d.live);
    assert WasLive(start, r) == Standing(s, r);
    hide Cast, RunFrom, RevertAll, Headroom, AppliesOf, PrunesOf, PlanOf, LeadTo, RunOps, RevertOps, DeedLeads, DoAll, WasLive, Standing, ServiceAt;
    var c, all, split := Cast(s.world, s.records, d.spec, d.payloads, d.live, d.fate), AppliesOf(plan) + PrunesOf(plan), |AppliesOf(plan)|;
    var steady := Standing(s, r);
    if c.outcome.NotStarted? {
      NoOps(l, steady);
      LeadsDeed(l, s, d, r, l.slot);
    } else {
      var a := [BeginCast] + RunOps(start, d.payloads, all, split, d.fate.verified, d.fate.oracle, 0, r);
      FreshRunProjects(l, s.world, d.payloads, all, split, d.fate.verified, d.fate.oracle, r);
      LiveAt(run.world, r);
      if c.outcome.IsDeployed? || c.outcome.LeftFailed? {
        assert a + [] == a;
        LeadsDeed(l, s, d, r, ServiceAt(run.world, r));
      } else {
        var b, back := RevertOps(all[..run.count], d.fate.revertOracle, 0, r), RevertAll(run.world, all[..run.count], d.fate.revertOracle, 0);
        LedTo(l, a, ServiceAt(run.world, r), steady);
        RunsLeaveHeadroom(s, d.spec, d.payloads, d.live, d.fate, r);
        RevertProjects(DoAll(l, a), run.world, all[..run.count], d.fate.revertOracle, 0, r);
        Weaken(DoAll(l, a), b, ServiceAt(back.world, r), steady);
        Compose(l, a, ServiceAt(run.world, r), b, ServiceAt(back.world, r), steady);
        LiveAt(back.world, r);
        LeadsDeed(l, s, d, r, ServiceAt(back.world, r));
      }
    }
  }

  lemma LiveAt(w: World, r: Ref)
    ensures ServiceAt(w, r).live == Get(w.services, r)
  {
  }

  lemma UninstallProjects(l: Life, s: Cluster, d: Deed, r: Ref)
    requires r.kind.Service? && d.DoUninstall? && l.slot.live == Get(s.world.services, r)
    ensures DeedLeads(l, s, d, r)
  {
    var start := s.world.(pre := map[]);
    assert WasLive(start, r) == Standing(s, r);
    hide RunFrom, RunOps, LeadTo, DeedLeads, DoAll, DeletionOrder;
    if d.id !in s.records || !d.admitted {
      NoOps(l, Standing(s, r));
      LeadsDeed(l, s, d, r, l.slot);
    } else {
      var cs := Removals(DeletionOrder(s.records[d.id].owns), d.keepVolumes);
      FreshRunProjects(l, s.world, NoPayloads(d.id.name), cs, 0, true, d.oracle, r);
      LeadsDeed(l, s, d, r, ServiceAt(RunFrom(start, NoPayloads(d.id.name), cs, 0, true, d.oracle, 0).world, r));
    }
  }

  lemma WaitProjects(l: Life, s: Cluster, d: Deed, r: Ref)
    requires r.kind.Service? && d.Wait? && l.slot.live == Get(s.world.services, r)
    ensures DeedLeads(l, s, d, r)
  {
    hide LeadTo, DeedLeads, DoAll;
    var es := d.interference;
    var w := s.world.(pre := Put(s.world.pre, r, l.slot.img));
    InterferenceProjects(l, w, es, r);
    InterferenceIgnoresImages(s.world, w, es);
    Weaken(l, InterfereOps(es, r), ServiceAt(InterfereAll(w, es), r), Standing(s, r));
    LeadsDeed(l, s, d, r, ServiceAt(InterfereAll(w, es), r));
  }

  lemma {:induction false} InterferenceIgnoresImages(a: World, b: World, es: seq<Interference>)
    requires a.services == b.services
    ensures InterfereAll(a, es).services == InterfereAll(b, es).services
    decreases |es|
  {
    if es != [] { InterferenceIgnoresImages(a, b, es[..|es| - 1]); }
  }

  lemma DeedProjects(l: Life, s: Cluster, d: Deed, r: Ref)
    requires r.kind.Service? && l.slot.live == Get(s.world.services, r)
    ensures DeedLeads(l, s, d, r)
  {
    hide DeedLeads;
    match d
    case DoCast(_, _, _, _) => CastProjects(l, s, d, r);
    case DoUninstall(_, _, _, _, _, _, _) => UninstallProjects(l, s, d, r);
    case Wait(_) => WaitProjects(l, s, d, r);
  }

  /** Between two moments the counters of `r` have not gone back, and an equal template counter means an
      equal template, if `r` was standing at the first and is there at the second. */
  predicate NotBack(s: Cluster, t: Cluster, r: Ref) {
    Standing(s, r) && r in t.world.services ==> Seeded(t.world.services[r]) && Follows(s.world.services[r], t.world.services[r])
  }

  /** `l` is a faithful account of service `r` in `s`. */
  ghost predicate Accounts(l: Life, s: Cluster, r: Ref) {
    LifeInv(l) && Ordered(l.records) && l.slot.live == Get(s.world.services, r)
  }

  lemma DeedIsAccountedFor(l: Life, s: Cluster, d: Deed, r: Ref)
    requires r.kind.Service? && Accounts(l, s, r)
    ensures Accounts(DoAll(l, DeedOps(s, d, r)), Perform(s, d), r)
    ensures NotBack(s, Perform(s, d), r)
  {
    hide Perform, DeedOps;
    DeedProjects(l, s, d, r);
    hide LifeInv, Ordered, DoAll, AllAllowed;
    CountersAreFaithful(l, DeedOps(s, d, r));
    AccountsCompare(l, DoAll(l, DeedOps(s, d, r)), s, Perform(s, d), r);
  }

  lemma AccountsCompare(l: Life, m: Life, s: Cluster, t: Cluster, r: Ref)
    requires Accounts(l, s, r) && Accounts(m, t, r) && (Standing(s, r) ==> l.records <= m.records)
    ensures NotBack(s, t, r)
  {
    hide Template;
  }

  lemma PerformLast(s: Cluster, ds: seq<Deed>)
    requires ds != []
    ensures PerformAll(s, ds) == Perform(PerformAll(s, ds[..|ds| - 1]), ds[|ds| - 1])
  {
  }

  /** Deed `i` of the history, as `lives` accounts for it. */
  ghost predicate Links(lives: seq<Life>, s: Cluster, ds: seq<Deed>, r: Ref, i: nat)
    requires |lives| == |ds| + 1 && i < |ds|
  {
    && lives[i + 1] == DoAll(lives[i], DeedOps(PerformAll(s, ds[..i]), ds[i], r))
    && NotBack(PerformAll(s, ds[..i]), PerformAll(s, ds[..i + 1]), r)
  }

  /** Main result.  Through every history of casts (deployed, failed, rolled back fully or in part),
      uninstalls and control-plane writes, over any faults: at every moment the records of the service's
      present life, which are those that its operations `DeedOps` wrote, keep
      1 <= TemplateGeneration <= Generation, neither counter ever goes back, and equal template counters
      mean equal templates; and no deed takes back the counters of a service that was standing. */
  lemma {:induction false} CountersOverHistories(l: Life, s: Cluster, ds: seq<Deed>, r: Ref) returns (lives: seq<Life>)
    requires r.kind.Service? && LifeInv(l) && l.slot.live == Get(s.world.services, r)
    ensures |lives| == |ds| + 1 && lives[0] == l
    ensures forall i :: 0 <= i <= |ds| ==> Accounts(lives[i], PerformAll(s, ds[..i]), r)
    ensures forall i :: 0 <= i < |ds| ==> Links(lives, s, ds, r, i)
  {
    hide Perform, PerformAll, DeedOps, DoAll, NotBack, Accounts;
    if ds == [] {
      lives := [l];
      BeginsAccount(l, s, r);
    } else {
      var n := |ds| - 1;
      var init := ds[..n];
      assert forall i :: 0 <= i <= n ==> init[..i] == ds[..i];
      var ls := CountersOverHistories(l, s, init, r);
      var m, t := ls[n], PerformAll(s, init);
      assert init[..n] == init && ds[..n + 1] == ds;
      DeedIsAccountedFor(m, t, ds[n], r);
      PerformLast(s, ds);
      lives := ls + [DoAll(m, DeedOps(t, ds[n], r))];
      forall i | 0 <= i < |ds| ensures Links(lives, s, ds, r, i) {
        if i < n { assert Links(ls, s, init, r, i) && init[..i + 1] == ds[..i + 1]; }
      }
    }
  }

  lemma BeginsAccount(l: Life, s: Cluster, r: Ref)
    requires LifeInv(l) && l.slot.live == Get(s.world.services, r)
    ensures Accounts(l, PerformAll(s, []), r)
  {
    LifeIsOrdered(l);
  }
}
