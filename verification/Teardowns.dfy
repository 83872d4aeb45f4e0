/** Deletes by an operator in the middle of a cast: for every interleaving, exactly which teardowns the
    rollback of the cast lifts. */
module Teardowns {
  import opened Common
  import opened Services
  import opened Resources
  import opened ServerState
  import opened Restoration
  import opened Execution
  import opened Counters
  import opened Planning
  import opened Reconcile
  import opened CastSafety
  import opened Histories
  import opened Lives

  /** What happens to one service around a cast. */
  datatype Event = CastDoes(op: Op) | OperatorDeletes

  function Next(s: ServiceSlot, e: Event): ServiceSlot {
    match e
    case CastDoes(op) => After(s, op)
    case OperatorDeletes => s.(live := if s.live.Some? then Some(Tombstone(s.live.value)) else None)
  }

  function AfterAll(s: ServiceSlot, es: seq<Event>): ServiceSlot {
    if es == [] then s else Next(AfterAll(s, es[..|es| - 1]), es[|es| - 1])
  }

  /** Before the rollback a cast applies and prunes; in the rollback it reverts. */
  predicate InRun(e: Event) { e.OperatorDeletes? || e.op.ApplyOp? || e.op.PruneOp? || e.op.InterfereOp? }
  predicate InRollback(e: Event) { e.OperatorDeletes? || e.op.RevertOp? || e.op.InterfereOp? }

  predicate Up(live: Option<Service>) { live.Some? && !Terminating(live.value) }

  /** The pre-image says that the service existed and that the teardown is this cast's own. */
  predicate MayLift(s: ServiceSlot) { s.img.Some? && s.img.value.existed && s.img.value.pruned }

  predicate ImageIsWhole(s: ServiceSlot) { s.img.Some? ==> s.img.value.existed == s.img.value.service.Some? }

  /** The rollback */

  /** Neither a teardown nor the lack of one is touched by what the control plane writes. */
  lemma InterfereKeepsUp(live: Option<Service>, e: Interference)
    ensures Up(Interfere(live, e)) <==> Up(live)
  {
  }

  lemma RevertLiftsIff(s: ServiceSlot, f: Fault)
    requires ImageIsWhole(s)
    ensures var d := RevertService(s, f);
            && d.slot.img == s.img
            && (MayLift(s) ==> (Up(d.slot.live) <==> d.ok || Up(s.live)))
            && (!MayLift(s) && !Up(s.live) ==> !Up(d.slot.live))
  {
    hide Rewound, Recreated, Terminating;
    if s.live.Some? { TombstoneIsDown(s.live.value); }
    hide Tombstone;
    if s.img.Some? && s.img.value.service.Some? {
      var img, p := s.img.value, s.img.value.service.value;
      if s.live.Some? { RewoundLifts(img, p, s.live.value); }
      RecreatedIsLive(img, p);
    }
  }

  /** Of the operator's deletes and the successful reverts, the last is a revert. */
  ghost predicate RevertedLast(s: ServiceSlot, es: seq<Event>) {
    if es == [] then false
    else
      var init, e := es[..|es| - 1], es[|es| - 1];
      if e.OperatorDeletes? then false
      else (e.op.RevertOp? && RevertService(AfterAll(s, init), e.op.fault).ok) || RevertedLast(s, init)
  }

  lemma {:induction false} RollbackLiftsIff(s: ServiceSlot, es: seq<Event>)
    requires ImageIsWhole(s) && !Up(s.live) && forall i :: 0 <= i < |es| ==> InRollback(es[i])
    ensures AfterAll(s, es).img == s.img
    ensures Up(AfterAll(s, es).live) <==> MayLift(s) && RevertedLast(s, es)
  {
    if es != [] {
      var init, e := es[..|es| - 1], es[|es| - 1];
      assert InRollback(e) && forall i :: 0 <= i < |init| ==> InRollback(init[i]) by { assert forall i :: 0 <= i < |init| ==> init[i] == es[i]; }
      RollbackLiftsIff(s, init);
      var m := AfterAll(s, init);
      hide RevertService, Interfere;
      if e.CastDoes? && e.op.RevertOp? { RevertLiftsIff(m, e.op.fault); }
      if e.CastDoes? && e.op.InterfereOp? { InterfereKeepsUp(m.live, e.op.e); }
    }
  }

  /** The run before it */

  /** A prune that takes effect on a service which, when the cast first touched it, existed and was not
      going away. */
  predicate OwnPrune(s: ServiceSlot, e: Event) {
    e.CastDoes? && e.op.PruneOp? && PruneService(s, e.op.fault).ok
    && (var img := SnapshotService(s, e.op.fault).img.value; img.existed && img.service.Some? && !Terminating(img.service.value))
  }

  predicate PrunedItself(s: ServiceSlot, es: seq<Event>) {
    es != [] && (PrunedItself(s, es[..|es| - 1]) || OwnPrune(AfterAll(s, es[..|es| - 1]), es[|es| - 1]))
  }

  lemma RunStepMayLiftIff(s: ServiceSlot, e: Event)
    requires ImageIsWhole(s) && InRun(e)
    ensures ImageIsWhole(Next(s, e)) && (MayLift(Next(s, e)) <==> MayLift(s) || OwnPrune(s, e))
  {
    hide Carry, Seed, Sanitize, Tombstone;
  }

  lemma {:induction false} RunMayLiftIff(s: ServiceSlot, es: seq<Event>)
    requires s.img.None? && forall i :: 0 <= i < |es| ==> InRun(es[i])
    ensures ImageIsWhole(AfterAll(s, es)) && (MayLift(AfterAll(s, es)) <==> PrunedItself(s, es))
  {
    hide Next, OwnPrune;
    if es != [] {
      var init := es[..|es| - 1];
      assert forall i :: 0 <= i < |init| ==> init[i] == es[i];
      RunMayLiftIff(s, init);
      RunStepMayLiftIff(AfterAll(s, init), es[|es| - 1]);
    }
  }

  /** Main result: let a service be gone or going away when the rollback begins, whoever asked for that.  It
      stands afterwards if and only if this cast pruned it itself, having found it standing, and its last
      successful revert came after the operator's last delete. */
  lemma TeardownIsLiftedIff(s: ServiceSlot, run: seq<Event>, rollback: seq<Event>)
    requires s.img.None? && !Up(AfterAll(s, run).live)
    requires (forall i :: 0 <= i < |run| ==> InRun(run[i])) && (forall i :: 0 <= i < |rollback| ==> InRollback(rollback[i]))
    ensures var m := AfterAll(s, run);
            Up(AfterAll(m, rollback).live) <==> PrunedItself(s, run) && RevertedLast(m, rollback)
  {
    hide InRun, InRollback, Up, MayLift, ImageIsWhole, PrunedItself, RevertedLast, Next, AfterAll;
    RunMayLiftIff(s, run);
    RollbackLiftsIff(AfterAll(s, run), rollback);
  }

  /** A teardown the cast finds stays: nothing that only prunes can mistake it for its own. */
  predicate NothingFound(s: ServiceSlot) { !Up(s.live) && (s.img.Some? && s.img.value.service.Some? ==> Terminating(s.img.value.service.value)) }

  lemma PruneFindsNothing(s: ServiceSlot, e: Event)
    requires NothingFound(s) && InRun(e) && !(e.CastDoes? && e.op.ApplyOp?)
    ensures NothingFound(Next(s, e)) && !OwnPrune(s, e)
  {
  }

  lemma {:induction false} RunFindsNothing(s: ServiceSlot, run: seq<Event>)
    requires s.img.None? && !Up(s.live) && forall i :: 0 <= i < |run| ==> InRun(run[i]) && !(run[i].CastDoes? && run[i].op.ApplyOp?)
    ensures NothingFound(AfterAll(s, run)) && !PrunedItself(s, run)
  {
    hide Next, OwnPrune;
    if run != [] {
      var init := run[..|run| - 1];
      assert forall i :: 0 <= i < |init| ==> init[i] == run[i];
      RunFindsNothing(s, init);
      PruneFindsNothing(AfterAll(s, init), run[|run| - 1]);
    }
  }

  lemma FoundTeardownStays(s: ServiceSlot, run: seq<Event>, rollback: seq<Event>)
    requires s.img.None? && !Up(s.live)
    requires forall i :: 0 <= i < |run| ==> InRun(run[i]) && !(run[i].CastDoes? && run[i].op.ApplyOp?)
    requires forall i :: 0 <= i < |rollback| ==> InRollback(rollback[i])
    ensures !Up(AfterAll(AfterAll(s, run), rollback).live)
  {
    RunFindsNothing(s, run);
    hide InRun, InRollback, PrunedItself, RevertedLast, Next, AfterAll;
    TeardownIsLiftedIff(s, run, rollback);
  }

  /** Whole casts */

  ghost predicate AllInRun(ops: seq<Op>) { forall i :: 0 <= i < |ops| ==> InRun(CastDoes(ops[i])) }
  ghost predicate AllInRollback(ops: seq<Op>) { forall i :: 0 <= i < |ops| ==> InRollback(CastDoes(ops[i])) }

  lemma {:induction false} InterferenceFits(es: seq<Interference>, r: Ref)
    ensures AllInRun(InterfereOps(es, r)) && AllInRollback(InterfereOps(es, r))
    decreases |es|
  {
    if es != [] { InterferenceFits(es[..|es| - 1], r); }
  }

  lemma NothingFits()
    ensures AllInRun([])
  {
  }

  lemma ChangeFits(p: Payloads, c: Change, f: Fault, r: Ref)
    ensures AllInRun(ChangeOps(p, c, f, r))
  {
  }

  lemma TogetherFit(a: seq<Op>, b: seq<Op>)
    ensures AllInRun(a) && AllInRun(b) ==> AllInRun(a + b)
  {
    hide InRun;
  }

  lemma {:induction false} RunFits(w: World, p: Payloads, all: seq<Change>, split: nat, verified: bool, oracle: nat -> Input, i: nat, r: Ref)
    requires i <= |all|
    ensures AllInRun(RunOps(w, p, all, split, verified, oracle, i, r))
    decreases |all| - i
  {
    hide Exec, InterfereOps, ChangeOps, AllInRun, AllInRollback;
    NothingFits();
    if i < |all| && !(i == split && !verified) {
      InterferenceFits(oracle(i).interference, r);
      ChangeFits(p, all[i], oracle(i).fault, r);
      var s := Exec(w, p, all[i], oracle(i));
      var a, b := InterfereOps(oracle(i).interference, r), ChangeOps(p, all[i], oracle(i).fault, r);
      TogetherFit(a, b);
      TogetherFit(a + b, if s.ok then RunOps(s.world, p, all, split, verified, oracle, i + 1, r) else []);
      if s.ok { RunFits(s.world, p, all, split, verified, oracle, i + 1, r); }
    }
  }

  lemma {:induction false} RollbackFits(done: seq<Change>, oracle: nat -> Input, k: nat, r: Ref)
    ensures AllInRollback(RevertOps(done, oracle, k, r))
    decreases |done|
  {
    hide InterfereOps;
    if done != [] {
      InterferenceFits(oracle(k).interference, r);
      RollbackFits(done[..|done| - 1], oracle, k + 1, r);
    }
  }

  /** Every cast, seen from one service, begins afresh, runs, and rolls back. */
  lemma CastIsRunThenRollback(s: Cluster, spec: CastSpec, p: Payloads, live: LiveLookup, fate: Fate, r: Ref) returns (run: seq<Op>, rollback: seq<Op>)
    requires !Cast(s.world, s.records, spec, p, live, fate).outcome.NotStarted?
    ensures CastOps(s, spec, p, live, fate, r) == [BeginCast] + run + rollback && AllInRun(run) && AllInRollback(rollback)
    ensures !Cast(s.world, s.records, spec, p, live, fate).outcome.RolledBack? && !Cast(s.world, s.records, spec, p, live, fate).outcome.RollbackIncomplete? ==> rollback == []
  {
    hide AllInRun, AllInRollback, RunOps, RevertOps, AppliesOf, PrunesOf, Cast, PlanOf, RunFrom;
    var plan, outcome := PlanFor(s.records, spec, live), Cast(s.world, s.records, spec, p, live, fate).outcome;
    var all, split, start := AppliesOf(plan) + PrunesOf(plan), |AppliesOf(plan)|, s.world.(pre := map[]);
    run := RunOps(start, p, all, split, fate.verified, fate.oracle, 0, r);
    RunFits(start, p, all, split, fate.verified, fate.oracle, 0, r);
    var done := if outcome.IsDeployed? || outcome.LeftFailed? then [] else all[..RunOf(s, spec, p, live, fate).count];
    rollback := RevertOps(done, fate.revertOracle, 0, r);
    RollbackFits(done, fate.revertOracle, 0, r);
    NoReverts(fate.revertOracle, r);
  }

  lemma NoReverts(oracle: nat -> Input, r: Ref)
    ensures RevertOps([], oracle, 0, r) == []
  {
  }
}
