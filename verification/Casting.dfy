/** Prepare, run, fail and Uninstall as the code performs them, over mutable records and store, each
    proved to compute what `Cast` and `UninstallRelease` say. */
module Casting {
  import opened Common
  import opened Services
  import opened Resources
  import opened ServerState
  import opened Execution
  import opened Planning
  import opened Reconcile
  import opened CastSafety
  import opened Uninstalling
  import opened Appliers

  /** The release records. */
  class RecordStore {
    var all: Records

    constructor (all: Records)
      ensures this.all == all
    {
      this.all := all;
    }

    method Save(id: ReleaseId, rel: Release, works: bool)
      modifies this
      ensures all == Close(old(all), id, rel, works)
    {
      if works { all := all[id := rel]; }
    }
  }

  lemma Appending<T>(done: seq<T>, next: seq<T>, rest: seq<T>)
    ensures (done + next) + rest == done + (next + rest)
    ensures next == [] ==> done + next == done
  {
  }

  lemma ChangesStep(plan: seq<Planned>, i: nat, prune: bool)
    requires i < |plan|
    ensures ChangesWhere(plan[i..], prune)
         == (if plan[i].change.action.Prune? == prune then [plan[i].change] else []) + ChangesWhere(plan[i + 1..], prune)
  {
    assert plan[i..][1..] == plan[i + 1..];
  }

  /** splitForExecution: two appends, then two stable sorts. */
  method SplitForExecution(plan: seq<Planned>) returns (applies: seq<Change>, prunes: seq<Change>)
    ensures applies == AppliesOf(plan) && prunes == PrunesOf(plan)
  {
    applies, prunes := Separate(plan);
    applies := Sort(AppliesBefore, applies);
    prunes := Sort(PrunesBefore, prunes);
  }

  method Separate(plan: seq<Planned>) returns (applies: seq<Change>, prunes: seq<Change>)
    ensures applies == ChangesWhere(plan, false) && prunes == ChangesWhere(plan, true)
  {
    applies, prunes := [], [];
    assert plan[0..] == plan && plan[|plan|..] == [];
    for i := 0 to |plan|
      invariant applies + ChangesWhere(plan[i..], false) == ChangesWhere(plan, false)
      invariant prunes + ChangesWhere(plan[i..], true) == ChangesWhere(plan, true)
    {
      hide *;
      ChangesStep(plan, i, false);
      ChangesStep(plan, i, true);
      if plan[i].change.action.Prune? {
        Appending(applies, [], ChangesWhere(plan[i + 1..], false));
        Appending(prunes, [plan[i].change], ChangesWhere(plan[i + 1..], true));
        prunes := prunes + [plan[i].change];
      } else {
        Appending(prunes, [], ChangesWhere(plan[i + 1..], true));
        Appending(applies, [plan[i].change], ChangesWhere(plan[i + 1..], false));
        applies := applies + [plan[i].change];
      }
    }
  }

  lemma OwnershipStep(plan: seq<Planned>, i: nat)
    requires i < |plan|
    ensures var c := plan[i].change;
            && OwnedRefs(plan[i..]) == (if Takes(c.action) then [c.ref] else []) + OwnedRefs(plan[i + 1..])
            && ReferencedRefs(plan[i..]) == (if c.action.Reference? then [c.ref] else []) + ReferencedRefs(plan[i + 1..])
  {
    assert plan[i..][1..] == plan[i + 1..];
  }

  /** partitionOwnership. */
  method PartitionOwnership(plan: seq<Planned>) returns (owns: seq<Ref>, refs: seq<Ref>)
    ensures owns == OwnedRefs(plan) && refs == ReferencedRefs(plan)
  {
    owns, refs := [], [];
    assert plan[0..] == plan && plan[|plan|..] == [];
    for i := 0 to |plan|
      invariant owns + OwnedRefs(plan[i..]) == OwnedRefs(plan)
      invariant refs + ReferencedRefs(plan[i..]) == ReferencedRefs(plan)
    {
      hide *;
      OwnershipStep(plan, i);
      var c := plan[i].change;
      if Takes(c.action) {
        owns := owns + [c.ref];
      } else if c.action.Reference? {
        refs := refs + [c.ref];
      }
    }
  }

  lemma NoPrunes(plan: seq<Planned>)
    ensures PrunesOf(plan) != [] <==> exists i :: 0 <= i < |plan| && plan[i].change.action.Prune?
  {
    ExecutionListIsOrdered(plan);
    if PrunesOf(plan) != [] { assert PrunesOf(plan)[0] in PrunesOf(plan); }
    hide PrunesOf, AppliesOf, Sorted;
    if i :| 0 <= i < |plan| && plan[i].change.action.Prune? { assert Plans(plan, plan[i].change); }
  }

  /** A cast under way. */
  class CastExecution {
    const records: RecordStore
    const applier: Applier
    const id: ReleaseId
    const atomic: bool
    const prev: Option<Release>
    const applies: seq<Change>
    const prunes: seq<Change>
    var rel: Release

    constructor (records: RecordStore, applier: Applier, id: ReleaseId, atomic: bool, prev: Option<Release>,
                 applies: seq<Change>, prunes: seq<Change>, rel: Release)
      ensures this.records == records && this.applier == applier && this.id == id && this.atomic == atomic
      ensures this.prev == prev && this.applies == applies && this.prunes == prunes && this.rel == rel
    {
      this.records, this.applier, this.id, this.atomic := records, applier, id, atomic;
      this.prev, this.applies, this.prunes, this.rel := prev, applies, prunes, rel;
    }

    /** fail: roll back if atomic, and record the failure. */
    method Fail(done: seq<Change>, fate: Fate) returns (outcome: Outcome)
      modifies this, records, applier.store
      ensures !atomic ==> applier.State() == old(applier.State()) && outcome == LeftFailed
                          && records.all == Close(old(records.all), id, old(rel).(status := Failed), fate.closingSaved)
      ensures atomic ==>
                var back := RevertAll(old(applier.State()), done, fate.revertOracle, 0);
                && applier.State() == back.world
                && outcome == (if back.errors > 0 then RollbackIncomplete else RolledBack)
                && records.all == Close(old(records.all), id,
                     if back.errors > 0 then old(rel).(status := Failed)
                     else if prev.Some? then old(rel).(status := Failed, owns := prev.value.owns, references := prev.value.references)
                     else old(rel).(status := Failed, owns := [], references := []), fate.closingSaved)
    {
      hide RevertAll;
      outcome := LeftFailed;
      if atomic {
        var errors, _ := applier.RevertChanges(done, fate.revertOracle);
        if errors > 0 {
          outcome := RollbackIncomplete;
        } else {
          outcome := RolledBack;
          if prev.Some? {
            rel := rel.(owns := prev.value.owns, references := prev.value.references);
          } else {
            rel := rel.(owns := [], references := []);
          }
        }
      }
      rel := rel.(status := Failed);
      records.Save(id, rel, fate.closingSaved);
    }
  }

  /** Prepare and the run it returns. */
  method CastRelease(records: RecordStore, applier: Applier, spec: CastSpec, live: LiveLookup, fate: Fate)
    returns (outcome: Outcome, ghost trace: seq<Event>)
    requires applier.pre == map[]
    modifies records, applier, applier.store
    ensures var c := Cast(old(applier.State()), old(records.all), spec, applier.payloads, live, fate);
            applier.State() == c.world && records.all == c.records && outcome == c.outcome && trace == c.trace
  {
    hide Prepare, RunFrom, RevertAll, TraceFrom;
    var ready, applies, prunes, rel, prev := PrepareCast(records, spec, live, fate);
    if ready.Some? { return NotStarted(ready.value), []; }
    var e := new CastExecution(records, applier, spec.id, spec.atomic, prev, applies, prunes, rel);
    var done, ok;
    done, ok, trace := applier.Run(applies, prunes, fate.verified, fate.oracle);
    if ok {
      e.rel := e.rel.(status := Deployed);
      records.Save(spec.id, e.rel, fate.closingSaved);
      outcome := IsDeployed;
    } else {
      outcome := e.Fail(done, fate);
    }
  }

  method PrepareCast(records: RecordStore, spec: CastSpec, live: LiveLookup, fate: Fate)
    returns (rejected: Option<Rejection>, applies: seq<Change>, prunes: seq<Change>, rel: Release, prev: Option<Release>)
    modifies records
    ensures var q := Prepare(old(records.all), spec, live, fate.admitted, fate.pendingSaved);
            if rejected.Some? then q == Rejected(rejected.value) && records.all == old(records.all)
            else q == Ready(records.all, rel, prev, applies, prunes)
    ensures rejected.None? ==> (forall i :: 0 <= i < |applies| ==> !applies[i].action.Prune?)
                               && (forall i :: 0 <= i < |prunes| ==> prunes[i].action.Prune?)
  {
    hide PlanOf, AppliesOf, PrunesOf, OwnedRefs, ReferencedRefs;
    applies, prunes, rel := [], [], Release(Pending, 1, [], []);
    prev := Get(records.all, spec.id);
    var plan := BuildPlan(spec.id.name, spec.desired, prev, live, spec.adopt);
    if plan.None? { return Some(LookupFailed), applies, prunes, rel, prev; }
    if !fate.admitted { return Some(NotAdmitted), applies, prunes, rel, prev; }
    var applyable := Applyable(plan.value);
    if !applyable { return Some(Conflicts), applies, prunes, rel, prev; }
    var hasPrune := HasPrune(plan.value);
    NoPrunes(plan.value);
    if spec.detach && hasPrune { return Some(DetachWouldPrune), applies, prunes, rel, prev; }
    var revision := 1;
    if prev.Some? { revision := prev.value.revision + 1; }
    var owns, refs := PartitionOwnership(plan.value);
    rel := Release(Pending, revision, owns, refs);
    if !fate.pendingSaved { return Some(PendingNotSaved), applies, prunes, rel, prev; }
    records.Save(spec.id, rel, true);
    applies, prunes := SplitForExecution(plan.value);
    SplitKinds(plan.value);
    rejected := None;
  }

  lemma SplitKinds(plan: seq<Planned>)
    ensures forall i :: 0 <= i < |AppliesOf(plan)| ==> !AppliesOf(plan)[i].action.Prune?
    ensures forall i :: 0 <= i < |PrunesOf(plan)| ==> PrunesOf(plan)[i].action.Prune?
  {
    ExecutionListIsOrdered(plan);
    hide AppliesOf, PrunesOf, Sorted;
    var applies: seq<Change>, prunes: seq<Change> := AppliesOf(plan), PrunesOf(plan);
    forall i | 0 <= i < |applies| ensures !applies[i].action.Prune? { assert applies[i] in applies; }
    forall i | 0 <= i < |prunes| ensures prunes[i].action.Prune? { assert prunes[i] in prunes; }
  }

  lemma RemovalsStep(order: seq<Ref>, keepVolumes: bool, i: nat, j: nat)
    requires i < |order| && j <= |Removals(order, keepVolumes)|
    requires Removals(order, keepVolumes)[j..] == Removals(order[i..], keepVolumes)
    ensures if keepVolumes && order[i].kind.Volume?
            then Removals(order, keepVolumes)[j..] == Removals(order[i + 1..], keepVolumes)
            else j < |Removals(order, keepVolumes)| && Removals(order, keepVolumes)[j] == Change(order[i], Prune)
                 && Removals(order, keepVolumes)[j + 1..] == Removals(order[i + 1..], keepVolumes)
  {
    var cs, rest := Removals(order, keepVolumes), Removals(order[i + 1..], keepVolumes);
    assert order[i..][1..] == order[i + 1..];
    if !(keepVolumes && order[i].kind.Volume?) {
      assert cs[j..] == [Change(order[i], Prune)] + rest;
      assert cs[j..][0] == cs[j] && cs[j..][1..] == cs[j + 1..];
    }
  }

  lemma RemovalRunStep(w: World, p: Payloads, cs: seq<Change>, oracle: nat -> Input, j: nat)
    requires j < |cs| && cs[j].action.Prune?
    ensures var s := Pruned(InterfereAll(w, oracle(j).interference), cs[j].ref, oracle(j).fault);
            RunFrom(w, p, cs, 0, true, oracle, j)
              == if s.ok then RunFrom(s.world, p, cs, 0, true, oracle, j + 1) else Run(s.world, j + 1, false)
  {
  }

  lemma RemovalRunEnd(w: World, p: Payloads, cs: seq<Change>, oracle: nat -> Input)
    ensures RunFrom(w, p, cs, 0, true, oracle, |cs|) == Run(w, |cs|, true)
  {
  }

  /** Uninstall's prune loop, which skips the volumes to keep and stops at the first failure. */
  method PruneAll(applier: Applier, order: seq<Ref>, keepVolumes: bool, oracle: nat -> Input) returns (ok: bool)
    modifies applier`pre, applier.store
    ensures var run := RunFrom(old(applier.State()), applier.payloads, Removals(order, keepVolumes), 0, true, oracle, 0);
            applier.State() == run.world && ok == run.complete
  {
    ghost var cs, p := Removals(order, keepVolumes), applier.payloads;
    hide Removals, Pruned, RunFrom, InterfereAll;
    var j := 0;
    for i := 0 to |order|
      invariant j <= |cs| && cs[j..] == Removals(order[i..], keepVolumes)
      invariant RunFrom(applier.State(), p, cs, 0, true, oracle, j) == RunFrom(old(applier.State()), p, cs, 0, true, oracle, 0)
    {
      RemovalsStep(order, keepVolumes, i, j);
      if keepVolumes && order[i].kind.Volume? { continue; }
      RemovalRunStep(applier.State(), p, cs, oracle, j);
      applier.store.Interleave(oracle(j).interference, applier.pre);
      ok := applier.Prune(order[i], oracle(j).fault);
      if !ok { return; }
      j := j + 1;
    }
    NoRemovals(order[|order|..], keepVolumes);
    RemovalRunEnd(applier.State(), p, cs, oracle);
    ok := true;
  }

  lemma NoRemovals(order: seq<Ref>, keepVolumes: bool)
    requires order == []
    ensures Removals(order, keepVolumes) == []
  {
  }

  method Uninstall(records: RecordStore, applier: Applier, id: ReleaseId, keepVolumes: bool, purge: bool,
                   admitted: bool, marked: bool, closed: bool, oracle: nat -> Input) returns (ok: bool)
    requires applier.pre == map[] && applier.payloads == NoPayloads(id.name)
    modifies records, applier`pre, applier.store
    ensures var u := UninstallRelease(old(applier.State()), old(records.all), id, keepVolumes, purge, admitted, marked, closed, oracle);
            ok == u.ok && records.all == u.records && applier.State().services == u.world.services
            && applier.State().durables == u.world.durables
  {
    hide RunFrom, Removals;
    if id !in records.all || !admitted { return false; }
    var rel := records.all[id];
    var order := ReverseDependencyOrder(rel.owns);
    records.Save(id, rel.(status := Uninstalling), marked);
    ok := PruneAll(applier, order, keepVolumes, oracle);
    if !ok || !closed { return false; }
    if purge {
      records.all := records.all - {id};
    } else {
      records.all := records.all[id := rel.(owns := [], status := Uninstalled)];
    }
  }
}
