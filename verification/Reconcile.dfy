/** A cast end to end: plan, admit, record the pending intent, run, and record the outcome. */
module Reconcile {
  import opened Common
  import opened Services
  import opened Resources
  import opened ServerState
  import opened Execution
  import opened Planning

  /** A release is identified by its home namespace and name; ownership stamps carry only the name. */
  datatype ReleaseId = ReleaseId(namespace: string, name: string)
  type Records = map<ReleaseId, Release>

  datatype CastSpec = CastSpec(id: ReleaseId, desired: seq<Ref>, adopt: bool, detach: bool, atomic: bool)

  /** Order of execution */

  predicate AppliesBefore(a: Change, b: Change) {
    var x, y := ApplyRank(a.ref.kind), ApplyRank(b.ref.kind);
    if x != y then x < y else StringLess(Key(a.ref), Key(b.ref))
  }

  predicate PrunesBefore(a: Change, b: Change) {
    var x, y := ApplyRank(a.ref.kind), ApplyRank(b.ref.kind);
    if x != y then x > y else StringLess(Key(a.ref), Key(b.ref))
  }

  lemma ExecutionOrdersAreOrders()
    ensures StrictWeakOrder(AppliesBefore) && StrictWeakOrder(PrunesBefore)
  {
    forall a: Change, b: Change ensures (AppliesBefore(a, b) ==> !AppliesBefore(b, a)) && (PrunesBefore(a, b) ==> !PrunesBefore(b, a)) {
      StringLessTotal(Key(a.ref), Key(b.ref));
    }
    forall a: Change, b: Change, c: Change
      ensures AppliesBefore(a, b) && !AppliesBefore(c, b) ==> AppliesBefore(a, c)
      ensures PrunesBefore(a, b) && !PrunesBefore(c, b) ==> PrunesBefore(a, c)
    {
      StringLessTotal(Key(b.ref), Key(c.ref));
      if StringLess(Key(a.ref), Key(b.ref)) && StringLess(Key(b.ref), Key(c.ref)) {
        StringLessTransitive(Key(a.ref), Key(b.ref), Key(c.ref));
      }
    }
  }

  /** The plan contains change `c`. */
  ghost predicate Plans(plan: seq<Planned>, c: Change) { exists i :: 0 <= i < |plan| && plan[i].change == c }

  lemma PlansSplit(plan: seq<Planned>)
    requires plan != []
    ensures forall c :: Plans(plan, c) <==> c == plan[0].change || Plans(plan[1..], c)
  {
    assert forall i :: 0 <= i < |plan[1..]| ==> plan[1..][i] == plan[i + 1];
    forall c ensures Plans(plan, c) <==> c == plan[0].change || Plans(plan[1..], c) {
      if Plans(plan, c) {
        var i :| 0 <= i < |plan| && plan[i].change == c;
        if i > 0 { assert plan[1..][i - 1].change == c; }
      }
    }
  }

  function ChangesWhere(plan: seq<Planned>, prune: bool): (cs: seq<Change>)
    ensures forall c :: c in cs <==> c.action.Prune? == prune && Plans(plan, c)
  {
    if plan == [] then []
    else
      PlansSplit(plan);
      var rest := ChangesWhere(plan[1..], prune);
      if plan[0].change.action.Prune? == prune then [plan[0].change] + rest else rest
  }

  /** splitForExecution. */
  function AppliesOf(plan: seq<Planned>): seq<Change> { Sort(AppliesBefore, ChangesWhere(plan, false)) }
  function PrunesOf(plan: seq<Planned>): seq<Change> { Sort(PrunesBefore, ChangesWhere(plan, true)) }

  predicate Takes(a: Action) { a.Create? || a.Update? || a.Adopt? }

  /** partitionOwnership. */
  function OwnedRefs(plan: seq<Planned>): (rs: seq<Ref>)
    ensures forall r :: r in rs <==> Plans(plan, Change(r, Create)) || Plans(plan, Change(r, Update)) || Plans(plan, Change(r, Adopt))
  {
    if plan == [] then []
    else
      PlansSplit(plan);
      var rest := OwnedRefs(plan[1..]);
      var c := plan[0].change;
      if Takes(c.action) then [c.ref] + rest else rest
  }

  function ReferencedRefs(plan: seq<Planned>): (rs: seq<Ref>)
    ensures forall r :: r in rs <==> Plans(plan, Change(r, Reference))
  {
    if plan == [] then []
    else
      PlansSplit(plan);
      var rest := ReferencedRefs(plan[1..]);
      if plan[0].change.action.Reference? then [plan[0].change.ref] + rest else rest
  }

  /** Prepare: nothing is recorded unless the plan is admitted, free of conflicts, and (detached) free
      of prunes. */
  datatype Rejection = LookupFailed | NotAdmitted | Conflicts | DetachWouldPrune | PendingNotSaved

  datatype Prepared =
    | Rejected(reason: Rejection)
    | Ready(records: Records, rel: Release, prev: Option<Release>, applies: seq<Change>, prunes: seq<Change>)

  predicate IsApplyable(plan: seq<Planned>) { forall i :: 0 <= i < |plan| ==> plan[i].conflict.None? }

  function Prepare(recs: Records, spec: CastSpec, live: LiveLookup, admitted: bool, saved: bool): Prepared {
    var prev := Get(recs, spec.id);
    var plan := PlanOf(spec.id.name, spec.desired, prev, live, spec.adopt);
    if exists i :: 0 <= i < |spec.desired| && !IsSharedClusterKind(spec.desired[i].kind)
                   && spec.desired[i] !in OwnsOf(prev) && live(spec.desired[i]).None? then Rejected(LookupFailed)
    else if !admitted then Rejected(NotAdmitted)
    else if !IsApplyable(plan) then Rejected(Conflicts)
    else if spec.detach && PrunesOf(plan) != [] then Rejected(DetachWouldPrune)
    else if !saved then Rejected(PendingNotSaved)
    else
      var revision := if prev.Some? then prev.value.revision + 1 else 1;
      var rel := Release(Pending, revision, OwnedRefs(plan), ReferencedRefs(plan));
      Ready(recs[spec.id := rel], rel, prev, AppliesOf(plan), PrunesOf(plan))
  }

  /** What the run recorded, step by step. */
  datatype Event = DidApply(ref: Ref, ok: bool) | DidVerify(ok: bool) | DidPrune(ref: Ref, ok: bool)

  function EventOf(c: Change, ok: bool): Event { if c.action.Prune? then DidPrune(c.ref, ok) else DidApply(c.ref, ok) }

  function TraceFrom(w: World, p: Payloads, all: seq<Change>, split: nat, verified: bool, oracle: nat -> Input, i: nat): seq<Event>
    requires i <= |all|
    decreases |all| - i, 1
  {
    var rest := StepsFrom(w, p, all, split, verified, oracle, i);
    if i == split then [DidVerify(verified)] + rest else rest
  }

  /** The changes from `i` on, after the check that may precede them. */
  function StepsFrom(w: World, p: Payloads, all: seq<Change>, split: nat, verified: bool, oracle: nat -> Input, i: nat): seq<Event>
    requires i <= |all|
    decreases |all| - i, 0
  {
    if (i == split && !verified) || i == |all| then []
    else
      var s := Exec(w, p, all[i], oracle(i));
      [EventOf(all[i], s.ok)] + (if s.ok then TraceFrom(s.world, p, all, split, verified, oracle, i + 1) else [])
  }

  datatype Outcome = NotStarted(reason: Rejection) | IsDeployed | RolledBack | RollbackIncomplete | LeftFailed

  /** `saved` says whether the closing record write succeeded. */
  datatype CastResult = CastResult(world: World, records: Records, outcome: Outcome, saved: bool, trace: seq<Event>)

  /** The unpredictable part of a cast. */
  datatype Fate = Fate(admitted: bool, pendingSaved: bool, verified: bool, closingSaved: bool,
                       oracle: nat -> Input, revertOracle: nat -> Input)

  function Close(recs: Records, id: ReleaseId, rel: Release, saved: bool): Records {
    if saved then recs[id := rel] else recs
  }

  function Cast(w: World, recs: Records, spec: CastSpec, p: Payloads, live: LiveLookup, fate: Fate): CastResult {
    match Prepare(recs, spec, live, fate.admitted, fate.pendingSaved)
    case Rejected(reason) => CastResult(w, recs, NotStarted(reason), true, [])
    case Ready(recs1, rel, prev, applies, prunes) =>
      var all, split := applies + prunes, |applies|;
      var start := w.(pre := map[]);
      var run := RunFrom(start, p, all, split, fate.verified, fate.oracle, 0);
      var trace := TraceFrom(start, p, all, split, fate.verified, fate.oracle, 0);
      if run.complete then
        CastResult(run.world, Close(recs1, spec.id, rel.(status := Deployed), fate.closingSaved), IsDeployed, fate.closingSaved, trace)
      else if !spec.atomic then
        CastResult(run.world, Close(recs1, spec.id, rel.(status := Failed), fate.closingSaved), LeftFailed, fate.closingSaved, trace)
      else
        var back := RevertAll(run.world, all[..run.count], fate.revertOracle, 0);
        if back.errors > 0 then
          CastResult(back.world, Close(recs1, spec.id, rel.(status := Failed), fate.closingSaved), RollbackIncomplete, fate.closingSaved, trace)
        else
          var kept := if prev.Some? then rel.(status := Failed, owns := prev.value.owns, references := prev.value.references)
                      else rel.(status := Failed, owns := [], references := []);
          CastResult(back.world, Close(recs1, spec.id, kept, fate.closingSaved), RolledBack, fate.closingSaved, trace)
  }
}
