/** What every cast respects: the plan is exact, a rejected cast changes nothing, nothing is pruned
    before everything was applied and verified, and a deployed record means every step succeeded. */
module CastSafety {
  import opened Common
  import opened Services
  import opened Resources
  import opened ServerState
  import opened Execution
  import opened Planning
  import opened Reconcile

  /** Plans */

  lemma PlanLayout(release: string, desired: seq<Ref>, current: Option<Release>, live: LiveLookup, adopt: bool)
    ensures var plan := PlanOf(release, desired, current, live, adopt);
            var dropped := Dropped(OwnsOf(current), desired);
            && |plan| == |desired| + |dropped|
            && (forall i :: 0 <= i < |desired| ==>
                  plan[i] == PlanOne(release, desired[i] in OwnsOf(current), desired[i], live(desired[i]), adopt))
            && (forall i :: |desired| <= i < |plan| ==> plan[i] == Planned(Change(dropped[i - |desired|], Prune), None))
  {
    hide PlanDesired, PlanPrunes, Dropped, PlanOne;
  }

  lemma PlanPrunesExactly(release: string, desired: seq<Ref>, current: Option<Release>, live: LiveLookup, adopt: bool, r: Ref)
    ensures Plans(PlanOf(release, desired, current, live, adopt), Change(r, Prune)) <==> r in OwnsOf(current) && r !in desired
  {
    hide PlanOf;
    PlanLayout(release, desired, current, live, adopt);
    var plan, dropped := PlanOf(release, desired, current, live, adopt), Dropped(OwnsOf(current), desired);
    if r in dropped {
      var k :| 0 <= k < |dropped| && dropped[k] == r;
      assert plan[|desired| + k].change == Change(r, Prune);
    }
  }

  lemma TakenIsDesired(release: string, desired: seq<Ref>, current: Option<Release>, live: LiveLookup, adopt: bool, c: Change)
    requires Plans(PlanOf(release, desired, current, live, adopt), c) && Takes(c.action)
    ensures c.ref in desired && !IsSharedClusterKind(c.ref.kind)
  {
    PlanLayout(release, desired, current, live, adopt);
    var plan := PlanOf(release, desired, current, live, adopt);
    hide PlanOf, PlanDesired, PlanPrunes, Dropped;
    var k :| 0 <= k < |plan| && plan[k].change == c;
    assert k < |desired|;
  }

  lemma DesiredIsTaken(release: string, desired: seq<Ref>, current: Option<Release>, live: LiveLookup, adopt: bool, r: Ref)
    requires r in desired && !IsSharedClusterKind(r.kind)
    ensures r in OwnedRefs(PlanOf(release, desired, current, live, adopt))
  {
    PlanLayout(release, desired, current, live, adopt);
    var plan := PlanOf(release, desired, current, live, adopt);
    hide PlanOf, PlanDesired, PlanPrunes, Dropped;
    var k :| 0 <= k < |desired| && desired[k] == r;
    assert Plans(plan, plan[k].change);
  }

  lemma PlanOwnsExactly(release: string, desired: seq<Ref>, current: Option<Release>, live: LiveLookup, adopt: bool, r: Ref)
    ensures r in OwnedRefs(PlanOf(release, desired, current, live, adopt)) <==> r in desired && !IsSharedClusterKind(r.kind)
  {
    hide PlanOf, Plans;
    var plan := PlanOf(release, desired, current, live, adopt);
    if r in desired && !IsSharedClusterKind(r.kind) {
      DesiredIsTaken(release, desired, current, live, adopt, r);
    }
    if r in OwnedRefs(plan) {
      var a :| Takes(a) && Plans(plan, Change(r, a));
      TakenIsDesired(release, desired, current, live, adopt, Change(r, a));
    }
  }

  lemma {:induction false} NothingDropped(owns: seq<Ref>, desired: seq<Ref>)
    requires forall r :: r in owns ==> r in desired
    ensures Dropped(owns, desired) == []
  {
    if owns != [] {
      assert owns[0] in owns;
      NothingDropped(owns[1..], desired);
    }
  }

  lemma PlanActions(release: string, desired: seq<Ref>, current: Option<Release>, live: LiveLookup, adopt: bool)
    ensures var plan := PlanOf(release, desired, current, live, adopt);
            && |plan| >= |desired|
            && (forall i :: 0 <= i < |desired| ==>
                  plan[i].change.ref == desired[i] && !plan[i].change.action.Prune?
                  && (plan[i].change.action.Reference? <==> IsSharedClusterKind(desired[i].kind)))
            && (forall i :: |desired| <= i < |plan| ==> plan[i].change.action.Prune? && plan[i].conflict.None?)
  {
    hide PlanOf;
    PlanLayout(release, desired, current, live, adopt);
  }

  /** Every plan is the desired list in order, one change each, followed by exactly the recorded
      references that are no longer desired.  Only shared kinds are referenced, and what the release
      will own is the desired set without them. */
  lemma PlanIsExact(release: string, desired: seq<Ref>, current: Option<Release>, live: LiveLookup, adopt: bool)
    ensures var plan := PlanOf(release, desired, current, live, adopt);
            && |plan| >= |desired|
            && (forall i :: 0 <= i < |desired| ==>
                  plan[i].change.ref == desired[i] && !plan[i].change.action.Prune?
                  && (plan[i].change.action.Reference? <==> IsSharedClusterKind(desired[i].kind)))
            && (forall i :: |desired| <= i < |plan| ==> plan[i].change.action.Prune? && plan[i].conflict.None?)
            && (forall r :: Plans(plan, Change(r, Prune)) <==> r in OwnsOf(current) && r !in desired)
            && (forall r :: r in OwnedRefs(plan) <==> r in desired && !IsSharedClusterKind(r.kind))
  {
    hide *;
    PlanActions(release, desired, current, live, adopt);
    var plan := PlanOf(release, desired, current, live, adopt);
    forall r ensures Plans(plan, Change(r, Prune)) <==> r in OwnsOf(current) && r !in desired {
      PlanPrunesExactly(release, desired, current, live, adopt, r);
    }
    forall r ensures r in OwnedRefs(plan) <==> r in desired && !IsSharedClusterKind(r.kind) {
      PlanOwnsExactly(release, desired, current, live, adopt, r);
    }
  }

  /** A conflict is reported exactly for a live resource that is neither ours on record nor by stamp,
      when adoption was not asked for. */
  lemma ConflictsAreExact(release: string, desired: seq<Ref>, current: Option<Release>, live: LiveLookup, adopt: bool, i: nat)
    requires i < |desired| && live(desired[i]).Some?
    ensures var plan := PlanOf(release, desired, current, live, adopt);
            plan[i].conflict.Some? <==>
              && !adopt && !IsSharedClusterKind(desired[i].kind) && desired[i] !in OwnsOf(current)
              && live(desired[i]).value.found && !OwnedByRelease(live(desired[i]).value.owner, release)
  {
    assert PlanOf(release, desired, current, live, adopt)[i] == PlanDesired(release, OwnsOf(current), desired, live, adopt)[i];
  }

  /** Which of the three ways a reference is taken: updated if the record or the live stamp says it is ours,
      created if there is no such resource, adopted if it is there without our stamp. */
  lemma ActionsAreExact(release: string, desired: seq<Ref>, current: Option<Release>, live: LiveLookup, adopt: bool, i: nat)
    requires i < |desired| && live(desired[i]).Some? && !IsSharedClusterKind(desired[i].kind)
    ensures var planned, found, ours := PlanOf(release, desired, current, live, adopt)[i], live(desired[i]).value.found, OwnedByRelease(live(desired[i]).value.owner, release);
            && (planned.change.action.Update? <==> desired[i] in OwnsOf(current) || (found && ours))
            && (planned.change.action.Create? <==> desired[i] !in OwnsOf(current) && !found)
            && (planned.change.action.Adopt? <==> desired[i] !in OwnsOf(current) && found && !ours)
            && (planned.conflict.Some? ==> planned.conflict.value.owner == live(desired[i]).value.owner)
  {
    assert PlanOf(release, desired, current, live, adopt)[i] == PlanDesired(release, OwnsOf(current), desired, live, adopt)[i];
  }

  /** What the lookup of the live state finds: a service, going away or not, a secret, configmap or volume, with
      its owner; after a failed read, nothing. */
  lemma LookupIsExact(w: World, r: Ref, readFails: bool)
    ensures var found := Lookup(w, r, readFails);
            && (found.found <==> !readFails && if r.kind.Service? then r in w.services else
                                                 (r.kind.Secret? || r.kind.Configmap? || r.kind.Volume?) && r in w.durables)
            && (found.found ==> found.owner == if r.kind.Service? then OwnerOf(w.services[r]) else w.durables[r].owner)
            && (!found.found ==> found.owner == None)
  {
  }

  /** Planning the same desired set again after it was deployed yields only updates and references:
      no conflict and no prune, whatever the cluster looks like. */
  lemma ReplanningIsAFixpoint(release: string, desired: seq<Ref>, current: Option<Release>, live: LiveLookup, adopt: bool,
                              revision: int, references: seq<Ref>, live': LiveLookup, adopt': bool)
    ensures var deployed := Release(Deployed, revision, OwnedRefs(PlanOf(release, desired, current, live, adopt)), references);
            var plan := PlanOf(release, desired, Some(deployed), live', adopt');
            && |plan| == |desired|
            && (forall i :: 0 <= i < |plan| ==>
                  plan[i] == Planned(Change(desired[i], if IsSharedClusterKind(desired[i].kind) then Reference else Update), None))
  {
    PlanIsExact(release, desired, current, live, adopt);
    var deployed := Release(Deployed, revision, OwnedRefs(PlanOf(release, desired, current, live, adopt)), references);
    PlanLayout(release, desired, Some(deployed), live', adopt');
    hide PlanOf, OwnedRefs;
    NothingDropped(deployed.owns, desired);
  }

  /** Runs */

  /** The event at position `t` of a full trace: applies, verify, prunes. */
  function Expected(all: seq<Change>, split: nat, t: nat, ok: bool): Event
    requires split <= |all| && t <= |all|
  {
    if t < split then DidApply(all[t].ref, ok) else if t == split then DidVerify(ok) else DidPrune(all[t - 1].ref, ok)
  }

  ghost predicate PrunesLast(all: seq<Change>, split: nat) {
    split <= |all| && forall i :: 0 <= i < |all| ==> (all[i].action.Prune? <==> split <= i)
  }

  function Position(split: nat, i: nat): nat { if i <= split then i else i + 1 }

  /** `T` is a piece of the expected trace starting at `from`, in which only the last event may have failed. */
  ghost predicate FollowsPlan(T: seq<Event>, all: seq<Change>, split: nat, from: nat) {
    && split <= |all| && from + |T| <= |all| + 1
    && (forall t {:trigger T[t]} :: 0 <= t < |T| ==> T[t] == Expected(all, split, from + t, T[t].ok))
    && (forall t {:trigger T[t]} :: 0 <= t < |T| - 1 ==> T[t].ok)
  }

  /** The trace reaches the end and every event succeeded. */
  ghost predicate Succeeds(T: seq<Event>, all: seq<Change>, from: nat) {
    from + |T| == |all| + 1 && forall t {:trigger T[t]} :: 0 <= t < |T| ==> T[t].ok
  }

  lemma FollowsPlanCons(e: Event, T: seq<Event>, all: seq<Change>, split: nat, from: nat)
    requires split <= |all| && from < |all| + 1 && FollowsPlan(T, all, split, from + 1)
    requires e == Expected(all, split, from, e.ok) && (T != [] ==> e.ok)
    ensures FollowsPlan([e] + T, all, split, from)
    ensures Succeeds(T, all, from + 1) && e.ok ==> Succeeds([e] + T, all, from)
  {
    var U := [e] + T;
    forall t {:trigger U[t]} | 0 <= t < |U| ensures U[t] == Expected(all, split, from + t, U[t].ok) {
      if t > 0 { assert U[t] == T[t - 1]; }
    }
    forall t {:trigger U[t]} | 0 <= t < |U| - 1 ensures U[t].ok {
      if t > 0 { assert U[t] == T[t - 1]; }
    }
  }

  lemma FollowsPlanNil(all: seq<Change>, split: nat, from: nat)
    requires split <= |all| && from <= |all| + 1
    ensures FollowsPlan([], all, split, from)
    ensures from == |all| + 1 ==> Succeeds([], all, from)
  {
  }

  lemma {:induction false} StepsFollowPlan(w: World, p: Payloads, all: seq<Change>, split: nat, verified: bool, oracle: nat -> Input, i: nat)
    requires i <= |all| && PrunesLast(all, split)
    ensures var T := StepsFrom(w, p, all, split, verified, oracle, i);
            var from := if i < split then i else i + 1;
            && FollowsPlan(T, all, split, from)
            && (i == split && !verified ==> T == [])
            && (RunFrom(w, p, all, split, verified, oracle, i).complete ==> Succeeds(T, all, from))
    decreases |all| - i, 0
  {
    hide FollowsPlan, Succeeds, Exec;
    var from := if i < split then i else i + 1;
    if i == |all| || (i == split && !verified) {
      FollowsPlanNil(all, split, from);
    } else {
      var s := Exec(w, p, all[i], oracle(i));
      if s.ok {
        TraceFollowsPlan(s.world, p, all, split, verified, oracle, i + 1);
        FollowsPlanCons(EventOf(all[i], true), TraceFrom(s.world, p, all, split, verified, oracle, i + 1), all, split, from);
      } else {
        FollowsPlanNil(all, split, from + 1);
        FollowsPlanCons(EventOf(all[i], false), [], all, split, from);
      }
    }
  }

  lemma {:induction false} TraceFollowsPlan(w: World, p: Payloads, all: seq<Change>, split: nat, verified: bool, oracle: nat -> Input, i: nat)
    requires i <= |all| && PrunesLast(all, split)
    ensures var T := TraceFrom(w, p, all, split, verified, oracle, i);
            && FollowsPlan(T, all, split, Position(split, i))
            && (RunFrom(w, p, all, split, verified, oracle, i).complete ==> Succeeds(T, all, Position(split, i)))
    decreases |all| - i, 1
  {
    hide FollowsPlan, Succeeds, StepsFrom;
    StepsFollowPlan(w, p, all, split, verified, oracle, i);
    if i == split {
      FollowsPlanCons(DidVerify(verified), StepsFrom(w, p, all, split, verified, oracle, i), all, split, i);
    }
  }

  /** What Prepare hands to the executor. */
  lemma ExecutionListIsOrdered(plan: seq<Planned>)
    ensures var applies, prunes := AppliesOf(plan), PrunesOf(plan);
            && PrunesLast(applies + prunes, |applies|)
            && (forall i, j :: 0 <= i < j < |applies| ==> MayApplyFirst(applies[i].ref, applies[j].ref))
            && (forall i, j :: 0 <= i < j < |prunes| ==> MayPruneFirst(prunes[i].ref, prunes[j].ref))
            && (forall c :: c in applies <==> !c.action.Prune? && Plans(plan, c))
            && (forall c :: c in prunes <==> c.action.Prune? && Plans(plan, c))
  {
    ExecutionOrdersAreOrders();
    SortSorts(AppliesBefore, ChangesWhere(plan, false));
    SortSorts(PrunesBefore, ChangesWhere(plan, true));
    SameElements(AppliesOf(plan), ChangesWhere(plan, false));
    SameElements(PrunesOf(plan), ChangesWhere(plan, true));
    var applies, prunes := AppliesOf(plan), PrunesOf(plan);
    var all: seq<Change> := applies + prunes;
    forall i | 0 <= i < |all| ensures all[i].action.Prune? <==> |applies| <= i {
      if i < |applies| { assert all[i] in applies; } else { assert all[i] in prunes; }
    }
    forall i, j | 0 <= i < j < |applies| ensures MayApplyFirst(applies[i].ref, applies[j].ref) { RanksFollowNeed(applies[i], applies[j]); }
    forall i, j | 0 <= i < j < |prunes| ensures MayPruneFirst(prunes[i].ref, prunes[j].ref) { RanksFollowNeed(prunes[i], prunes[j]); }
  }

  lemma RanksFollowNeed(a: Change, b: Change)
    ensures !AppliesBefore(b, a) <==> MayApplyFirst(a.ref, b.ref)
    ensures !PrunesBefore(b, a) <==> MayPruneFirst(a.ref, b.ref)
  {
    hide Key, StringLess;
  }

  /** Applies come before the check, and nothing before what it needs; a prune comes after a successful check
      and after every apply succeeded, and nothing before what needs it; only the last event may have failed. */
  ghost predicate SafeTrace(T: seq<Event>) {
    && (forall t {:trigger T[t]} :: 0 <= t < |T| - 1 ==> T[t].ok)
    && (forall t, u {:trigger T[t], T[u]} :: 0 <= t < u < |T| && T[u].DidApply? ==>
          T[t].DidApply? && MayApplyFirst(T[t].ref, T[u].ref))
    && (forall t, u {:trigger T[t], T[u]} :: 0 <= t < u < |T| && T[t].DidPrune? ==>
          T[u].DidPrune? && MayPruneFirst(T[t].ref, T[u].ref))
    && (forall u {:trigger T[u]} :: 0 <= u < |T| && T[u].DidPrune? ==> exists v :: 0 <= v < u && T[v] == DidVerify(true))
  }

  lemma FollowingIsSafe(T: seq<Event>, applies: seq<Change>, prunes: seq<Change>)
    requires PrunesLast(applies + prunes, |applies|)
    requires forall i, j :: 0 <= i < j < |applies| ==> MayApplyFirst(applies[i].ref, applies[j].ref)
    requires forall i, j :: 0 <= i < j < |prunes| ==> MayPruneFirst(prunes[i].ref, prunes[j].ref)
    requires FollowsPlan(T, applies + prunes, |applies|, 0)
    ensures SafeTrace(T)
  {
    hide MayApplyFirst, MayPruneFirst;
    var all, split := applies + prunes, |applies|;
    assert forall t {:trigger T[t]} :: 0 <= t < |T| ==> T[t] == Expected(all, split, t, T[t].ok);
    forall t, u {:trigger T[t], T[u]} | 0 <= t < u < |T| && T[u].DidApply?
      ensures T[t].DidApply? && MayApplyFirst(T[t].ref, T[u].ref)
    {
      assert u < split && all[t] == applies[t] && all[u] == applies[u];
    }
    forall t, u {:trigger T[t], T[u]} | 0 <= t < u < |T| && T[t].DidPrune?
      ensures T[u].DidPrune? && MayPruneFirst(T[t].ref, T[u].ref)
    {
      assert split < t && all[t - 1] == prunes[t - 1 - split] && all[u - 1] == prunes[u - 1 - split];
      assert MayPruneFirst(prunes[t - 1 - split].ref, prunes[u - 1 - split].ref);
    }
    forall u {:trigger T[u]} | 0 <= u < |T| && T[u].DidPrune? ensures exists v :: 0 <= v < u && T[v] == DidVerify(true) {
      assert T[split] == DidVerify(true);
    }
  }

  /** Each change of `done` shows up as a successful event once the trace has gone past it. */
  lemma PassedChangesSucceeded(T: seq<Event>, all: seq<Change>, split: nat, c: Change)
    requires PrunesLast(all, split) && FollowsPlan(T, all, split, 0) && c in all
    requires Succeeds(T, all, 0) || (!c.action.Prune? && exists u :: 0 <= u < |T| && T[u].DidPrune?)
    ensures EventOf(c, true) in T
  {
    var k :| 0 <= k < |all| && all[k] == c;
    var t := if k < split then k else k + 1;
    if !Succeeds(T, all, 0) {
      var u :| 0 <= u < |T| && T[u].DidPrune?;
      assert T[u] == Expected(all, split, u, T[u].ok);
      assert split < u;
    }
    assert T[t] == EventOf(c, true);
  }

  /** A run that does not complete stops at its first failure: the check, with every apply done, or a change,
      which counts among those to revert. */
  ghost predicate StopsAt(run: Run, T: seq<Event>, all: seq<Change>, split: nat) {
    if run.complete then run.count == |all| else
      && T != [] && run.count <= |all|
      && (var last := T[|T| - 1];
          && !last.ok
          && if last.DidVerify? then run.count == split else run.count > 0 && last.ref == all[run.count - 1].ref)
  }

  lemma {:induction false} RunStopsAtFailure(w: World, p: Payloads, all: seq<Change>, split: nat, verified: bool, oracle: nat -> Input, i: nat)
    requires i <= |all|
    ensures StopsAt(RunFrom(w, p, all, split, verified, oracle, i), TraceFrom(w, p, all, split, verified, oracle, i), all, split)
    decreases |all| - i
  {
    hide Exec;
    if i < |all| && !(i == split && !verified) {
      var s := Exec(w, p, all[i], oracle(i));
      if s.ok { RunStopsAtFailure(s.world, p, all, split, verified, oracle, i + 1); }
    }
  }

  /** `x` was changed after `y`. */
  ghost predicate ChangedAfter(done: seq<Change>, x: Ref, y: Ref) {
    exists a, b :: 0 <= b < a < |done| && done[a].ref == x && done[b].ref == y
  }

  /** Exactly what was changed, references aside, and the later change first. */
  ghost predicate Backwards(done: seq<Change>, order: seq<Ref>) {
    && (forall r :: r in order <==> Reverts(done, r))
    && (forall i, j :: 0 <= i < j < |order| ==> ChangedAfter(done, order[i], order[j]))
  }

  /** A rollback, whatever fails in it, reverts exactly what was changed, the later change first. */
  lemma {:induction false} RollbackGoesBackwards(w: World, done: seq<Change>, oracle: nat -> Input, k: nat)
    ensures Backwards(done, RevertAll(w, done, oracle, k).order)
    decreases |done|
  {
    if done != [] {
      hide Reverted, InterfereAll, Backwards;
      var n := |done| - 1;
      var c, rest := done[n], done[..n];
      var order := RevertAll(w, done, oracle, k).order;
      var v := if c.action.Reference? then w else Reverted(InterfereAll(w, oracle(k).interference), c.ref, oracle(k).fault).world;
      RollbackGoesBackwards(v, rest, oracle, k + 1);
      var tail := RevertAll(v, rest, oracle, k + 1).order;
      assert order == if c.action.Reference? then tail else [c.ref] + tail;
      BackwardsExtends(rest, c, tail);
      assert rest + [c] == done;
    }
  }

  ghost predicate Reverts(done: seq<Change>, r: Ref) { exists i :: 0 <= i < |done| && done[i].ref == r && !done[i].action.Reference? }

  lemma RevertsExtends(rest: seq<Change>, c: Change, r: Ref)
    ensures Reverts(rest + [c], r) <==> Reverts(rest, r) || (c.ref == r && !c.action.Reference?)
  {
    var done := rest + [c];
    assert done[|rest|] == c && forall i :: 0 <= i < |rest| ==> done[i] == rest[i];
  }

  lemma ChangedAfterExtends(rest: seq<Change>, c: Change, x: Ref, y: Ref)
    requires ChangedAfter(rest, x, y) || (c.ref == x && Reverts(rest, y))
    ensures ChangedAfter(rest + [c], x, y)
  {
    var done := rest + [c];
    assert done[|rest|] == c && forall i :: 0 <= i < |rest| ==> done[i] == rest[i];
    if ChangedAfter(rest, x, y) {
      var a, b :| 0 <= b < a < |rest| && rest[a].ref == x && rest[b].ref == y;
      assert done[a].ref == x && done[b].ref == y;
    } else {
      var b :| 0 <= b < |rest| && rest[b].ref == y && !rest[b].action.Reference?;
      assert done[|rest|].ref == x && done[b].ref == y;
    }
  }

  lemma BackwardsExtends(rest: seq<Change>, c: Change, tail: seq<Ref>)
    requires Backwards(rest, tail)
    ensures Backwards(rest + [c], if c.action.Reference? then tail else [c.ref] + tail)
  {
    hide Reverts, ChangedAfter;
    var done, order := rest + [c], if c.action.Reference? then tail else [c.ref] + tail;
    forall r ensures r in order <==> Reverts(done, r) { RevertsExtends(rest, c, r); }
    forall i, j | 0 <= i < j < |order| ensures ChangedAfter(done, order[i], order[j]) {
      if c.action.Reference? {
        assert order[i] == tail[i] && order[j] == tail[j];
      } else {
        assert order[j] == tail[j - 1] && (i > 0 ==> order[i] == tail[i - 1]);
        assert tail[j - 1] in tail;
      }
      ChangedAfterExtends(rest, c, order[i], order[j]);
    }
  }

  /** The `Ready` case of a cast, as one value. */
  function PlanFor(recs: Records, spec: CastSpec, live: LiveLookup): seq<Planned> {
    PlanOf(spec.id.name, spec.desired, Get(recs, spec.id), live, spec.adopt)
  }

  lemma PreparedFromPlan(recs: Records, spec: CastSpec, live: LiveLookup, admitted: bool, saved: bool)
    ensures var q, plan := Prepare(recs, spec, live, admitted, saved), PlanFor(recs, spec, live);
            q.Ready? ==>
              && admitted && saved && IsApplyable(plan)
              && q.applies == AppliesOf(plan) && q.prunes == PrunesOf(plan)
              && (spec.detach ==> q.prunes == [])
              && q.prev == Get(recs, spec.id) && q.rel.owns == OwnedRefs(plan) && q.rel.status == Pending
              && q.records == recs[spec.id := q.rel]
  {
  }

  /** Why a cast is rejected: each reason exactly when it applies and none before it does. */
  lemma RejectionsAreExact(w: World, recs: Records, spec: CastSpec, p: Payloads, live: LiveLookup, fate: Fate)
    ensures var o, owns := Cast(w, recs, spec, p, live, fate).outcome, OwnsOf(Get(recs, spec.id));
            var unread := LookupErrs(spec.desired, owns, live);
            var conflict := exists i :: 0 <= i < |PlanFor(recs, spec, live)| && PlanFor(recs, spec, live)[i].conflict.Some?;
            var drops := spec.detach && exists r :: r in owns && r !in spec.desired;
            && (o == NotStarted(LookupFailed) <==> unread)
            && (o == NotStarted(NotAdmitted) <==> !unread && !fate.admitted)
            && (o == NotStarted(Conflicts) <==> !unread && fate.admitted && conflict)
            && (o == NotStarted(DetachWouldPrune) <==> !unread && fate.admitted && !conflict && drops)
            && (o == NotStarted(PendingNotSaved) <==> !unread && fate.admitted && !conflict && !drops && !fate.pendingSaved)
  {
    hide RunFrom, TraceFrom, RevertAll, PlanOf, AppliesOf, PrunesOf, OwnedRefs, ReferencedRefs;
    PrunesIffDrops(recs, spec, live);
  }

  lemma PrunesIffDrops(recs: Records, spec: CastSpec, live: LiveLookup)
    ensures PrunesOf(PlanFor(recs, spec, live)) != [] <==> exists r :: r in OwnsOf(Get(recs, spec.id)) && r !in spec.desired
  {
    var plan, prev := PlanFor(recs, spec, live), Get(recs, spec.id);
    ExecutionListIsOrdered(plan);
    PlanIsExact(spec.id.name, spec.desired, prev, live, spec.adopt);
    hide PlanOf, AppliesOf, PrunesOf, OwnedRefs, Plans, PrunesLast, MayApplyFirst, MayPruneFirst;
    var prunes: seq<Change> := PrunesOf(plan);
    if prunes != [] { assert prunes[0] in prunes && prunes[0] == Change(prunes[0].ref, Prune); }
    if r :| r in OwnsOf(prev) && r !in spec.desired { assert Change(r, Prune) in prunes; }
  }

  /** The desired references that are, or are not, of a shared kind, in order. */
  function Shared(desired: seq<Ref>, shared: bool): seq<Ref> {
    if desired == [] then []
    else
      var rest := Shared(desired[1..], shared);
      if (desired[0].kind.Namespace? || desired[0].kind.StorageClass?) == shared then [desired[0]] + rest else rest
  }

  lemma {:induction false} PartsConcat(a: seq<Planned>, b: seq<Planned>)
    ensures OwnedRefs(a + b) == OwnedRefs(a) + OwnedRefs(b) && ReferencedRefs(a + b) == ReferencedRefs(a) + ReferencedRefs(b)
  {
    if a == [] {
      assert a + b == b;
    } else {
      assert (a + b)[0] == a[0] && (a + b)[1..] == a[1..] + b;
      PartsConcat(a[1..], b);
    }
  }

  lemma {:induction false} PrunesTakeNothing(refs: seq<Ref>)
    ensures OwnedRefs(PlanPrunes(refs)) == [] && ReferencedRefs(PlanPrunes(refs)) == []
  {
    if refs != [] {
      PrunesTakeNothing(refs[1..]);
      assert PlanPrunes(refs)[1..] == PlanPrunes(refs[1..]);
    }
  }

  lemma {:induction false} DesiredParts(release: string, owns: seq<Ref>, desired: seq<Ref>, live: LiveLookup, adopt: bool)
    ensures var plan := PlanDesired(release, owns, desired, live, adopt);
            OwnedRefs(plan) == Shared(desired, false) && ReferencedRefs(plan) == Shared(desired, true)
  {
    if desired != [] {
      DesiredParts(release, owns, desired[1..], live, adopt);
      OneTakes(release, desired[0] in owns, desired[0], live(desired[0]), adopt);
      hide PlanOne;
      assert PlanDesired(release, owns, desired, live, adopt)[1..] == PlanDesired(release, owns, desired[1..], live, adopt);
    }
  }

  lemma OneTakes(release: string, owned: bool, r: Ref, live: Option<LiveState>, adopt: bool)
    ensures var c := PlanOne(release, owned, r, live, adopt).change;
            c.ref == r && (c.action.Reference? <==> IsSharedClusterKind(r.kind)) && (Takes(c.action) <==> !IsSharedClusterKind(r.kind))
  {
  }

  /** The plan takes the desired references in order, except those of a shared kind, to which it refers. */
  lemma PlanTakesInOrder(release: string, desired: seq<Ref>, current: Option<Release>, live: LiveLookup, adopt: bool)
    ensures var plan := PlanOf(release, desired, current, live, adopt);
            OwnedRefs(plan) == Shared(desired, false) && ReferencedRefs(plan) == Shared(desired, true)
  {
    hide OwnedRefs, ReferencedRefs, PlanDesired, PlanPrunes, Dropped, Shared;
    var owns := OwnsOf(current);
    DesiredParts(release, owns, desired, live, adopt);
    PrunesTakeNothing(Dropped(owns, desired));
    PartsConcat(PlanDesired(release, owns, desired, live, adopt), PlanPrunes(Dropped(owns, desired)));
  }

  function RevisionAfter(prev: Option<Release>): int { if prev.Some? then prev.value.revision + 1 else 1 }

  function ReferencesOf(current: Option<Release>): seq<Ref> { if current.Some? then current.value.references else [] }

  /** What every cast leaves in the release's record.  A rejected cast leaves it alone.  Any other raises the
      revision by one, and says Deployed if and only if every step succeeded and the outcome was saved, Failed
      if it was saved and something went wrong, and Pending if it was not saved.  It lists what is desired
      as owned, or as referred to where the kind is shared, except that a complete and saved rollback puts both lists back. */
  lemma CastIsRecorded(w: World, recs: Records, spec: CastSpec, p: Payloads, live: LiveLookup, fate: Fate)
    ensures var c, prev := Cast(w, recs, spec, p, live, fate), Get(recs, spec.id);
            && (c.outcome.NotStarted? ==> c.records == recs)
            && (!c.outcome.NotStarted? ==>
                  && spec.id in c.records && (forall id :: id != spec.id ==> Get(c.records, id) == Get(recs, id))
                  && c.records[spec.id].revision == RevisionAfter(prev)
                  && c.records[spec.id].status == (if !c.saved then Pending else if c.outcome.IsDeployed? then Deployed else Failed)
                  && (if c.outcome.RolledBack? && c.saved
                      then c.records[spec.id].owns == OwnsOf(prev) && c.records[spec.id].references == ReferencesOf(prev)
                      else c.records[spec.id].owns == Shared(spec.desired, false) && c.records[spec.id].references == Shared(spec.desired, true)))
  {
    PreparedFromPlan(recs, spec, live, fate.admitted, fate.pendingSaved);
    PlanTakesInOrder(spec.id.name, spec.desired, Get(recs, spec.id), live, spec.adopt);
    PreparedRecord(recs, spec, live, fate.admitted, fate.pendingSaved);
    hide Prepare, RunFrom, TraceFrom, RevertAll, PlanOf, AppliesOf, PrunesOf, OwnedRefs, ReferencedRefs, Shared;
  }

  lemma PreparedRecord(recs: Records, spec: CastSpec, live: LiveLookup, admitted: bool, saved: bool)
    ensures var q, plan := Prepare(recs, spec, live, admitted, saved), PlanFor(recs, spec, live);
            q.Ready? ==> q.rel == Release(Pending, RevisionAfter(Get(recs, spec.id)), OwnedRefs(plan), ReferencedRefs(plan))
  {
    hide PlanOf, OwnedRefs, ReferencedRefs, AppliesOf, PrunesOf;
  }

  /** Main result: every cast, whatever goes wrong. */
  lemma EveryCastIsSafe(w: World, recs: Records, spec: CastSpec, p: Payloads, live: LiveLookup, fate: Fate)
    ensures var r := Cast(w, recs, spec, p, live, fate);
            && (r.outcome.NotStarted? ==> r.world == w && r.records == recs && r.trace == [])
            && SafeTrace(r.trace)
            && (spec.detach ==> forall t :: 0 <= t < |r.trace| ==> !r.trace[t].DidPrune?)
            && ((exists u :: 0 <= u < |r.trace| && r.trace[u].DidPrune?) ==>
                  forall d :: d in spec.desired ==> DidApply(d, true) in r.trace)
            && (r.outcome.IsDeployed? ==>
                  && DidVerify(true) in r.trace
                  && (forall d :: d in spec.desired ==> DidApply(d, true) in r.trace)
                  && (forall d :: d in OwnsOf(Get(recs, spec.id)) && d !in spec.desired ==> DidPrune(d, true) in r.trace))
            && (spec.id in r.records && r.records[spec.id].status.Deployed? && !r.outcome.NotStarted? ==> r.outcome.IsDeployed?)
  {
    var q := Prepare(recs, spec, live, fate.admitted, fate.pendingSaved);
    var r := Cast(w, recs, spec, p, live, fate);
    PreparedFromPlan(recs, spec, live, fate.admitted, fate.pendingSaved);
    hide Prepare, RunFrom, TraceFrom, RevertAll, PlanOf, AppliesOf, PrunesOf, SafeTrace, FollowsPlan, Plans, Succeeds;
    if q.Ready? {
      var plan, all, split := PlanFor(recs, spec, live), q.applies + q.prunes, |q.applies|;
      var start := w.(pre := map[]);
      ExecutionListIsOrdered(plan);
      TraceFollowsPlan(start, p, all, split, fate.verified, fate.oracle, 0);
      FollowingIsSafe(r.trace, q.applies, q.prunes);
      PlanIsExact(spec.id.name, spec.desired, Get(recs, spec.id), live, spec.adopt);
      TraceCoversPlan(r.trace, plan, spec, Get(recs, spec.id), live);
      if spec.detach { NoPrunesInTrace(r.trace, all, split); }
      if r.outcome.IsDeployed? { SucceedsVerifies(r.trace, all, split); }
    } else {
      EmptyTraceIsSafe();
    }
  }

  lemma EmptyTraceIsSafe()
    ensures SafeTrace([])
  {
  }

  lemma SucceedsVerifies(T: seq<Event>, all: seq<Change>, split: nat)
    requires split <= |all| && FollowsPlan(T, all, split, 0) && Succeeds(T, all, 0)
    ensures DidVerify(true) in T
  {
    assert T[split] == DidVerify(true);
  }

  lemma NoPrunesInTrace(T: seq<Event>, all: seq<Change>, split: nat)
    requires split == |all| && FollowsPlan(T, all, split, 0)
    ensures forall t :: 0 <= t < |T| ==> !T[t].DidPrune?
  {
    forall t | 0 <= t < |T| ensures !T[t].DidPrune? {
      assert T[t] == Expected(all, split, t, T[t].ok);
    }
  }

  lemma TraceCoversPlan(T: seq<Event>, plan: seq<Planned>, spec: CastSpec, prev: Option<Release>, live: LiveLookup)
    requires plan == PlanOf(spec.id.name, spec.desired, prev, live, spec.adopt)
    requires FollowsPlan(T, AppliesOf(plan) + PrunesOf(plan), |AppliesOf(plan)|, 0)
    ensures Succeeds(T, AppliesOf(plan) + PrunesOf(plan), 0) || (exists u :: 0 <= u < |T| && T[u].DidPrune?) ==>
              forall d :: d in spec.desired ==> DidApply(d, true) in T
    ensures Succeeds(T, AppliesOf(plan) + PrunesOf(plan), 0) ==>
              forall d :: d in OwnsOf(prev) && d !in spec.desired ==> DidPrune(d, true) in T
  {
    PlanIsExact(spec.id.name, spec.desired, prev, live, spec.adopt);
    ExecutionListIsOrdered(plan);
    var all, split := AppliesOf(plan) + PrunesOf(plan), |AppliesOf(plan)|;
    hide PlanOf, AppliesOf, PrunesOf, FollowsPlan, OwnedRefs, Succeeds, AppliesBefore, PrunesBefore, Sorted;
    if Succeeds(T, all, 0) || exists u :: 0 <= u < |T| && T[u].DidPrune? {
      forall d | d in spec.desired ensures DidApply(d, true) in T {
        var k :| 0 <= k < |spec.desired| && spec.desired[k] == d;
        assert Plans(plan, plan[k].change);
        assert plan[k].change in all;
        PassedChangesSucceeded(T, all, split, plan[k].change);
      }
    }
    if Succeeds(T, all, 0) {
      forall d | d in OwnsOf(prev) && d !in spec.desired ensures DidPrune(d, true) in T {
        assert Change(d, Prune) in all;
        PassedChangesSucceeded(T, all, split, Change(d, Prune));
      }
    }
  }
}
