/** BuildPlan: the three-way reconcile between the desired set, the recorded ownership and the live
    cluster, and the two read-only scans that admit a plan. */
module Planning {
  import opened Common
  import opened Services
  import opened Resources
  import opened Execution
  import ServerState

  /** What the live lookup reports of a resource. */
  datatype LiveState = LiveState(found: bool, owner: Option<OwnedBy>)

  /** A conflict carries the owner found on the live resource. */
  datatype Conflict = Conflict(owner: Option<OwnedBy>)

  datatype Planned = Planned(change: Change, conflict: Option<Conflict>)

  /** The release record.  `revision` counts casts. */
  datatype Status = Pending | Deployed | Failed | Uninstalling | Uninstalled
  datatype Release = Release(status: Status, revision: int, owns: seq<Ref>, references: seq<Ref>)

  /** The live lookup: a read error is reported as "does not exist". */
  function Lookup(w: World, r: Ref, readFails: bool): LiveState {
    if readFails then LiveState(false, None)
    else if r.kind.Service? then
      if r in w.services then LiveState(true, ServerState.OwnerOf(w.services[r])) else LiveState(false, None)
    else if IsDurable(r.kind) then
      if r in w.durables then LiveState(true, w.durables[r].owner) else LiveState(false, None)
    else LiveState(false, None)
  }

  predicate OwnedByRelease(o: Option<OwnedBy>, release: string) { o.Some? && o.value.release == release }

  /** The lookup interface: None is an error, which aborts planning. */
  type LiveLookup = Ref -> Option<LiveState>

  function PlanOne(release: string, owned: bool, r: Ref, live: Option<LiveState>, adopt: bool): Planned {
    if IsSharedClusterKind(r.kind) then Planned(Change(r, Reference), None)
    else if owned then Planned(Change(r, Update), None)
    else if live.None? || !live.value.found then Planned(Change(r, Create), None)
    else if OwnedByRelease(live.value.owner, release) then Planned(Change(r, Update), None)
    else if adopt then Planned(Change(r, Adopt), None)
    else Planned(Change(r, Adopt), Some(Conflict(live.value.owner)))
  }

  function PlanDesired(release: string, owns: seq<Ref>, desired: seq<Ref>, live: LiveLookup, adopt: bool): (p: seq<Planned>)
    ensures |p| == |desired|
    ensures forall i :: 0 <= i < |desired| ==> p[i] == PlanOne(release, desired[i] in owns, desired[i], live(desired[i]), adopt)
  {
    if desired == [] then []
    else [PlanOne(release, desired[0] in owns, desired[0], live(desired[0]), adopt)] + PlanDesired(release, owns, desired[1..], live, adopt)
  }

  /** The recorded references that are no longer desired, in recorded order. */
  function Dropped(owns: seq<Ref>, desired: seq<Ref>): (d: seq<Ref>)
    ensures forall r :: r in d <==> r in owns && r !in desired
  {
    if owns == [] then []
    else
      var rest := Dropped(owns[1..], desired);
      assert owns == [owns[0]] + owns[1..];
      if owns[0] in desired then rest else [owns[0]] + rest
  }

  function PlanPrunes(refs: seq<Ref>): (p: seq<Planned>)
    ensures |p| == |refs|
    ensures forall i :: 0 <= i < |refs| ==> p[i] == Planned(Change(refs[i], Prune), None)
  {
    if refs == [] then [] else [Planned(Change(refs[0], Prune), None)] + PlanPrunes(refs[1..])
  }

  function OwnsOf(current: Option<Release>): seq<Ref> { if current.Some? then current.value.owns else [] }

  function PlanOf(release: string, desired: seq<Ref>, current: Option<Release>, live: LiveLookup, adopt: bool): seq<Planned> {
    var owns := OwnsOf(current);
    PlanDesired(release, owns, desired, live, adopt) + PlanPrunes(Dropped(owns, desired))
  }

  /** Planning fails exactly when some desired reference needs a lookup and the lookup errors. */
  ghost predicate LookupErrs(desired: seq<Ref>, owns: seq<Ref>, live: LiveLookup) {
    exists i :: 0 <= i < |desired| && !IsSharedClusterKind(desired[i].kind) && desired[i] !in owns && live(desired[i]).None?
  }

  method BuildPlan(release: string, desired: seq<Ref>, current: Option<Release>, live: LiveLookup, adopt: bool)
    returns (plan: Option<seq<Planned>>)
    ensures plan.None? <==> LookupErrs(desired, OwnsOf(current), live)
    ensures plan.Some? ==> plan.value == PlanOf(release, desired, current, live, adopt)
  {
    var owned := Index(OwnsOf(current));
    var changes: seq<Planned> := [];
    var desiredKeys: set<Ref> := {};
    for i := 0 to |desired|
      invariant |changes| == i
      invariant forall k :: 0 <= k < i ==> changes[k] == PlanOne(release, desired[k] in owned, desired[k], live(desired[k]), adopt)
      invariant forall k :: 0 <= k < i ==> desired[k] in desiredKeys
      invariant forall r :: r in desiredKeys ==> r in desired
      invariant forall k :: 0 <= k < i && !IsSharedClusterKind(desired[k].kind) && desired[k] !in owned ==> live(desired[k]).Some?
    {
      var ref := desired[i];
      desiredKeys := desiredKeys + {ref};
      if IsSharedClusterKind(ref.kind) {
        changes := changes + [Planned(Change(ref, Reference), None)];
      } else if ref in owned {
        changes := changes + [Planned(Change(ref, Update), None)];
      } else {
        var state := live(ref);
        if state.None? { return None; }
        if !state.value.found {
          changes := changes + [Planned(Change(ref, Create), None)];
        } else if OwnedByRelease(state.value.owner, release) {
          changes := changes + [Planned(Change(ref, Update), None)];
        } else if adopt {
          changes := changes + [Planned(Change(ref, Adopt), None)];
        } else {
          changes := changes + [Planned(Change(ref, Adopt), Some(Conflict(state.value.owner)))];
        }
      }
    }
    assert changes == PlanDesired(release, OwnsOf(current), desired, live, adopt);
    changes := PrunePart(changes, OwnsOf(current), desired, desiredKeys);
    return Some(changes);
  }

  /** The index of recorded references that BuildPlan starts from. */
  method Index(owns: seq<Ref>) returns (owned: set<Ref>)
    ensures forall r :: r in owned <==> r in owns
  {
    owned := {};
    for i := 0 to |owns|
      invariant forall r :: r in owned <==> r in owns[..i]
    {
      owned := owned + {owns[i]};
      assert owns[..i + 1] == owns[..i] + [owns[i]];
    }
    assert owns[..|owns|] == owns;
  }

  /** The prune loop of BuildPlan. */
  method PrunePart(start: seq<Planned>, owns: seq<Ref>, desired: seq<Ref>, desiredKeys: set<Ref>) returns (changes: seq<Planned>)
    requires forall r :: r in desiredKeys <==> r in desired
    ensures changes == start + PlanPrunes(Dropped(owns, desired))
  {
    changes := start;
    var i := 0;
    while i < |owns|
      invariant 0 <= i <= |owns|
      invariant changes + PlanPrunes(Dropped(owns[i..], desired)) == start + PlanPrunes(Dropped(owns, desired))
    {
      assert owns[i..][1..] == owns[i + 1..];
      if owns[i] !in desiredKeys {
        changes := changes + [Planned(Change(owns[i], Prune), None)];
        assert Dropped(owns[i..], desired) == [owns[i]] + Dropped(owns[i + 1..], desired);
        assert ([owns[i]] + Dropped(owns[i + 1..], desired))[1..] == Dropped(owns[i + 1..], desired);
      }
      i := i + 1;
    }
  }

  method Applyable(plan: seq<Planned>) returns (ok: bool)
    ensures ok <==> forall i :: 0 <= i < |plan| ==> plan[i].conflict.None?
  {
    for i := 0 to |plan|
      invariant forall k :: 0 <= k < i ==> plan[k].conflict.None?
    {
      if plan[i].conflict.Some? { return false; }
    }
    return true;
  }

  method HasPrune(plan: seq<Planned>) returns (found: bool)
    ensures found <==> exists i :: 0 <= i < |plan| && plan[i].change.action.Prune?
  {
    for i := 0 to |plan|
      invariant forall k :: 0 <= k < i ==> !plan[k].change.action.Prune?
    {
      if plan[i].change.action.Prune? { return true; }
    }
    return false;
  }
}
