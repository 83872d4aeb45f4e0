/** Uninstall: prune everything the release owns, services first and volumes last, then close the
    record.  Includes the in-place insertion sort that orders the deletions. */
module Uninstalling {
  import opened Common
  import opened Services
  import opened Resources
  import opened ServerState
  import opened Execution
  import opened Planning
  import opened Reconcile

  function DeletionRank(k: Kind): nat {
    match k
    case Service => 0
    case Secret => 1
    case Configmap => 2
    case Volume => 3
    case _ => 4
  }

  /** The order promised: services, secrets, configmaps, volumes, and then the rest. */
  predicate GoesBefore(a: Kind, b: Kind) {
    match a
    case Service => !b.Service?
    case Secret => !b.Service? && !b.Secret?
    case Configmap => b.Volume? || !IsManaged(b)
    case Volume => !IsManaged(b)
    case _ => false
  }

  predicate DeletesBefore(a: Ref, b: Ref) { DeletionRank(a.kind) < DeletionRank(b.kind) }

  /** Where the element at `j` of `s` ends up when it is moved left past every larger element. */
  function Sunk(s: seq<Ref>, x: Ref): seq<Ref> {
    if s == [] || !DeletesBefore(x, s[|s| - 1]) then s + [x]
    else Sunk(s[..|s| - 1], x) + [s[|s| - 1]]
  }

  lemma {:induction false} SunkKeepsElements(s: seq<Ref>, x: Ref)
    ensures multiset(Sunk(s, x)) == multiset(s) + multiset{x}
  {
    if s == [] || !DeletesBefore(x, s[|s| - 1]) {
    } else {
      SunkKeepsElements(s[..|s| - 1], x);
      assert s == s[..|s| - 1] + [s[|s| - 1]];
    }
  }

  lemma {:induction false} SunkKeepsSorted(s: seq<Ref>, x: Ref)
    requires Sorted(DeletesBefore, s)
    ensures Sorted(DeletesBefore, Sunk(s, x))
  {
    if s == [] || !DeletesBefore(x, s[|s| - 1]) {
    } else {
      var init, last := s[..|s| - 1], s[|s| - 1];
      SunkKeepsSorted(init, x);
      SunkKeepsElements(init, x);
      SameElements(Sunk(init, x), init + [x]);
      forall i | 0 <= i < |Sunk(init, x)| ensures !DeletesBefore(last, Sunk(init, x)[i]) {
        assert Sunk(init, x)[i] in init + [x];
      }
    }
  }

  /** Deletion order: each recorded reference in turn sinks to its place. */
  function DeletionOrder(owns: seq<Ref>): seq<Ref> {
    if owns == [] then [] else Sunk(DeletionOrder(owns[..|owns| - 1]), owns[|owns| - 1])
  }

  lemma NothingIsSorted()
    ensures Sorted(DeletesBefore, [])
  {
  }

  /** It deletes services first, then secrets, configmaps and volumes, and forgets nothing. */
  lemma {:induction false} DeletionOrderSorts(owns: seq<Ref>)
    ensures multiset(DeletionOrder(owns)) == multiset(owns) && Sorted(DeletesBefore, DeletionOrder(owns))
    ensures forall i, j :: 0 <= i < j < |DeletionOrder(owns)| ==> !GoesBefore(DeletionOrder(owns)[j].kind, DeletionOrder(owns)[i].kind)
  {
    SortsByKind(owns);
    var order := DeletionOrder(owns);
    hide DeletionOrder;
    assert forall i, j :: 0 <= i < j < |order| ==> !DeletesBefore(order[j], order[i]);
  }

  lemma {:induction false} SortsByKind(owns: seq<Ref>)
    ensures multiset(DeletionOrder(owns)) == multiset(owns) && Sorted(DeletesBefore, DeletionOrder(owns))
  {
    hide Sunk, Sorted;
    if owns == [] {
      NothingIsSorted();
    } else {
      var init, x := owns[..|owns| - 1], owns[|owns| - 1];
      SortsByKind(init);
      SunkKeepsElements(DeletionOrder(init), x);
      SunkKeepsSorted(DeletionOrder(init), x);
      assert owns == init + [x];
    }
  }

  function OfKind(refs: seq<Ref>, k: Kind): seq<Ref> {
    if refs == [] then []
    else
      var init, last := OfKind(refs[..|refs| - 1], k), refs[|refs| - 1];
      if last.kind == k then init + [last] else init
  }

  lemma {:induction false} SunkKeepsKind(s: seq<Ref>, x: Ref, k: Kind)
    ensures OfKind(Sunk(s, x), k) == OfKind(s, k) + (if x.kind == k then [x] else [])
  {
    if s == [] || !DeletesBefore(x, s[|s| - 1]) {
      assert (s + [x])[..|s|] == s;
    } else {
      var init, last := s[..|s| - 1], s[|s| - 1];
      SunkKeepsKind(init, x, k);
      assert (Sunk(init, x) + [last])[..|Sunk(init, x)|] == Sunk(init, x);
    }
  }

  /** References of one kind keep their recorded order. */
  lemma {:induction false} DeletionOrderIsStable(owns: seq<Ref>, k: Kind)
    ensures OfKind(DeletionOrder(owns), k) == OfKind(owns, k)
  {
    if owns != [] {
      DeletionOrderIsStable(owns[..|owns| - 1], k);
      SunkKeepsKind(DeletionOrder(owns[..|owns| - 1]), owns[|owns| - 1], k);
    }
  }

  lemma {:induction false} SunkAt(s: seq<Ref>, x: Ref, j: nat)
    requires j <= |s| && (forall k :: j <= k < |s| ==> DeletesBefore(x, s[k]))
    requires j > 0 ==> !DeletesBefore(x, s[j - 1])
    ensures Sunk(s, x) == s[..j] + [x] + s[j..]
  {
    if j < |s| {
      var init := s[..|s| - 1];
      SunkAt(init, x, j);
      assert init[..j] == s[..j] && init[j..] + [s[|s| - 1]] == s[j..];
    }
  }

  /** reverseDependencyOrder: a copy, then an insertion sort by adjacent swaps. */
  method ReverseDependencyOrder(refs: seq<Ref>) returns (order: seq<Ref>)
    ensures order == DeletionOrder(refs)
  {
    hide Sunk;
    var a := new Ref[|refs|](i requires 0 <= i < |refs| => refs[i]);
    var i := 0;
    while i < a.Length
      invariant 0 <= i <= a.Length
      invariant a[..i] == DeletionOrder(refs[..i])
      invariant forall k :: i <= k < a.Length ==> a[k] == refs[k]
    {
      OrderGrows(refs, i);
      SinkLast(a, i);
      i := i + 1;
    }
    assert refs[..i] == refs && a[..i] == a[..];
    order := a[..];
  }

  lemma OrderGrows(refs: seq<Ref>, i: nat)
    requires i < |refs|
    ensures DeletionOrder(refs[..i + 1]) == Sunk(DeletionOrder(refs[..i]), refs[i])
  {
    hide Sunk;
    assert refs[..i + 1][..i] == refs[..i];
  }

  /** The inner loop: moves `a[i]` left past every element that deletes after it. */
  method SinkLast(a: array<Ref>, i: nat)
    requires i < a.Length
    modifies a
    ensures a[..i + 1] == Sunk(old(a[..i]), old(a[i]))
    ensures forall k :: i < k < a.Length ==> a[k] == old(a[k])
  {
    ghost var head, x := a[..i], a[i];
    var j := i;
    while j > 0 && DeletesBefore(a[j], a[j - 1])
      invariant 0 <= j <= i && a[j] == x
      invariant forall k :: 0 <= k < j ==> a[k] == head[k]
      invariant forall k :: j <= k < i ==> DeletesBefore(x, head[k])
      invariant forall k :: j < k <= i ==> a[k] == head[k - 1]
      invariant forall k :: i < k < a.Length ==> a[k] == old(a[k])
    {
      a[j], a[j - 1] := a[j - 1], a[j];
      j := j - 1;
    }
    SunkAt(head, x, j);
    assert a[..i + 1] == head[..j] + [x] + head[j..];
  }

  /** The prunes of an uninstall: the deletion order, without the volumes that are to be kept. */
  function Removals(order: seq<Ref>, keepVolumes: bool): (cs: seq<Change>)
    ensures forall i :: 0 <= i < |cs| ==> cs[i].action.Prune? && cs[i].ref in order && !(keepVolumes && cs[i].ref.kind.Volume?)
    ensures forall r :: r in order && !(keepVolumes && r.kind.Volume?) ==> Change(r, Prune) in cs
  {
    if order == [] then []
    else
      var rest := Removals(order[1..], keepVolumes);
      if keepVolumes && order[0].kind.Volume? then rest else [Change(order[0], Prune)] + rest
  }

  datatype Uninstall = Uninstall(world: World, records: Records, ok: bool)

  /** `marked` and `closed` say whether the two record writes succeed. */
  function UninstallRelease(w: World, recs: Records, id: ReleaseId, keepVolumes: bool, purge: bool,
                            admitted: bool, marked: bool, closed: bool, oracle: nat -> Input): Uninstall
  {
    if id !in recs || !admitted then Uninstall(w, recs, false)
    else
      var rel := recs[id];
      var recs1 := if marked then recs[id := rel.(status := Uninstalling)] else recs;
      var cs := Removals(DeletionOrder(rel.owns), keepVolumes);
      var run := RunFrom(w.(pre := map[]), NoPayloads(id.name), cs, 0, true, oracle, 0);
      if !run.complete || !closed then Uninstall(run.world, recs1, false)
      else if purge then Uninstall(run.world, recs1 - {id}, true)
      else Uninstall(run.world, recs1[id := rel.(owns := [], status := Uninstalled)], true)
  }

  /** What an uninstall leaves in the records.  One that is refused leaves them alone, and the records of other
      releases are never touched.  A completed one, which it is only if
      the closing write succeeds, removes the record if and only if it was asked to purge, and
      otherwise leaves it Uninstalled and owning nothing; one that failed on the way leaves it as it was, marked
      Uninstalling if that write succeeded. */
  lemma UninstallIsRecorded(w: World, recs: Records, id: ReleaseId, keepVolumes: bool, purge: bool,
                            admitted: bool, marked: bool, closed: bool, oracle: nat -> Input)
    ensures var u := UninstallRelease(w, recs, id, keepVolumes, purge, admitted, marked, closed, oracle);
            && (forall x :: x != id ==> Get(u.records, x) == Get(recs, x))
            && (id !in recs || !admitted ==> u.records == recs && u.world == w && !u.ok)
            && (id in recs && admitted ==>
                  && (u.ok ==> closed && (id !in u.records <==> purge))
                  && (id in u.records && u.ok ==> u.records[id] == recs[id].(owns := [], status := Uninstalled))
                  && (!u.ok ==> Get(u.records, id) == Some(if marked then recs[id].(status := Uninstalling) else recs[id])))
  {
    hide RunFrom, DeletionOrder, Removals;
  }

  function NoPayloads(name: string): Payloads { Payloads(map[], map[], OwnedBy(name, 0)) }
}
