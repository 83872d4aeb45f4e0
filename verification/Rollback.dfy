/** Atomic rollback over the whole cluster, for every plan, every failure point and every fault and
    interference input. */
module Rollback {
  import opened Common
  import opened Services
  import opened Resources
  import opened ServerState
  import opened Execution
  import opened Restoration

  /** Resource `r` of `after` is back to what it was in `before`. */
  ghost predicate Restored(before: World, after: World, r: Ref) {
    if r.kind.Service? then ServiceRestored(Get(before.services, r), Get(after.services, r))
    else if IsDurable(r.kind) then DurableRestored(r.kind, Get(before.durables, r), Get(after.durables, r))
    else true
  }

  /** `r` was there before the cast, and not already being torn down. */
  ghost predicate WasLive(before: World, r: Ref) {
    || (r.kind.Service? && r in before.services && !Terminating(before.services[r]))
    || (IsDurable(r.kind) && r in before.durables)
  }

  /** Does executing `c` read `c.ref` in a way that takes a failed read for absence? */
  predicate ReadsBlindly(p: Payloads, c: Change, f: Fault) {
    f.readFails && (c.action.Prune? || (IsDurable(c.ref.kind) && c.ref in p.durables))
  }

  /** The first change to `r` in `done` met a failed read. */
  ghost predicate FirstTouchBlind(p: Payloads, done: seq<Change>, oracle: nat -> Input, r: Ref) {
    exists i :: 0 <= i < |done| && done[i].ref == r && (forall j :: 0 <= j < i ==> done[j].ref != r)
                && ReadsBlindly(p, done[i], oracle(i).fault)
  }

  /** A pre-image that claims absence of something that was there. */
  ghost predicate Lies(before: World, w: World, r: Ref) {
    WasLive(before, r) && r in w.pre && !w.pre[r].existed
  }

  ghost predicate Truthful(before: World, w: World, r: Ref) {
    if r.kind.Service? then ServiceInv(Get(before.services, r), ServiceAt(w, r))
    else if IsDurable(r.kind) then DurableInv(r.kind, Get(before.durables, r), DurableAt(w, r))
    else true
  }

  ghost predicate Touches(done: seq<Change>, r: Ref) { exists i :: 0 <= i < |done| && done[i].ref == r }

  ghost predicate Blind(before: World, p: Payloads, done: seq<Change>, oracle: nat -> Input, r: Ref) {
    WasLive(before, r) && FirstTouchBlind(p, done, oracle, r)
  }

  /** Before the first prune nothing is tombstoned and no captured durable is gone. */
  ghost predicate Applying(w: World, r: Ref) {
    if r.kind.Service? then ApplyPhase(ServiceAt(w, r))
    else IsDurable(r.kind) && r in w.pre && w.pre[r].existed ==> r in w.durables
  }

  /** Deleted, or on its way out. */
  ghost predicate Gone(w: World, r: Ref) {
    if r.kind.Service? then r !in w.services || Terminating(w.services[r]) else r !in w.durables
  }

  /** Invariant of slot `r` once `done` has run.  A resource that was misread is either on its way out
      or as it was. */
  ghost predicate SlotInv(before: World, p: Payloads, done: seq<Change>, oracle: nat -> Input, w: World, r: Ref) {
    && (r in w.pre ==> Touches(done, r))
    && (if Blind(before, p, done, oracle, r) then Lies(before, w, r) && (Gone(w, r) || Restored(before, w, r))
        else Truthful(before, w, r))
  }

  /** As long as no change has failed, everything touched has a pre-image, and what was misread has been
      pruned. */
  ghost predicate OnCourse(before: World, p: Payloads, done: seq<Change>, oracle: nat -> Input, w: World, r: Ref) {
    && (Touches(done, r) && IsManaged(r.kind) ==> r in w.pre)
    && (Blind(before, p, done, oracle, r) ==> Gone(w, r))
  }

  /** Before the first prune nothing has been misread either. */
  ghost predicate StillApplying(before: World, p: Payloads, done: seq<Change>, oracle: nat -> Input, w: World, r: Ref) {
    Applying(w, r) && !Blind(before, p, done, oracle, r)
  }

  /** References name shared kinds, and only prunes come after `split`. */
  ghost predicate WellFormed(all: seq<Change>, split: nat) {
    && split <= |all|
    && (forall i :: 0 <= i < |all| && all[i].action.Reference? ==> !IsManaged(all[i].ref.kind))
    && (forall i :: 0 <= i < |all| ==> (all[i].action.Prune? <==> split <= i))
  }

  lemma {:induction false} InterferenceFrame(before: World, w: World, es: seq<Interference>, r: Ref)
    ensures var v := InterfereAll(w, es);
            && v.pre == w.pre && v.durables == w.durables
            && (Truthful(before, w, r) ==> Truthful(before, v, r))
            && (Applying(w, r) ==> Applying(v, r))
            && (Restored(before, w, r) ==> Restored(before, v, r))
    decreases |es|
  {
    if es != [] {
      var e := es[|es| - 1];
      var u := InterfereAll(w, es[..|es| - 1]);
      InterferenceFrame(before, w, es[..|es| - 1], r);
      if r.kind.Service? && r == e.ref {
        if Truthful(before, u, r) { InterferenceKeepsServiceInv(Get(before.services, r), ServiceAt(u, r), e); }
        if ServiceRestored(Get(before.services, r), Get(u.services, r)) {
          InterferenceKeepsRestored(Get(before.services, r), Get(u.services, r), e);
        }
      }
    }
  }

  /** Appending a change moves blindness only at its own, first touched, reference. */
  lemma BlindExtends(before: World, p: Payloads, done: seq<Change>, c: Change, oracle: nat -> Input, r: Ref)
    ensures Touches(done + [c], r) <==> Touches(done, r) || c.ref == r
    ensures Touches(done, r) || c.ref != r ==> (Blind(before, p, done + [c], oracle, r) <==> Blind(before, p, done, oracle, r))
    ensures !Touches(done, r) && c.ref == r ==>
              (Blind(before, p, done + [c], oracle, r) <==> WasLive(before, r) && ReadsBlindly(p, c, oracle(|done|).fault))
    ensures !Touches(done, r) ==> !Blind(before, p, done, oracle, r)
  {
    var ext := done + [c];
    assert forall i :: 0 <= i < |done| ==> ext[i] == done[i];
    assert ext[|done|] == c;
    if FirstTouchBlind(p, done, oracle, r) {
      var i :| 0 <= i < |done| && done[i].ref == r && (forall j :: 0 <= j < i ==> done[j].ref != r)
               && ReadsBlindly(p, done[i], oracle(i).fault);
      assert ext[i] == done[i];
    }
  }

  function Executed(v: World, p: Payloads, c: Change, f: Fault): Stepped {
    if c.action.Prune? then Pruned(v, c.ref, f) else Applied(v, p, c.ref, f)
  }

  /** The first touch of a live resource, with a failed read. */
  lemma BlindTouch(before: World, p: Payloads, c: Change, f: Fault, v: World)
    requires WasLive(before, c.ref) && ReadsBlindly(p, c, f) && c.ref !in v.pre && Truthful(before, v, c.ref)
    ensures var s := Executed(v, p, c, f);
            && Lies(before, s.world, c.ref) && (Gone(s.world, c.ref) || Restored(before, s.world, c.ref))
            && (s.ok ==> c.action.Prune? && Gone(s.world, c.ref))
  {
    hide Carry, Recreated, UpdatedDurable, CreatedDurable;
  }

  /** Pruning what is already going leaves it going. */
  lemma BlindAgain(before: World, p: Payloads, c: Change, f: Fault, v: World)
    requires c.action.Prune? && Lies(before, v, c.ref) && Gone(v, c.ref)
    ensures var s := Executed(v, p, c, f); Lies(before, s.world, c.ref) && Gone(s.world, c.ref)
  {
  }

  /** A truthful slot stays truthful. */
  lemma TruthfulTouch(before: World, p: Payloads, c: Change, f: Fault, v: World)
    requires Truthful(before, v, c.ref) && (!c.action.Prune? ==> Applying(v, c.ref))
    requires c.action.Reference? ==> !IsManaged(c.ref.kind)
    requires c.ref !in v.pre ==> !(WasLive(before, c.ref) && ReadsBlindly(p, c, f))
    ensures var s := Executed(v, p, c, f);
            && Truthful(before, s.world, c.ref)
            && (!c.action.Prune? ==> Applying(s.world, c.ref))
  {
    var r := c.ref;
    if r.kind.Service? {
      if c.action.Prune? { PruneKeepsServiceInv(Get(before.services, r), ServiceAt(v, r), f); }
      else { ApplyKeepsServiceInv(Get(before.services, r), ServiceAt(v, r), Get(p.services, r), p.stamp, f); }
    } else if IsDurable(r.kind) {
      if c.action.Prune? { PruneKeepsDurableInv(r.kind, Get(before.durables, r), DurableAt(v, r), f); }
      else { ApplyKeepsDurableInv(r.kind, Get(before.durables, r), DurableAt(v, r), Get(p.durables, r), p.stamp, f); }
    }
    hide Carry, Recreated, ApplyService, PruneService, ApplyDurable, PruneDurable;
  }

  /** Pre-images appear only for the reference at hand, and always if the change succeeded. */
  lemma ExecCaptures(v: World, p: Payloads, c: Change, f: Fault)
    ensures var s := Executed(v, p, c, f);
            && (c.ref in v.pre ==> c.ref in s.world.pre)
            && (s.ok && IsManaged(c.ref.kind) ==> c.ref in s.world.pre)
  {
    hide Carry, Recreated, UpdatedDurable, CreatedDurable;
  }

  /** One executed change keeps the invariant of its own slot. */
  lemma ExecKeepsOwnSlot(before: World, p: Payloads, done: seq<Change>, c: Change, oracle: nat -> Input, v: World)
    requires SlotInv(before, p, done, oracle, v, c.ref) && OnCourse(before, p, done, oracle, v, c.ref)
    requires c.action.Reference? ==> !IsManaged(c.ref.kind)
    requires !c.action.Prune? ==> StillApplying(before, p, done, oracle, v, c.ref)
    ensures var s := Executed(v, p, c, oracle(|done|).fault);
            && SlotInv(before, p, done + [c], oracle, s.world, c.ref)
            && (s.ok ==> OnCourse(before, p, done + [c], oracle, s.world, c.ref))
            && (s.ok && !c.action.Prune? ==> StillApplying(before, p, done + [c], oracle, s.world, c.ref))
  {
    var r, f := c.ref, oracle(|done|).fault;
    assert WasLive(before, r) ==> IsManaged(r.kind);
    BlindExtends(before, p, done, c, oracle, r);
    hide Truthful, Restored, Gone, Executed, Applying, Touches, Blind, ReadsBlindly, WasLive;
    ExecCaptures(v, p, c, f);
    if Blind(before, p, done, oracle, r) {
      BlindAgain(before, p, c, f, v);
    } else if !Touches(done, r) && WasLive(before, r) && ReadsBlindly(p, c, f) {
      BlindTouch(before, p, c, f, v);
    } else {
      if r !in v.pre && WasLive(before, r) { assert !Touches(done, r); }
      TruthfulTouch(before, p, c, f, v);
    }
  }

  /** ... and leaves every other slot alone. */
  lemma ExecKeepsOtherSlots(before: World, p: Payloads, done: seq<Change>, c: Change, oracle: nat -> Input, v: World, r: Ref)
    requires r != c.ref
    ensures var s := Executed(v, p, c, oracle(|done|).fault);
            && ServiceAt(s.world, r) == ServiceAt(v, r) && DurableAt(s.world, r) == DurableAt(v, r)
            && (SlotInv(before, p, done, oracle, v, r) ==> SlotInv(before, p, done + [c], oracle, s.world, r))
            && (OnCourse(before, p, done, oracle, v, r) ==> OnCourse(before, p, done + [c], oracle, s.world, r))
            && (StillApplying(before, p, done, oracle, v, r) ==> StillApplying(before, p, done + [c], oracle, s.world, r))
  {
    BlindExtends(before, p, done, c, oracle, r);
    OtherSlotsStay(p, c, oracle(|done|).fault, v, r);
    var s := Executed(v, p, c, oracle(|done|).fault);
    SameSlot(before, v, s.world, r);
    hide Executed, Truthful, Restored, Gone, Applying, Blind, Touches;
  }

  lemma OtherSlotsStay(p: Payloads, c: Change, f: Fault, v: World, r: Ref)
    requires r != c.ref
    ensures var s := Executed(v, p, c, f);
            && ServiceAt(s.world, r) == ServiceAt(v, r) && DurableAt(s.world, r) == DurableAt(v, r)
  {
    hide ApplyService, PruneService, ApplyDurable, PruneDurable;
    var s := Executed(v, p, c, f);
    assert Get(s.world.services, r) == Get(v.services, r) && Get(s.world.durables, r) == Get(v.durables, r)
        && Get(s.world.pre, r) == Get(v.pre, r);
  }

  /** Everything said of a slot depends on the slot only. */
  lemma SameSlot(before: World, v: World, w: World, r: Ref)
    requires ServiceAt(v, r) == ServiceAt(w, r) && DurableAt(v, r) == DurableAt(w, r)
    ensures Truthful(before, v, r) == Truthful(before, w, r) && Restored(before, v, r) == Restored(before, w, r)
    ensures Gone(v, r) == Gone(w, r) && Lies(before, v, r) == Lies(before, w, r) && Applying(v, r) == Applying(w, r)
    ensures Get(v.pre, r) == Get(w.pre, r) && (r in v.pre <==> r in w.pre)
  {
    assert (r in v.services <==> r in w.services) && (r in v.durables <==> r in w.durables) && (r in v.pre <==> r in w.pre);
  }

  /** The control plane's writes keep the invariant too. */
  lemma InterferenceKeepsSlot(before: World, p: Payloads, done: seq<Change>, oracle: nat -> Input, w: World, es: seq<Interference>, r: Ref)
    ensures var v := InterfereAll(w, es);
            && (SlotInv(before, p, done, oracle, w, r) ==> SlotInv(before, p, done, oracle, v, r))
            && (OnCourse(before, p, done, oracle, w, r) ==> OnCourse(before, p, done, oracle, v, r))
            && (StillApplying(before, p, done, oracle, w, r) ==> StillApplying(before, p, done, oracle, v, r))
  {
    InterferenceFrame(before, w, es, r);
    if Gone(w, r) { InterferenceKeepsGone(w, es, r); }
    hide Truthful, Restored, Gone, Applying, Blind, Touches, InterfereAll;
  }

  lemma {:induction false} RunKeepsSlot(before: World, w: World, p: Payloads, all: seq<Change>, split: nat, verified: bool,
                                        oracle: nat -> Input, i: nat, r: Ref)
    requires i <= |all| && WellFormed(all, split)
    requires SlotInv(before, p, all[..i], oracle, w, r) && OnCourse(before, p, all[..i], oracle, w, r)
    requires i <= split ==> StillApplying(before, p, all[..i], oracle, w, r)
    ensures var run := RunFrom(w, p, all, split, verified, oracle, i);
            SlotInv(before, p, all[..run.count], oracle, run.world, r)
    decreases |all| - i
  {
    hide SlotInv, OnCourse, StillApplying, Applied, Pruned;
    if (i == split && !verified) || i == |all| { return; }
    var c := all[i];
    var v := InterfereAll(w, oracle(i).interference);
    InterferenceKeepsSlot(before, p, all[..i], oracle, w, oracle(i).interference, r);
    assert |all[..i]| == i && all[..i + 1] == all[..i] + [c];
    if r == c.ref {
      ExecKeepsOwnSlot(before, p, all[..i], c, oracle, v);
    } else {
      ExecKeepsOtherSlots(before, p, all[..i], c, oracle, v, r);
    }
    var s := Exec(w, p, c, oracle(i));
    if s.ok { RunKeepsSlot(before, s.world, p, all, split, verified, oracle, i + 1, r); }
  }

  lemma {:induction false} InterferenceKeepsGone(w: World, es: seq<Interference>, r: Ref)
    requires Gone(w, r)
    ensures Gone(InterfereAll(w, es), r)
    decreases |es|
  {
    if es != [] { InterferenceKeepsGone(w, es[..|es| - 1], r); }
  }

  /** The rollback holds `r` for something that was absent. */
  predicate HeldAbsent(w: World, r: Ref) { r in w.pre && !w.pre[r].existed }

  /** Every revert of `r` meets a failed read. */
  predicate Deaf(done: seq<Change>, oracle: nat -> Input, k: nat, r: Ref) {
    done == [] ||
    (var c := done[|done| - 1];
     (c.ref == r && !c.action.Reference? ==> oracle(k).fault.readFails) && Deaf(done[..|done| - 1], oracle, k + 1, r))
  }

  /** Every revert of `r` itself reports success, whatever becomes of the others. */
  predicate Answered(w: World, done: seq<Change>, oracle: nat -> Input, k: nat, r: Ref)
    decreases |done|
  {
    done == [] ||
    (var c, rest := done[|done| - 1], done[..|done| - 1];
     if c.action.Reference? then Answered(w, rest, oracle, k + 1, r)
     else
       var s := Reverted(InterfereAll(w, oracle(k).interference), c.ref, oracle(k).fault);
       (c.ref == r ==> s.ok) && Answered(s.world, rest, oracle, k + 1, r))
  }

  lemma {:induction false} NoErrorsNoneUnanswered(w: World, done: seq<Change>, oracle: nat -> Input, k: nat, r: Ref)
    requires RevertAll(w, done, oracle, k).errors == 0
    ensures Answered(w, done, oracle, k, r)
    decreases |done|
  {
    hide Reverted;
    if done != [] {
      var c, rest := done[|done| - 1], done[..|done| - 1];
      if c.action.Reference? {
        NoErrorsNoneUnanswered(w, rest, oracle, k + 1, r);
      } else {
        NoErrorsNoneUnanswered(Reverted(InterfereAll(w, oracle(k).interference), c.ref, oracle(k).fault).world, rest, oracle, k + 1, r);
      }
    }
  }

  /** Reverting `c` as seen from `r`. */
  lemma RevertStep(before: World, v: World, c: Ref, f: Fault, r: Ref)
    requires IsManaged(r.kind)
    ensures var s := Reverted(v, c, f);
            && Get(s.world.pre, r) == Get(v.pre, r)
            && (c != r ==> ServiceAt(s.world, r) == ServiceAt(v, r) && DurableAt(s.world, r) == DurableAt(v, r))
            && (c == r && HeldAbsent(v, r) && s.ok ==>
                  if f.readFails then ServiceAt(s.world, r) == ServiceAt(v, r) && DurableAt(s.world, r) == DurableAt(v, r)
                  else Gone(s.world, r))
            && (c == r && Gone(v, r) && HeldAbsent(v, r) ==> Gone(s.world, r))
  {
    hide Rewound, Recreated, UpdatedDurable, CreatedDurable;
  }

  /** Reverting a truthful slot whose resource was there. */
  lemma RevertStepTruthful(before: World, v: World, f: Fault, r: Ref)
    requires Truthful(before, v, r) && IsManaged(r.kind) && !HeldAbsent(v, r)
    ensures var s := Reverted(v, r, f); Truthful(before, s.world, r) && (s.ok ==> Restored(before, s.world, r))
  {
    if r.kind.Service? {
      RevertRestoresService(Get(before.services, r), ServiceAt(v, r), f);
    } else {
      RevertRestoresDurable(r.kind, Get(before.durables, r), DurableAt(v, r), f);
    }
    hide RevertService, RevertDurable;
  }

  lemma TouchesSplit(done: seq<Change>, r: Ref)
    requires done != []
    ensures Touches(done, r) ==> Touches(done[..|done| - 1], r) || done[|done| - 1].ref == r
  {
    if i :| 0 <= i < |done| && done[i].ref == r && i < |done| - 1 { assert done[..|done| - 1][i] == done[i]; }
  }

  /** A resource that was there, read truthfully, is restored once its own reverts succeed. */
  lemma {:induction false} RevertAllRestores(before: World, w: World, done: seq<Change>, oracle: nat -> Input, k: nat, r: Ref)
    requires forall i :: 0 <= i < |done| && done[i].action.Reference? ==> !IsManaged(done[i].ref.kind)
    requires IsManaged(r.kind) && Truthful(before, w, r) && !HeldAbsent(w, r) && (Touches(done, r) || Restored(before, w, r))
    ensures Answered(w, done, oracle, k, r) ==> Restored(before, RevertAll(w, done, oracle, k).world, r)
    decreases |done|
  {
    hide Truthful, Restored, Reverted, Touches;
    if done == [] {
      assert !Touches(done, r) by { NothingTouched(r); }
    } else {
      var c, rest := done[|done| - 1], done[..|done| - 1];
      TouchesSplit(done, r);
      if c.action.Reference? {
        RevertAllRestores(before, w, rest, oracle, k + 1, r);
      } else {
        var v := InterfereAll(w, oracle(k).interference);
        InterferenceFrame(before, w, oracle(k).interference, r);
        var s := Reverted(v, c.ref, oracle(k).fault);
        RevertStep(before, v, c.ref, oracle(k).fault, r);
        if c.ref == r { RevertStepTruthful(before, v, oracle(k).fault, r); } else { SameSlot(before, v, s.world, r); }
        if s.ok || c.ref != r { RevertAllRestores(before, s.world, rest, oracle, k + 1, r); }
      }
    }
  }

  lemma NothingTouched(r: Ref)
    ensures !Touches([], r)
  {
  }

  lemma {:induction false} InterferenceKeepsPresent(w: World, es: seq<Interference>, r: Ref)
    requires !Gone(w, r)
    ensures !Gone(InterfereAll(w, es), r)
    decreases |es|
  {
    if es != [] { InterferenceKeepsPresent(w, es[..|es| - 1], r); }
  }

  /** A resource held for absent is removed once its own reverts succeed, unless every read of it failed;
      then it stays as it is. */
  lemma {:induction false} RevertAllRemoves(before: World, w: World, done: seq<Change>, oracle: nat -> Input, k: nat, r: Ref)
    requires forall i :: 0 <= i < |done| && done[i].action.Reference? ==> !IsManaged(done[i].ref.kind)
    requires IsManaged(r.kind) && HeldAbsent(w, r)
    ensures var b := RevertAll(w, done, oracle, k);
            && (Gone(w, r) ==> Gone(b.world, r))
            && (Answered(w, done, oracle, k, r) ==> (Gone(b.world, r) <==> Gone(w, r) || !Deaf(done, oracle, k, r)))
            && (Answered(w, done, oracle, k, r) && !Gone(b.world, r) && Restored(before, w, r) ==> Restored(before, b.world, r))
    decreases |done|
  {
    hide Truthful, Restored, Gone, Reverted;
    if done != [] {
      var c, rest := done[|done| - 1], done[..|done| - 1];
      if c.action.Reference? {
        RevertAllRemoves(before, w, rest, oracle, k + 1, r);
      } else {
        var v := InterfereAll(w, oracle(k).interference);
        InterferenceFrame(before, w, oracle(k).interference, r);
        if Gone(w, r) { InterferenceKeepsGone(w, oracle(k).interference, r); } else { InterferenceKeepsPresent(w, oracle(k).interference, r); }
        var s := Reverted(v, c.ref, oracle(k).fault);
        RevertStep(before, v, c.ref, oracle(k).fault, r);
        if ServiceAt(s.world, r) == ServiceAt(v, r) && DurableAt(s.world, r) == DurableAt(v, r) { SameSlot(before, v, s.world, r); }
        RevertAllRemoves(before, s.world, rest, oracle, k + 1, r);
      }
    }
  }

  lemma UntouchedIsRestored(before: World, w: World, r: Ref)
    requires Truthful(before, w, r) && r !in w.pre
    ensures Restored(before, w, r)
  {
  }

  lemma AbsentIsRestoredIffGone(before: World, w: World, r: Ref)
    requires IsManaged(r.kind)
    ensures WasLive(before, r) && Gone(w, r) ==> !Restored(before, w, r)
    ensures !WasLive(before, r) ==> (Restored(before, w, r) <==> Gone(w, r))
  {
  }

  lemma HeldAbsentWasNotLive(before: World, w: World, r: Ref)
    requires Truthful(before, w, r) && HeldAbsent(w, r) && IsManaged(r.kind)
    ensures !WasLive(before, r)
  {
  }

  /** The rollback passes over `r`: it is held for something that was absent, it is there, and every read
      of it fails, which the rollback takes for "never landed". */
  ghost predicate PassedOver(w: World, done: seq<Change>, revertOracle: nat -> Input, r: Ref) {
    HeldAbsent(w, r) && !Gone(w, r) && Deaf(done, revertOracle, 0, r)
  }

  /** Misread before the cast and passed over by the rollback, or neither. */
  ghost predicate ReadsAgree(before: World, p: Payloads, run: Run, done: seq<Change>, oracle: nat -> Input, revertOracle: nat -> Input, r: Ref) {
    WasLive(before, r) && FirstTouchBlind(p, done, oracle, r) <==> PassedOver(run.world, done, revertOracle, r)
  }

  /** Main result.  Whatever the plan, wherever the run stopped, whatever faults and interference run and
      rollback met: a resource whose own reverts have all reported success, even if others failed, is back
      to its pre-cast state except in two cases.  It was live and its first read in the cast failed (recorded as "was absent",
      so the rollback deletes it); or it is there without having been live before, and every read of it in
      the rollback failed (taken for "never landed", so the rollback leaves it).  If both go wrong for one
      resource, the second mistake undoes the first. */
  lemma AtomicRollback(before: World, p: Payloads, all: seq<Change>, split: nat, verified: bool,
                       oracle: nat -> Input, revertOracle: nat -> Input, r: Ref)
    requires WellFormed(all, split) && before.pre == map[] && IsManaged(r.kind)
    ensures var run := RunFrom(before, p, all, split, verified, oracle, 0);
            var done := all[..run.count];
            var back := RevertAll(run.world, done, revertOracle, 0);
            back.errors == 0 || Answered(run.world, done, revertOracle, 0, r) ==>
              (Restored(before, back.world, r) <==> ReadsAgree(before, p, run, done, oracle, revertOracle, r))
  {
    var run := RunFrom(before, p, all, split, verified, oracle, 0);
    var done := all[..run.count];
    StartsClean(before, p, oracle, r);
    assert all[..0] == [];
    RunKeepsSlot(before, before, p, all, split, verified, oracle, 0, r);
    hide RunFrom, RevertAll, Answered;
    SettledRollback(before, p, run, done, oracle, revertOracle, r);
  }

  lemma StartsClean(before: World, p: Payloads, oracle: nat -> Input, r: Ref)
    requires before.pre == map[]
    ensures SlotInv(before, p, [], oracle, before, r) && OnCourse(before, p, [], oracle, before, r)
    ensures StillApplying(before, p, [], oracle, before, r)
  {
  }

  lemma SettledRollback(before: World, p: Payloads, run: Run, done: seq<Change>, oracle: nat -> Input, revertOracle: nat -> Input, r: Ref)
    requires IsManaged(r.kind) && SlotInv(before, p, done, oracle, run.world, r)
    requires forall i :: 0 <= i < |done| && done[i].action.Reference? ==> !IsManaged(done[i].ref.kind)
    ensures var back := RevertAll(run.world, done, revertOracle, 0);
            back.errors == 0 || Answered(run.world, done, revertOracle, 0, r) ==>
              (Restored(before, back.world, r) <==> ReadsAgree(before, p, run, done, oracle, revertOracle, r))
  {
    hide Truthful, Restored, Gone, RevertAll, FirstTouchBlind, WasLive, Touches, Deaf, Answered;
    var back := RevertAll(run.world, done, revertOracle, 0);
    if back.errors == 0 { NoErrorsNoneUnanswered(run.world, done, revertOracle, 0, r); }
    if HeldAbsent(run.world, r) {
      RevertAllRemoves(before, run.world, done, revertOracle, 0, r);
      AbsentIsRestoredIffGone(before, back.world, r);
      if !Blind(before, p, done, oracle, r) { HeldAbsentWasNotLive(before, run.world, r); }
    } else {
      if r !in run.world.pre { UntouchedIsRestored(before, run.world, r); }
      RevertAllRestores(before, run.world, done, revertOracle, 0, r);
    }
  }
}
