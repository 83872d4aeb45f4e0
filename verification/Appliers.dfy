/** The applier as the object it is: it writes to the store and to its own map of pre-images, call
    by call.  Each method is proved against the corresponding step of `Execution`, so every theorem
    about runs is a theorem about these methods. */
module Appliers {
  import opened Common
  import opened Services
  import opened Resources
  import opened ServerState
  import opened Execution
  import opened Reconcile

  /** The stored records. */
  class Store {
    var services: map<Ref, Service>
    var durables: map<Ref, Durable>

    constructor (services: map<Ref, Service>, durables: map<Ref, Durable>)
      ensures this.services == services && this.durables == durables
    {
      this.services, this.durables := services, durables;
    }

    /** The control plane's own writes. */
    method Interleave(es: seq<Interference>, ghost pre: map<Ref, PreImage>)
      modifies this`services
      ensures World(services, durables, pre) == InterfereAll(World(old(services), old(durables), pre), es)
    {
      ghost var w := World(services, durables, pre);
      for i := 0 to |es|
        invariant durables == old(durables)
        invariant World(services, durables, pre) == InterfereAll(w, es[..i])
      {
        assert es[..i + 1][..i] == es[..i];
        services := Put(services, es[i].ref, Interfere(Get(services, es[i].ref), es[i]));
      }
      assert es[..|es|] == es;
    }
  }

  /** carryServerState, which overwrites the rendered record field by field. */
  method CarryServerState(stored: Service, rendered: Service) returns (next: Option<Service>)
    ensures next == Carry(stored, rendered)
  {
    hide Template, Desired, MergeDiscovery;
    if stored.meta.Some? && stored.meta.value.generation == MAX_INT64 { return None; }
    var out := rendered;
    if stored.id != "" { out := out.(id := stored.id); }
    out := out.(observed := PENDING);
    out := out.(ingressCert := stored.ingressCert);
    out := out.(discovery := MergeDiscovery(stored.discovery, out.discovery));
    var owner := OwnerOf(out);
    var metadata := NO_METADATA;
    if stored.meta.Some? { metadata := stored.meta.value; }
    metadata := metadata.(owner := owner);
    if !SameHash(stored, out) {
      metadata := metadata.(generation := metadata.generation + 1);
      if !SameTemplate(stored, out) {
        metadata := metadata.(templateGeneration := metadata.generation);
      }
    }
    if out.spec.scale > 0 { metadata := metadata.(lastNonZeroScale := out.spec.scale); }
    next := Some(out.(meta := Some(metadata)));
  }

  /** Where a run stands: after change `i`, and after the check if `checked`, the world `w` and the trace
      so far lead to the end of the run from `start`. */
  ghost predicate Stands(start: World, w: World, p: Payloads, all: seq<Change>, split: nat, verified: bool, oracle: nat -> Input,
                         trace: seq<Event>, i: nat, checked: bool)
    requires i <= |all|
  {
    && RunFrom(w, p, all, split, verified, oracle, i) == RunFrom(start, p, all, split, verified, oracle, 0)
    && trace + (if checked then StepsFrom(w, p, all, split, verified, oracle, i) else TraceFrom(w, p, all, split, verified, oracle, i))
       == TraceFrom(start, p, all, split, verified, oracle, 0)
  }

  lemma TraceGrows(trace: seq<Event>, e: Event, rest: seq<Event>)
    ensures (trace + [e]) + rest == trace + ([e] + rest)
  {
  }

  lemma Advance(start: World, w: World, p: Payloads, all: seq<Change>, split: nat, verified: bool, oracle: nat -> Input,
                trace: seq<Event>, i: nat, checked: bool)
    requires i < |all| && (if checked then split <= i && verified else i < split)
    requires Stands(start, w, p, all, split, verified, oracle, trace, i, checked)
    ensures var s := Exec(w, p, all[i], oracle(i));
            var next := trace + [EventOf(all[i], s.ok)];
            if s.ok then Stands(start, s.world, p, all, split, verified, oracle, next, i + 1, checked)
            else RunFrom(start, p, all, split, verified, oracle, 0) == Run(s.world, i + 1, false)
                 && TraceFrom(start, p, all, split, verified, oracle, 0) == next
  {
    hide Exec;
    var s := Exec(w, p, all[i], oracle(i));
    var e := EventOf(all[i], s.ok);
    assert StepsFrom(w, p, all, split, verified, oracle, i)
        == [e] + (if s.ok then TraceFrom(s.world, p, all, split, verified, oracle, i + 1) else []);
    assert !checked ==> TraceFrom(w, p, all, split, verified, oracle, i) == StepsFrom(w, p, all, split, verified, oracle, i);
    if s.ok {
      assert checked ==> TraceFrom(s.world, p, all, split, verified, oracle, i + 1) == StepsFrom(s.world, p, all, split, verified, oracle, i + 1);
      assert RunFrom(w, p, all, split, verified, oracle, i) == RunFrom(s.world, p, all, split, verified, oracle, i + 1);
      hide RunFrom, TraceFrom, StepsFrom;
      TraceGrows(trace, e, TraceFrom(s.world, p, all, split, verified, oracle, i + 1));
    } else {
      assert RunFrom(w, p, all, split, verified, oracle, i) == Run(s.world, i + 1, false);
      hide RunFrom, TraceFrom, StepsFrom;
      assert [e] + [] == [e];
    }
  }

  lemma Check(start: World, w: World, p: Payloads, all: seq<Change>, split: nat, verified: bool, oracle: nat -> Input, trace: seq<Event>)
    requires split <= |all| && Stands(start, w, p, all, split, verified, oracle, trace, split, false)
    ensures var next := trace + [DidVerify(verified)];
            if verified then Stands(start, w, p, all, split, verified, oracle, next, split, true)
            else RunFrom(start, p, all, split, verified, oracle, 0) == Run(w, split, false)
                 && TraceFrom(start, p, all, split, verified, oracle, 0) == next
  {
    hide Exec;
    TraceGrows(trace, DidVerify(verified), StepsFrom(w, p, all, split, verified, oracle, split));
    if !verified { assert trace + [DidVerify(verified)] + [] == trace + [DidVerify(verified)]; }
  }

  lemma Begins(start: World, p: Payloads, all: seq<Change>, split: nat, verified: bool, oracle: nat -> Input)
    ensures Stands(start, start, p, all, split, verified, oracle, [], 0, false)
  {
    hide RunFrom, TraceFrom;
    assert [] + TraceFrom(start, p, all, split, verified, oracle, 0) == TraceFrom(start, p, all, split, verified, oracle, 0);
  }

  lemma Ends(start: World, w: World, p: Payloads, all: seq<Change>, split: nat, oracle: nat -> Input, trace: seq<Event>)
    requires split <= |all| && Stands(start, w, p, all, split, true, oracle, trace, |all|, true)
    ensures RunFrom(start, p, all, split, true, oracle, 0) == Run(w, |all|, true)
    ensures TraceFrom(start, p, all, split, true, oracle, 0) == trace
  {
    assert RunFrom(w, p, all, split, true, oracle, |all|) == Run(w, |all|, true);
    assert StepsFrom(w, p, all, split, true, oracle, |all|) == [];
    hide RunFrom, TraceFrom, StepsFrom;
    assert trace + [] == trace;
  }

  class Applier {
    const store: Store
    const payloads: Payloads
    var pre: map<Ref, PreImage>

    constructor (store: Store, payloads: Payloads)
      ensures this.store == store && this.payloads == payloads && pre == map[]
    {
      this.store, this.payloads, pre := store, payloads, map[];
    }

    ghost function State(): World
      reads this, store
    {
      World(store.services, store.durables, pre)
    }

    /** capture: first touch wins. */
    method CaptureImage(ref: Ref, img: PreImage)
      modifies this`pre
      ensures pre == Put(old(pre), ref, Capture(Get(old(pre), ref), img))
    {
      if ref in pre { return; }
      pre := pre[ref := img];
    }

    method NoteGenerations(ref: Ref, generation: int, templateGeneration: int)
      modifies this`pre
      ensures ref !in old(pre) ==> pre == old(pre)
      ensures ref in old(pre) ==> pre == old(pre)[ref := NoteApplied(old(pre)[ref], generation, templateGeneration)]
    {
      if ref !in pre { return; }
      var pi := pre[ref];
      if generation > pi.appliedGeneration { pi := pi.(appliedGeneration := generation); }
      if templateGeneration > pi.appliedTemplateGeneration { pi := pi.(appliedTemplateGeneration := templateGeneration); }
      pre := pre[ref := pi];
    }

    method ApplyServiceRecord(ref: Ref, f: Fault) returns (ok: bool)
      requires ref.kind.Service?
      modifies this`pre, store`services
      ensures Stepped(State(), ok) == Applied(old(State()), payloads, ref, f)
    {
      hide Carry, Sanitize, Seed;
      if ref !in payloads.services || f.readFails { return false; }
      var original := WithOwner(payloads.services[ref], payloads.stamp);
      if ref in store.services {
        var stored := store.services[ref];
        if Terminating(stored) { return false; }
        var next := CarryServerState(stored, original);
        if next.None? || f.writeFails { return false; }
        store.services := store.services[ref := next.value];
        CaptureImage(ref, OfService(stored));
        NoteGenerations(ref, Generation(next.value), TemplateGeneration(next.value));
        return true;
      }
      CaptureImage(ref, ABSENT);
      if f.writeFails { return false; }
      store.services := store.services[ref := Seed(Sanitize(original, f.freshId))];
      return true;
    }

    method ApplyDurableRecord(ref: Ref, f: Fault) returns (ok: bool)
      requires IsDurable(ref.kind)
      modifies this`pre, store`durables
      ensures Stepped(State(), ok) == Applied(old(State()), payloads, ref, f)
    {
      hide UpdatedDurable, CreatedDurable;
      if ref !in payloads.durables { return false; }
      var next := payloads.durables[ref].(owner := Some(payloads.stamp));
      if ref in store.durables && !f.readFails {
        var existing := store.durables[ref];
        CaptureImage(ref, OfDurable(existing));
        var updated := UpdatedDurable(ref.kind, existing, next);
        if f.writeFails || updated.None? { return false; }
        store.durables := store.durables[ref := updated.value];
        return true;
      }
      CaptureImage(ref, ABSENT);
      if f.writeFails || ref in store.durables { return false; }
      store.durables := store.durables[ref := CreatedDurable(ref.kind, next, f.freshId)];
      return true;
    }

    method Apply(ref: Ref, f: Fault) returns (ok: bool)
      modifies this`pre, store
      ensures Stepped(State(), ok) == Applied(old(State()), payloads, ref, f)
    {
      if ref.kind.Service? {
        ok := ApplyServiceRecord(ref, f);
      } else if IsDurable(ref.kind) {
        ok := ApplyDurableRecord(ref, f);
      } else {
        ok := true;
      }
    }

    /** capturePreDelete: a lookup error records "absent". */
    method CapturePreDelete(ref: Ref, f: Fault)
      requires IsManaged(ref.kind)
      modifies this`pre
      ensures ref.kind.Service? ==> State() == PutService(old(State()), ref, SnapshotService(ServiceAt(old(State()), ref), f))
      ensures IsDurable(ref.kind) ==>
                var img := if ref in store.durables && !f.readFails then OfDurable(store.durables[ref]) else ABSENT;
                pre == Put(old(pre), ref, Capture(Get(old(pre), ref), img))
    {
      if ref.kind.Service? && ref in store.services && !f.readFails {
        CaptureImage(ref, OfService(store.services[ref]));
      } else if IsDurable(ref.kind) && ref in store.durables && !f.readFails {
        CaptureImage(ref, OfDurable(store.durables[ref]));
      } else {
        CaptureImage(ref, ABSENT);
      }
    }

    method Prune(ref: Ref, f: Fault) returns (ok: bool)
      modifies this`pre, store
      ensures Stepped(State(), ok) == Pruned(old(State()), ref, f)
    {
      hide Tombstone;
      if !IsManaged(ref.kind) { return true; }
      CapturePreDelete(ref, f);
      if ref.kind.Service? {
        var alreadyTerminating := pre[ref].service.Some? && Terminating(pre[ref].service.value);
        if ref !in store.services || f.writeFails { return false; }
        store.services := store.services[ref := Tombstone(store.services[ref])];
        if !alreadyTerminating { pre := pre[ref := pre[ref].(pruned := true)]; }
        return true;
      }
      if ref !in store.durables || f.writeFails { return false; }
      store.durables := store.durables - {ref};
      return true;
    }

    /** Revert of a service that was there before the cast. */
    method RestoreService(ref: Ref, f: Fault) returns (ok: bool)
      requires ref.kind.Service? && ref in pre && pre[ref].existed
      modifies store`services
      ensures Stepped(State(), ok) == Reverted(old(State()), ref, f)
    {
      hide Carry, Recreated;
      var pi := pre[ref];
      if pi.service.None? || f.readFails { return false; }
      if ref in store.services {
        var cur := store.services[ref];
        var vip := if cur.discovery.Some? then cur.discovery.value.vip else "";
        var next := CarryServerState(cur, pi.service.value);
        if next.None? { return false; }
        var out := next.value.(discovery := RestoreDiscovery(pi.service.value.discovery, vip));
        var metadata := MetadataOf(out);
        if pi.pruned { metadata := metadata.(terminating := false, finalizers := []); }
        if f.writeFails { return false; }
        store.services := store.services[ref := out.(meta := Some(metadata))];
        return true;
      }
      if !pi.pruned { return true; }
      if f.writeFails { return false; }
      store.services := store.services[ref := Recreated(pi, pi.service.value)];
      return true;
    }

    method RestoreDurable(ref: Ref, f: Fault) returns (ok: bool)
      requires IsDurable(ref.kind) && ref in pre && pre[ref].existed
      modifies store`durables
      ensures Stepped(State(), ok) == Reverted(old(State()), ref, f)
    {
      hide UpdatedDurable, CreatedDurable;
      var pi := pre[ref];
      if pi.durable.None? { return false; }
      if ref in store.durables && !f.readFails {
        var updated := UpdatedDurable(ref.kind, store.durables[ref], pi.durable.value);
        if f.writeFails || updated.None? { return false; }
        store.durables := store.durables[ref := updated.value];
        return true;
      }
      if f.writeFails || ref in store.durables { return false; }
      store.durables := store.durables[ref := CreatedDurable(ref.kind, pi.durable.value, f.freshId)];
      return true;
    }

    method Revert(ref: Ref, f: Fault) returns (ok: bool)
      modifies store
      ensures Stepped(State(), ok) == Reverted(old(State()), ref, f)
    {
      hide Rewound, Recreated, Tombstone, UpdatedDurable, CreatedDurable;
      if ref !in pre || !IsManaged(ref.kind) { return true; }
      if !pre[ref].existed {
        if ref.kind.Service? {
          if ref !in store.services || f.readFails { return true; }
          if f.writeFails { return false; }
          store.services := store.services[ref := Tombstone(store.services[ref])];
          return true;
        }
        if ref !in store.durables || f.readFails { return true; }
        if f.writeFails { return false; }
        store.durables := store.durables - {ref};
        return true;
      }
      if ref.kind.Service? { ok := RestoreService(ref, f); } else { ok := RestoreDurable(ref, f); }
    }

    /** revertChanges: reverse order, references skipped, failures counted. */
    method RevertChanges(done: seq<Change>, oracle: nat -> Input) returns (errors: nat, ghost order: seq<Ref>)
      modifies store
      ensures Execution.Rollback(State(), errors, order) == RevertAll(old(State()), done, oracle, 0)
    {
      hide Reverted;
      errors, order := 0, [];
      var i := |done|;
      assert done[..i] == done;
      while i > 0
        invariant 0 <= i <= |done|
        invariant RevertAll(old(State()), done, oracle, 0)
               == (var rest := RevertAll(State(), done[..i], oracle, |done| - i); rest.(errors := errors + rest.errors, order := order + rest.order))
      {
        assert done[..i][..i - 1] == done[..i - 1];
        if !done[i - 1].action.Reference? {
          store.Interleave(oracle(|done| - i).interference, pre);
          var ok := Revert(done[i - 1].ref, oracle(|done| - i).fault);
          if !ok { errors := errors + 1; }
          order := order + [done[i - 1].ref];
        }
        i := i - 1;
      }
    }

    /** run: applies, verify, prunes; `done` includes the change that failed. */
    method Run(applies: seq<Change>, prunes: seq<Change>, verified: bool, oracle: nat -> Input)
      returns (done: seq<Change>, ok: bool, ghost trace: seq<Event>)
      requires forall i :: 0 <= i < |applies| ==> !applies[i].action.Prune?
      requires forall i :: 0 <= i < |prunes| ==> prunes[i].action.Prune?
      modifies this`pre, store
      ensures var all := applies + prunes;
              var run := RunFrom(old(State()), payloads, all, |applies|, verified, oracle, 0);
              && State() == run.world && done == all[..run.count] && ok == run.complete
              && trace == TraceFrom(old(State()), payloads, all, |applies|, verified, oracle, 0)
    {
      hide Applied, Pruned, RunFrom, TraceFrom, StepsFrom, Stands;
      ghost var all, split, start := applies + prunes, |applies|, State();
      done, trace := [], [];
      Begins(start, payloads, all, split, verified, oracle);
      for i := 0 to |applies|
        invariant done == all[..i] && Stands(start, State(), payloads, all, split, verified, oracle, trace, i, false)
      {
        assert all[i] == applies[i];
        Advance(start, State(), payloads, all, split, verified, oracle, trace, i, false);
        done := done + [applies[i]];
        store.Interleave(oracle(i).interference, pre);
        ok := Apply(applies[i].ref, oracle(i).fault);
        trace := trace + [DidApply(applies[i].ref, ok)];
        if !ok { return; }
      }
      Check(start, State(), payloads, all, split, verified, oracle, trace);
      trace := trace + [DidVerify(verified)];
      if !verified { return done, false, trace; }
      for j := 0 to |prunes|
        invariant done == all[..split + j] && Stands(start, State(), payloads, all, split, verified, oracle, trace, split + j, true)
      {
        assert all[split + j] == prunes[j];
        Advance(start, State(), payloads, all, split, verified, oracle, trace, split + j, true);
        done := done + [prunes[j]];
        store.Interleave(oracle(|applies| + j).interference, pre);
        ok := Prune(prunes[j].ref, oracle(|applies| + j).fault);
        trace := trace + [DidPrune(prunes[j].ref, ok)];
        if !ok { return; }
      }
      Ends(start, State(), payloads, all, split, oracle, trace);
      ok := true;
    }
  }
}
