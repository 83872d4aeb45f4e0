/** A prepared cast run against the whole cluster: applies in order, verify, prunes last, and on
    failure of an atomic cast the reverts in reverse order.  The store's faults and the control
    plane's own writes are inputs, so a statement about `RunFrom` is a statement about every run. */
module Execution {
  import opened Common
  import opened Services
  import opened Resources
  import opened ServerState

  datatype Action = Create | Update | Prune | Adopt | Reference

  datatype Change = Change(ref: Ref, action: Action)

  /** The cluster and the pre-images of the running cast. */
  datatype World = World(services: map<Ref, Service>, durables: map<Ref, Durable>, pre: map<Ref, PreImage>)

  /** Rendered payloads and the ownership stamp of a cast. */
  datatype Payloads = Payloads(services: map<Ref, Service>, durables: map<Ref, Durable>, stamp: OwnedBy)

  /** What happens around one applier call: interference before it, faults during it. */
  datatype Input = Input(interference: seq<Interference>, fault: Fault)

  function Get<K, V>(m: map<K, V>, k: K): Option<V> { if k in m then Some(m[k]) else None }

  function Put<K(!new), V>(m: map<K, V>, k: K, v: Option<V>): (r: map<K, V>)
    ensures Get(r, k) == v
    ensures forall x :: x != k ==> Get(r, x) == Get(m, x)
    ensures v == Get(m, k) ==> r == m
  {
    if v.Some? then m[k := v.value] else m - {k}
  }

  function ServiceAt(w: World, r: Ref): ServiceSlot { ServiceSlot(Get(w.services, r), Get(w.pre, r)) }
  function DurableAt(w: World, r: Ref): DurableSlot { DurableSlot(Get(w.durables, r), Get(w.pre, r)) }

  function PutService(w: World, r: Ref, s: ServiceSlot): World {
    w.(services := Put(w.services, r, s.live), pre := Put(w.pre, r, s.img))
  }

  function PutDurable(w: World, r: Ref, s: DurableSlot): World {
    w.(durables := Put(w.durables, r, s.live), pre := Put(w.pre, r, s.img))
  }

  function InterfereAll(w: World, es: seq<Interference>): World
    decreases |es|
  {
    if es == [] then w
    else
      var e := es[|es| - 1];
      var v := InterfereAll(w, es[..|es| - 1]);
      v.(services := Put(v.services, e.ref, Interfere(Get(v.services, e.ref), e)))
  }

  datatype Stepped = Stepped(world: World, ok: bool)

  function Applied(w: World, p: Payloads, r: Ref, f: Fault): Stepped {
    if r.kind.Service? then
      var d := ApplyService(ServiceAt(w, r), Get(p.services, r), p.stamp, f);
      Stepped(PutService(w, r, d.slot), d.ok)
    else if IsDurable(r.kind) then
      var d := ApplyDurable(r.kind, DurableAt(w, r), Get(p.durables, r), p.stamp, f);
      Stepped(PutDurable(w, r, d.slot), d.ok)
    else Stepped(w, true)
  }

  function Pruned(w: World, r: Ref, f: Fault): Stepped {
    if r.kind.Service? then
      var d := PruneService(ServiceAt(w, r), f);
      Stepped(PutService(w, r, d.slot), d.ok)
    else if IsDurable(r.kind) then
      var d := PruneDurable(DurableAt(w, r), f);
      Stepped(PutDurable(w, r, d.slot), d.ok)
    else Stepped(w, true)
  }

  function Reverted(w: World, r: Ref, f: Fault): Stepped {
    if r.kind.Service? then
      var d := RevertService(ServiceAt(w, r), f);
      Stepped(PutService(w, r, d.slot), d.ok)
    else if IsDurable(r.kind) then
      var d := RevertDurable(r.kind, DurableAt(w, r), f);
      Stepped(PutDurable(w, r, d.slot), d.ok)
    else Stepped(w, true)
  }

  function Exec(w: World, p: Payloads, c: Change, i: Input): Stepped {
    var v := InterfereAll(w, i.interference);
    if c.action.Prune? then Pruned(v, c.ref, i.fault) else Applied(v, p, c.ref, i.fault)
  }

  /** A run stopped after `count` changes, the last of which failed unless verify did. */
  datatype Run = Run(world: World, count: nat, complete: bool)

  /** Changes `all[i..]`, with verify between `all[..split]` (applies) and `all[split..]` (prunes). */
  function RunFrom(w: World, p: Payloads, all: seq<Change>, split: nat, verified: bool, oracle: nat -> Input, i: nat): (r: Run)
    requires i <= |all|
    ensures i <= r.count <= |all|
    ensures r.complete ==> r.count == |all| && (i <= split <= |all| ==> verified)
    decreases |all| - i
  {
    if i == split && !verified then Run(w, i, false)
    else if i == |all| then Run(w, i, true)
    else
      var s := Exec(w, p, all[i], oracle(i));
      if !s.ok then Run(s.world, i + 1, false)
      else RunFrom(s.world, p, all, split, verified, oracle, i + 1)
  }

  /** revertChanges: in reverse order, every failure counted and none stopping the rest.  `order` lists what was
      reverted, in turn. */
  datatype Rollback = Rollback(world: World, errors: nat, order: seq<Ref>)

  function RevertAll(w: World, done: seq<Change>, oracle: nat -> Input, k: nat): Rollback
    decreases |done|
  {
    if done == [] then Rollback(w, 0, [])
    else
      var c := done[|done| - 1];
      var rest := done[..|done| - 1];
      if c.action.Reference? then RevertAll(w, rest, oracle, k + 1)
      else
        var s := Reverted(InterfereAll(w, oracle(k).interference), c.ref, oracle(k).fault);
        var r := RevertAll(s.world, rest, oracle, k + 1);
        Rollback(r.world, if s.ok then r.errors else r.errors + 1, [c.ref] + r.order)
  }
}
