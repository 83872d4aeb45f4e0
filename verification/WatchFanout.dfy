/** emitWatchEvent: one event goes to four subscription scopes, named by string keys. */
module WatchFanout {
  import opened Common

  datatype Event = Event(resourceType: string, namespace: string, name: string, body: string)

  function ScopeKey(resourceType: string, namespace: string): string { resourceType + ":" + namespace }

  /** This type in this namespace, all types in it, this type everywhere, everything. */
  function ScopesOf(e: Event): seq<string> {
    [ScopeKey(e.resourceType, e.namespace), ScopeKey("", e.namespace), ScopeKey(e.resourceType, ""), ScopeKey("", "")]
  }

  predicate ColonFree(s: string) { ':' !in s }

  lemma ScopeKeysAgree(t: string, n: string, u: string, m: string)
    requires ColonFree(t) && ColonFree(u)
    ensures ScopeKey(t, n) == ScopeKey(u, m) <==> t == u && n == m
  {
    if ScopeKey(t, n) == ScopeKey(u, m) {
      var s := ScopeKey(t, n);
      assert s[|t|] == ':' && s[|u|] == ':';
      assert forall i :: 0 <= i < |t| ==> s[i] == t[i] != ':';
      assert forall i :: 0 <= i < |u| ==> s[i] == u[i] != ':';
      assert |t| == |u|;
      assert t == s[..|t|] == u && n == s[|t| + 1..] == m;
    }
  }

  /** How many of `keys` are `key`. */
  function Count(keys: seq<string>, key: string): nat {
    if keys == [] then 0 else (if keys[0] == key then 1 else 0) + Count(keys[1..], key)
  }

  /** How many copies of `e` a subscriber to (t, n) is handed. */
  function Copies(e: Event, t: string, n: string): nat { Count(ScopesOf(e), ScopeKey(t, n)) }

  predicate Matches(e: Event, t: string, n: string) { (t == "" || t == e.resourceType) && (n == "" || n == e.namespace) }

  lemma CountFour(a: string, b: string, c: string, d: string, key: string)
    ensures Count([a, b, c, d], key)
         == (if a == key then 1 else 0) + (if b == key then 1 else 0) + (if c == key then 1 else 0) + (if d == key then 1 else 0)
  {
    assert [d][1..] == [] && [c, d][1..] == [d] && [b, c, d][1..] == [c, d] && [a, b, c, d][1..] == [b, c, d];
    assert Count([d], key) == if d == key then 1 else 0;
    assert Count([c, d], key) == (if c == key then 1 else 0) + Count([d], key);
    assert Count([b, c, d], key) == (if b == key then 1 else 0) + Count([c, d], key);
  }

  /** A subscriber is handed an event if and only if its scope matches; it is handed it once, except
      that an event without a namespace reaches the all-namespaces subscribers twice (and one without a
      type the all-types subscribers twice). */
  lemma FanoutIsExact(e: Event, t: string, n: string)
    requires ColonFree(e.resourceType) && ColonFree(t)
    ensures Copies(e, t, n) == (if !Matches(e, t, n) then 0
                                else (if e.resourceType == "" then 2 else 1) * (if e.namespace == "" then 2 else 1))
  {
    ScopeKeysAgree(e.resourceType, e.namespace, t, n);
    ScopeKeysAgree("", e.namespace, t, n);
    ScopeKeysAgree(e.resourceType, "", t, n);
    ScopeKeysAgree("", "", t, n);
    CountFour(ScopeKey(e.resourceType, e.namespace), ScopeKey("", e.namespace), ScopeKey(e.resourceType, ""), ScopeKey("", ""), ScopeKey(t, n));
  }

  function Repeated(e: Event, n: nat): seq<Event> { if n == 0 then [] else Repeated(e, n - 1) + [e] }

  lemma {:induction false} RepeatedAdds(e: Event, m: nat, n: nat)
    ensures Repeated(e, m) + Repeated(e, n) == Repeated(e, m + n)
  {
    if n > 0 { RepeatedAdds(e, m, n - 1); }
  }

  lemma NotListed(subs: seq<nat>, id: nat)
    requires forall i :: 0 <= i < |subs| ==> subs[i] != id
    ensures multiset(subs)[id] == 0
  {
  }

  lemma NotCounted(subs: seq<nat>, id: nat)
    requires multiset(subs)[id] == 0
    ensures id !in subs
  {
    assert id in subs <==> id in multiset(subs);
  }

  lemma WithoutListing(subs: seq<nat>, i: nat, o: nat)
    requires i < |subs|
    ensures multiset(subs[..i] + subs[i + 1..])[o] == multiset(subs)[o] - if o == subs[i] then 1 else 0
  {
    assert subs == subs[..i] + [subs[i]] + subs[i + 1..];
  }

  /** `id` is listed once, under `key`. */
  ghost predicate Listed(conns: map<string, seq<nat>>, id: nat, key: string) {
    key in conns && forall k :: k in conns ==> multiset(conns[k])[id] == if k == key then 1 else 0
  }

  /** The listings with `id` added under `key`. */
  function Added(conns: map<string, seq<nat>>, key: string, id: nat): map<string, seq<nat>> {
    conns[key := (if key in conns then conns[key] else []) + [id]]
  }

  lemma AddedKeeps(conns: map<string, seq<nat>>, key: string, id: nat, o: nat, own: string)
    requires o != id && Listed(conns, o, own)
    ensures Listed(Added(conns, key, id), o, own)
  {
    var subs: seq<nat> := if key in conns then conns[key] else [];
    assert multiset(subs + [id])[o] == multiset(subs)[o];
  }

  lemma AddedLists(conns: map<string, seq<nat>>, key: string, id: nat)
    requires forall k, i :: k in conns && 0 <= i < |conns[k]| ==> conns[k][i] != id
    ensures Listed(Added(conns, key, id), id, key)
  {
    var now := Added(conns, key, id);
    forall k | k in now ensures multiset(now[k])[id] == if k == key then 1 else 0 {
      if k in conns { NotListed(conns[k], id); }
      if k == key {
        var subs: seq<nat> := if key in conns then conns[key] else [];
        assert multiset(subs + [id])[id] == multiset(subs)[id] + 1;
      }
    }
  }

  /** The listings without the `i`-th under `key`. */
  function Unlisted(conns: map<string, seq<nat>>, key: string, i: nat): map<string, seq<nat>>
    requires key in conns && i < |conns[key]|
  {
    var rest := conns[key][..i] + conns[key][i + 1..];
    if rest == [] then conns - {key} else conns[key := rest]
  }

  lemma UnlistedKeeps(conns: map<string, seq<nat>>, key: string, i: nat, o: nat, own: string)
    requires key in conns && i < |conns[key]| && conns[key][i] != o && Listed(conns, o, own)
    ensures Listed(Unlisted(conns, key, i), o, own)
  {
    var rest: seq<nat> := conns[key][..i] + conns[key][i + 1..];
    WithoutListing(conns[key], i, o);
    if own == key { assert multiset(rest)[o] == 1 && rest != []; }
  }

  lemma UnlistedDrops(conns: map<string, seq<nat>>, key: string, i: nat, k: string)
    requires key in conns && i < |conns[key]| && Listed(conns, conns[key][i], key) && k in Unlisted(conns, key, i)
    ensures conns[key][i] !in Unlisted(conns, key, i)[k]
    ensures forall x :: x in Unlisted(conns, key, i)[k] ==> x in conns[k]
  {
    WithoutListing(conns[key], i, conns[key][i]);
    NotCounted(Unlisted(conns, key, i)[k], conns[key][i]);
  }

  method FindListing(subs: seq<nat>, id: nat) returns (i: nat)
    requires multiset(subs)[id] > 0
    ensures i < |subs| && subs[i] == id && id !in subs[..i]
  {
    assert id in multiset(subs);
    i := 0;
    while subs[i] != id
      invariant i < |subs| && id !in subs[..i] && id in subs[i..]
      decreases |subs| - i
    {
      assert subs[i..] == [subs[i]] + subs[i + 1..] && subs[..i + 1] == subs[..i] + [subs[i]];
      i := i + 1;
    }
  }

  /** The registered subscribers, each with its backlog. */
  class Hub {
    var conns: map<string, seq<nat>>
    var backlog: map<nat, seq<Event>>
    var next: nat

    /** Subscriber `id` is registered, once, under (t, n). */
    ghost predicate Registered(id: nat, t: string, n: string)
      reads this
    {
      id in backlog && Listed(conns, id, ScopeKey(t, n))
    }

    /** Whoever is listed has a backlog, and the next identity is unused. */
    ghost predicate Wired()
      reads this
    {
      && (forall k, i :: k in conns && 0 <= i < |conns[k]| ==> conns[k][i] in backlog)
      && (forall id :: id in backlog ==> id < next)
    }

    constructor ()
      ensures conns == map[] && backlog == map[] && Wired()
    {
      conns, backlog, next := map[], map[], 0;
    }

    /** Watch: a new subscriber under (t, n), with nothing in its backlog; the others stay as they are. */
    method Watch(t: string, n: string) returns (id: nat)
      requires Wired()
      modifies this
      ensures Wired() && id !in old(backlog) && Registered(id, t, n) && backlog == old(backlog)[id := []]
      ensures forall o, a, b :: old(Registered(o, a, b)) ==> Registered(o, a, b)
    {
      id := next;
      next := next + 1;
      var key := ScopeKey(t, n);
      var subs := if key in conns then conns[key] else [];
      ghost var now := Added(conns, key, id);
      AddedLists(conns, key, id);
      forall o, a, b | Registered(o, a, b) ensures Listed(now, o, ScopeKey(a, b)) { AddedKeeps(conns, key, id, o, ScopeKey(a, b)); }
      hide Listed, ScopeKey;
      conns := conns[key := subs + [id]];
      backlog := backlog[id := []];
    }

    /** What happens when the caller's context ends: the first listing under the key goes. */
    method Cancel(id: nat, t: string, n: string)
      requires Wired() && Registered(id, t, n)
      modifies this
      ensures Wired() && backlog == old(backlog) - {id} && forall k :: k in conns ==> id !in conns[k]
      ensures forall o, a, b :: o != id && old(Registered(o, a, b)) ==> Registered(o, a, b)
    {
      var key := ScopeKey(t, n);
      var subs := conns[key];
      var i := FindListing(subs, id);
      ghost var now := Unlisted(conns, key, i);
      forall k | k in now ensures id !in now[k] && forall x :: x in now[k] ==> x in conns[k] { UnlistedDrops(conns, key, i, k); }
      forall o, a, b | o != id && Registered(o, a, b) ensures Listed(now, o, ScopeKey(a, b)) { UnlistedKeeps(conns, key, i, o, ScopeKey(a, b)); }
      hide Listed;
      subs := subs[..i] + subs[i + 1..];
      if |subs| == 0 { conns := conns - {key}; } else { conns := conns[key := subs]; }
      backlog := backlog - {id};
    }

    /** Every subscriber `id` gets one copy for each time it is listed under `key`. */
    method Dispatch(e: Event, key: string, ghost id: nat)
      requires Wired() && id in backlog
      modifies this`backlog
      ensures backlog.Keys == old(backlog).Keys
      ensures backlog[id] == old(backlog)[id] + Repeated(e, if key in conns then multiset(conns[key])[id] else 0)
    {
      if key !in conns { return; }
      var subs := conns[key];
      for i := 0 to |subs|
        invariant backlog.Keys == old(backlog).Keys
        invariant backlog[id] == old(backlog)[id] + Repeated(e, multiset(subs[..i])[id])
      {
        assert subs[..i + 1] == subs[..i] + [subs[i]];
        assert subs[i] in backlog;
        backlog := backlog[subs[i] := backlog[subs[i]] + [e]];
      }
      assert subs[..|subs|] == subs;
    }

    /** A subscriber registered under (t, n) gets exactly the copies that are its due. */
    method Emit(e: Event, ghost id: nat, ghost t: string, ghost n: string)
      requires Wired() && Registered(id, t, n)
      modifies this`backlog
      ensures id in backlog && backlog[id] == old(backlog)[id] + Repeated(e, Copies(e, t, n))
    {
      var scopes := ScopesOf(e);
      assert scopes[0..] == scopes && scopes[|scopes|..] == [];
      for j := 0 to |scopes|
        invariant Wired() && backlog.Keys == old(backlog).Keys
        invariant Count(scopes[j..], ScopeKey(t, n)) <= Count(scopes, ScopeKey(t, n))
        invariant backlog[id] == old(backlog)[id] + Repeated(e, Count(scopes, ScopeKey(t, n)) - Count(scopes[j..], ScopeKey(t, n)))
      {
        ghost var before := backlog[id];
        assert scopes[j..][1..] == scopes[j + 1..];
        Dispatch(e, scopes[j], id);
        ghost var due := if scopes[j] == ScopeKey(t, n) then 1 else 0;
        assert backlog[id] == before + Repeated(e, due);
        RepeatedAdds(e, Count(scopes, ScopeKey(t, n)) - Count(scopes[j..], ScopeKey(t, n)), due);
      }
    }
  }
}
