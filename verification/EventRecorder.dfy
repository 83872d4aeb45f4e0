/** The Recorder object: its counter, rings and persisted indexes are updated in place.  Each method is
    proved to do what the corresponding function of `EventLog` says. */
module EventRecorder {
  import opened Common
  import opened SeqCodec
  import opened EventLog

  const DEFAULT_RING: nat := 50

  lemma NewestStep(source: seq<Event>, i: nat, out: seq<Event>, n: nat)
    requires 0 < i <= |source| && |out| < n
    ensures out + Newest(source[..i], n - |out|) == (out + [source[i - 1]]) + Newest(source[..i - 1], n - |out| - 1)
  {
    assert source[..i][..i - 1] == source[..i - 1];
  }

  /** The listing loop, from the last event backwards. */
  method NewestFirst(source: seq<Event>, n: nat) returns (out: seq<Event>)
    ensures out == Newest(source, n)
  {
    out := [];
    var i := |source|;
    assert source[..i] == source;
    while i > 0 && |out| < n
      invariant 0 <= i <= |source| && |out| <= n
      invariant out + Newest(source[..i], n - |out|) == Newest(source, n)
    {
      NewestStep(source, i, out, n);
      out := out + [source[i - 1]];
      i := i - 1;
    }
  }

  /** Seek to the first key at or above `start`, then iterate up to `n` entries. */
  method Page(ix: Index, start: int, n: nat) returns (out: seq<Event>)
    requires Ascending(ix)
    ensures out == Take(Since(ix, start), n)
  {
    var from := 0;
    while from < |ix| && ix[from].number < start
      invariant 0 <= from <= |ix| && forall j :: 0 <= j < from ==> ix[j].number < start
    {
      from := from + 1;
    }
    SinceIsTail(ix, start, from);
    hide Since, Ascending;
    out := [];
    var i := from;
    while i < |ix| && |out| < n
      invariant from <= i <= |ix| && |out| <= n && out == ix[from..i]
    {
      out := out + [ix[i]];
      i := i + 1;
    }
    assert out == if |ix[from..]| > n then ix[from..][..n] else ix[from..];
  }

  class Recorder {
    var ring: nat
    var nextSeq: int
    var cache: map<Key, seq<Event>>
    var bySeq: Index
    var byResource: map<Key, Index>

    ghost function State(): Log
      reads this
    {
      Log(nextSeq, ring, cache, bySeq, byResource)
    }

    /** NewRecorder over persisted indexes; the ring bound falls back to its default. */
    constructor (bySeq: Index, byResource: map<Key, Index>, ringPerKey: int)
      ensures State() == Restart(Log(0, if ringPerKey <= 0 then 50 else ringPerKey, map[], bySeq, byResource))
    {
      ring := if ringPerKey <= 0 then DEFAULT_RING else ringPerKey;
      cache, this.bySeq, this.byResource := map[], bySeq, byResource;
      var max := 0;
      if |bySeq| > 0 { max := bySeq[|bySeq| - 1].number; }
      nextSeq := max + 1;
    }

    /** persist: both indexes in one transaction, or neither. */
    method PersistEvent(e: Event, works: bool) returns (ok: bool)
      modifies this`bySeq, this`byResource
      ensures ok == works && State() == Persist(old(State()), e, works)
    {
      if !works { return false; }
      byResource := byResource[e.key := Put(if e.key in byResource then byResource[e.key] else [], e)];
      bySeq := Put(bySeq, e);
      return true;
    }

    method EmitEvent(e: Event, works: bool) returns (ok: bool)
      modifies this`nextSeq, this`cache, this`bySeq, this`byResource
      ensures ok <==> e.key.kind != "" && e.key.name != "" && works
      ensures State() == Emit(old(State()), e, works)
    {
      hide Put;
      if e.key.kind == "" || e.key.name == "" { return false; }
      var events := if e.key in cache then cache[e.key] else [];
      var n := |events|;
      if n > 0 && SameFoldKey(events[n - 1], e) {
        var prev := events[n - 1];
        prev := prev.(count := prev.count + 1);
        cache := cache[e.key := events[..n - 1] + [prev]];
        ok := PersistEvent(prev, works);
        return;
      }
      var added := e.(number := nextSeq);
      nextSeq := nextSeq + 1;
      if added.count == 0 { added := added.(count := 1); }
      events := events + [added];
      if |events| > ring { events := events[|events| - ring..]; }
      cache := cache[e.key := events];
      ok := PersistEvent(added, works);
    }

    method List(k: Key, limit: int) returns (out: seq<Event>)
      ensures out == ListByResource(State(), k, limit)
    {
      var n := if limit <= 0 || limit > ring then ring else limit;
      var source := if k in cache && |cache[k]| > 0 then cache[k] else if k in byResource then byResource[k] else [];
      out := NewestFirst(source, n);
    }

    method ListAfter(cursor: int, limit: int) returns (out: seq<Event>)
      requires cursor <= MAX_SEQ && Ascending(bySeq)
      ensures out == ListSince(State(), cursor, limit)
    {
      var n := if limit <= 0 then 100 else limit;
      var start := if cursor == MAX_SEQ then -MAX_SEQ - 1 else cursor + 1;
      if start < 0 { start := 0; }
      out := Page(bySeq, start, n);
    }
  }
}
