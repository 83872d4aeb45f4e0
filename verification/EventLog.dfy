/** The event log: a bounded in-memory ring per resource in front of two persisted indexes, with
    like-for-like events folded, node-global sequence numbers, and cursors for consumers. */
module EventLog {
  import opened Common
  import opened SeqCodec

  datatype Key = Key(namespace: string, kind: string, name: string)

  /** `rest` stands for the level and other descriptive fields; times are left out. */
  datatype Event = Event(key: Key, uid: string, reason: string, message: string, rest: string, count: int, number: int)

  predicate SameFoldKey(a: Event, b: Event) {
    a.uid == b.uid && a.reason == b.reason && a.message == b.message && a.key.kind == b.key.kind && a.key.name == b.key.name
  }

  /** A persisted index: what a scan in key order yields.  `SeqOrder` is why that is sequence order. */
  type Index = seq<Event>

  predicate Ascending(ix: Index) { forall i, j :: 0 <= i < j < |ix| ==> ix[i].number < ix[j].number }

  /** Writing a key: replaces the entry or takes its place in order. */
  function Put(ix: Index, e: Event): Index {
    if ix == [] || ix[|ix| - 1].number < e.number then ix + [e]
    else if ix[|ix| - 1].number == e.number then ix[..|ix| - 1] + [e]
    else Put(ix[..|ix| - 1], e) + [ix[|ix| - 1]]
  }

  datatype Log = Log(nextSeq: int, bound: nat, cache: map<Key, seq<Event>>, bySeq: Index, byResource: map<Key, Index>)

  function Ring(l: Log, k: Key): seq<Event> { if k in l.cache then l.cache[k] else [] }
  function Stored(l: Log, k: Key): Index { if k in l.byResource then l.byResource[k] else [] }

  /** Both indexes are written in one transaction. */
  function Persist(l: Log, e: Event, works: bool): Log {
    if !works then l
    else l.(bySeq := Put(l.bySeq, e), byResource := l.byResource[e.key := Put(Stored(l, e.key), e)])
  }

  function KeepLast<T>(s: seq<T>, n: nat): seq<T> { if |s| > n then s[|s| - n..] else s }

  predicate Valid(e: Event) { e.key.kind != "" && e.key.name != "" }

  predicate Folds(l: Log, e: Event) {
    var ring := Ring(l, e.key);
    ring != [] && SameFoldKey(ring[|ring| - 1], e)
  }

  /** The record that an emit writes. */
  function Recorded(l: Log, e: Event): Event {
    if Folds(l, e) then
      var prev := Ring(l, e.key)[|Ring(l, e.key)| - 1];
      prev.(count := prev.count + 1)
    else e.(number := l.nextSeq, count := if e.count == 0 then 1 else e.count)
  }

  function Cached(l: Log, e: Event): Log {
    var ring, r := Ring(l, e.key), Recorded(l, e);
    if Folds(l, e) then l.(cache := l.cache[e.key := ring[..|ring| - 1] + [r]])
    else l.(nextSeq := l.nextSeq + 1, cache := l.cache[e.key := KeepLast(ring + [r], l.bound)])
  }

  function Emit(l: Log, e: Event, works: bool): Log {
    if !Valid(e) then l else Persist(Cached(l, e), Recorded(l, e), works)
  }

  /** restoreNextSeq and an empty cache. */
  function Restart(l: Log): Log {
    l.(cache := map[], nextSeq := (if l.bySeq == [] then 0 else l.bySeq[|l.bySeq| - 1].number) + 1)
  }

  /** Listing by resource */

  function Newest(s: seq<Event>, n: nat): seq<Event> {
    if s == [] || n == 0 then [] else [s[|s| - 1]] + Newest(s[..|s| - 1], n - 1)
  }

  function Cap(limit: int, bound: nat): nat { if limit <= 0 || limit > bound then bound else limit }

  function ListByResource(l: Log, k: Key, limit: int): seq<Event> {
    Newest(if Ring(l, k) != [] then Ring(l, k) else Stored(l, k), Cap(limit, l.bound))
  }

  /** Listing by cursor */

  function Since(ix: Index, start: int): Index {
    if ix == [] then []
    else if ix[|ix| - 1].number >= start then Since(ix[..|ix| - 1], start) + [ix[|ix| - 1]]
    else Since(ix[..|ix| - 1], start)
  }

  function Take<T>(s: seq<T>, n: nat): seq<T> { if |s| > n then s[..n] else s }

  /** `cursor + 1` in int64 arithmetic, then clamped. */
  function StartSeq(cursor: int): int {
    if cursor == MAX_SEQ then 0 else if cursor + 1 < 0 then 0 else cursor + 1
  }

  function PageSize(limit: int): nat { if limit <= 0 then 100 else limit }

  function ListSince(l: Log, cursor: int, limit: int): seq<Event> {
    Take(Since(l.bySeq, StartSeq(cursor)), PageSize(limit))
  }

  /** Facts about indexes */

  function OfKey(ix: Index, k: Key): Index {
    if ix == [] then []
    else if ix[|ix| - 1].key == k then OfKey(ix[..|ix| - 1], k) + [ix[|ix| - 1]]
    else OfKey(ix[..|ix| - 1], k)
  }

  function Seqs(ix: Index): (r: seq<int>)
    ensures |r| == |ix| && forall i :: 0 <= i < |ix| ==> r[i] == ix[i].number
  {
    if ix == [] then [] else Seqs(ix[..|ix| - 1]) + [ix[|ix| - 1].number]
  }

  function Total(ix: Index): int {
    if ix == [] then 0 else Total(ix[..|ix| - 1]) + ix[|ix| - 1].count
  }

  lemma {:induction false} OfKeyIsPart(ix: Index, k: Key)
    ensures forall e :: e in OfKey(ix, k) <==> e in ix && e.key == k
  {
    if ix != [] {
      OfKeyIsPart(ix[..|ix| - 1], k);
      assert ix == ix[..|ix| - 1] + [ix[|ix| - 1]];
    }
  }

  lemma {:induction false} PutElements(ix: Index, e: Event, x: Event)
    requires x in Put(ix, e)
    ensures x == e || x in ix
  {
    if !(ix == [] || ix[|ix| - 1].number <= e.number) {
      if x in Put(ix[..|ix| - 1], e) { PutElements(ix[..|ix| - 1], e, x); }
    }
  }

  lemma {:induction false} PutAscends(ix: Index, e: Event)
    requires Ascending(ix)
    ensures Ascending(Put(ix, e))
  {
    if !(ix == [] || ix[|ix| - 1].number <= e.number) {
      var init, last := ix[..|ix| - 1], ix[|ix| - 1];
      PutAscends(init, e);
      var p := Put(init, e);
      forall i | 0 <= i < |p| ensures p[i].number < last.number { PutElements(init, e, p[i]); }
    }
  }

  /** Writing an event moves only the entries of its own resource. */
  lemma {:induction false} PutOfKey(ix: Index, e: Event, k: Key)
    requires Ascending(ix) && forall x :: x in ix && x.number == e.number ==> x.key == e.key
    ensures OfKey(Put(ix, e), k) == if k == e.key then Put(OfKey(ix, k), e) else OfKey(ix, k)
  {
    if ix == [] || ix[|ix| - 1].number < e.number {
      assert (ix + [e])[..|ix|] == ix;
      OfKeyIsPart(ix, k);
      assert forall x :: x in OfKey(ix, k) ==> x.number < e.number;
    } else {
      var init, last := ix[..|ix| - 1], ix[|ix| - 1];
      assert last in ix;
      if last.number == e.number {
        assert (init + [e])[..|init|] == init;
        if k == e.key { assert (OfKey(init, k) + [last])[..|OfKey(init, k)|] == OfKey(init, k); }
      } else {
        PutOfKey(init, e, k);
        assert (Put(init, e) + [last])[..|Put(init, e)|] == Put(init, e);
        if k == e.key == last.key { assert (OfKey(init, k) + [last])[..|OfKey(init, k)|] == OfKey(init, k); }
      }
    }
  }

  lemma SeqsAppend(ix: Index, last: Event)
    ensures Seqs(ix + [last]) == Seqs(ix) + [last.number]
  {
    assert (ix + [last])[..|ix|] == ix;
  }

  /** One more entry before the last one shifts it, so the numbers are no prefix any more. */
  lemma InsertShifts(init: Index, p: Index, last: Event)
    requires |p| == |init| + 1 && p[|init|].number < last.number
    ensures !(Seqs(init + [last]) <= Seqs(p + [last]))
  {
    assert Seqs(init + [last])[|init|] == last.number && Seqs(p + [last])[|init|] == p[|init|].number;
  }

  /** A write leaves the listed sequence numbers a prefix of the new ones if and only if it replaces an
      entry or goes to the end. */
  lemma {:induction false} PutExtendsIff(ix: Index, e: Event)
    requires Ascending(ix)
    ensures Seqs(ix) <= Seqs(Put(ix, e)) <==> e.number in Seqs(ix) || ix == [] || ix[|ix| - 1].number < e.number
    ensures |Put(ix, e)| == |ix| + (if e.number in Seqs(ix) then 0 else 1)
  {
    if ix == [] || ix[|ix| - 1].number < e.number {
      assert e.number !in Seqs(ix) by { assert forall i :: 0 <= i < |ix| ==> Seqs(ix)[i] < e.number; }
      SeqsAppend(ix, e);
    } else {
      var init, last := ix[..|ix| - 1], ix[|ix| - 1];
      assert ix == init + [last];
      SeqsAppend(init, last);
      if last.number == e.number {
        SeqsAppend(init, e);
      } else {
        PutExtendsIff(init, e);
        var p := Put(init, e);
        SeqsAppend(p, last);
        if e.number !in Seqs(init) {
          PutElements(init, e, p[|init|]);
          InsertShifts(init, p, last);
        } else {
          hide Put, Ascending;
          assert |Seqs(p)| == |Seqs(init)|;
          PutKeepsNumbers(init, p, e);
        }
      }
    }
  }

  lemma PutKeepsNumbers(init: Index, p: Index, e: Event)
    requires Seqs(init) <= Seqs(p) && |p| == |init|
    ensures Seqs(init) == Seqs(p)
  {
  }

  lemma {:induction false} SinceIsTail(ix: Index, start: int, i: nat)
    requires i <= |ix| && (forall j :: 0 <= j < i ==> ix[j].number < start) && (forall j :: i <= j < |ix| ==> ix[j].number >= start)
    ensures Since(ix, start) == ix[i..]
  {
    if ix != [] {
      var init := ix[..|ix| - 1];
      if i < |ix| {
        SinceIsTail(init, start, i);
        assert ix[i..] == init[i..] + [ix[|ix| - 1]];
      } else {
        SinceIsTail(init, start, i - 1);
      }
    }
  }

  /** Invariant */

  predicate IsSuffix<T(==)>(a: seq<T>, b: seq<T>) { |a| <= |b| && a == b[|b| - |a|..] }

  /** Sequence numbers ascend and the counter is ahead of them. */
  ghost predicate InOrder(l: Log) {
    l.bound > 0 && l.nextSeq >= 1 && Ascending(l.bySeq) && forall x :: x in l.bySeq ==> 1 <= x.number < l.nextSeq
  }

  /** The two indexes hold the same records of `k`, and its ring is the newest part of them. */
  ghost predicate Agrees(l: Log, k: Key) {
    Stored(l, k) == OfKey(l.bySeq, k) && IsSuffix(Ring(l, k), Stored(l, k)) && |Ring(l, k)| <= l.bound
  }

  ghost predicate Consistent(l: Log) { InOrder(l) && forall k :: Agrees(l, k) }

  /** A ring as long as it may be. */
  predicate Full(ring: nat, stored: nat, bound: nat) { ring == if stored < bound then stored else bound }

  /** No restart has emptied the rings. */
  ghost predicate Warm(l: Log) {
    forall k :: Full(|Ring(l, k)|, |Stored(l, k)|, l.bound)
  }

  function Fresh(bound: nat): Log { Log(1, bound, map[], [], map[]) }

  lemma FreshIsConsistent(bound: nat)
    requires bound > 0
    ensures Consistent(Fresh(bound)) && Warm(Fresh(bound))
  {
  }

  lemma RecordedFits(l: Log, e: Event)
    requires InOrder(l) && Agrees(l, e.key)
    ensures var r := Recorded(l, e);
            && r.key == e.key && 1 <= r.number
            && (forall x :: x in l.bySeq && x.number == r.number ==> x.key == r.key)
            && (Folds(l, e) ==> Stored(l, e.key) != [] && Stored(l, e.key)[|Stored(l, e.key)| - 1].number == r.number
                                && r.number in Seqs(l.bySeq) && r.number < l.nextSeq)
            && (!Folds(l, e) ==> r.number == l.nextSeq && forall x :: x in l.bySeq ==> x.number < r.number)
  {
    if Folds(l, e) {
      var ring, st := Ring(l, e.key), Stored(l, e.key);
      var prev := ring[|ring| - 1];
      assert prev == st[|st| - 1];
      OfKeyIsPart(l.bySeq, e.key);
      assert prev in OfKey(l.bySeq, e.key);
      hide OfKey, Seqs;
      StoredAlone(l.bySeq, prev);
    }
  }

  /** Numbers identify events. */
  lemma StoredAlone(ix: Index, x: Event)
    requires Ascending(ix) && x in ix
    ensures x.number in Seqs(ix) && forall y :: y in ix && y.number == x.number ==> y == x
  {
    var j :| 0 <= j < |ix| && ix[j] == x;
    assert Seqs(ix)[j] == x.number;
  }

  /** What an emit does to the index of its resource. */
  lemma EmitStores(l: Log, e: Event)
    requires InOrder(l) && Agrees(l, e.key)
    ensures var st, r := Stored(l, e.key), Recorded(l, e);
            Put(st, r) == (if Folds(l, e) then st[..|st| - 1] + [r] else st + [r])
  {
    RecordedFits(l, e);
    OfKeyIsPart(l.bySeq, e.key);
    var st := Stored(l, e.key);
    if st != [] { assert st[|st| - 1] in OfKey(l.bySeq, e.key); }
  }

  lemma EmitAgrees(l: Log, e: Event, k: Key)
    requires InOrder(l) && Agrees(l, e.key) && Agrees(l, k) && Valid(e)
    ensures var l' := Emit(l, e, true); Stored(l', k) == OfKey(l'.bySeq, k)
  {
    RecordedFits(l, e);
    PutOfKey(l.bySeq, Recorded(l, e), k);
    hide Recorded, Folds, OfKey, Put;
  }

  lemma SuffixExtends<T>(a: seq<T>, b: seq<T>, x: T, n: nat)
    requires IsSuffix(a, b) && n > 0
    ensures IsSuffix(KeepLast(a + [x], n), b + [x])
  {
  }

  lemma SuffixReplaces<T>(a: seq<T>, b: seq<T>, x: T)
    requires IsSuffix(a, b) && a != []
    ensures IsSuffix(a[..|a| - 1] + [x], b[..|b| - 1] + [x])
  {
  }

  /** The ring and the index of `k` after an emit. */
  lemma EmitMoves(l: Log, e: Event, k: Key)
    requires InOrder(l) && Agrees(l, e.key) && Valid(e)
    ensures var l', r, ring, st := Emit(l, e, true), Recorded(l, e), Ring(l, k), Stored(l, k);
            && l'.bound == l.bound
            && (k != e.key ==> Ring(l', k) == ring && Stored(l', k) == st)
            && (k == e.key && Folds(l, e) ==> ring != [] && st != [] && Ring(l', k) == ring[..|ring| - 1] + [r] && Stored(l', k) == st[..|st| - 1] + [r])
            && (k == e.key && !Folds(l, e) ==> Ring(l', k) == KeepLast(ring + [r], l.bound) && Stored(l', k) == st + [r])
  {
    hide Put, OfKey, InOrder, Agrees, KeepLast;
    EmitStores(l, e);
    RecordedFits(l, e);
  }

  lemma EmitKeepsRing(l: Log, e: Event, k: Key)
    requires InOrder(l) && Agrees(l, e.key) && Valid(e) && IsSuffix(Ring(l, k), Stored(l, k)) && |Ring(l, k)| <= l.bound
    ensures var l' := Emit(l, e, true);
            && IsSuffix(Ring(l', k), Stored(l', k)) && |Ring(l', k)| <= l'.bound
            && (Full(|Ring(l, k)|, |Stored(l, k)|, l.bound) ==> Full(|Ring(l', k)|, |Stored(l', k)|, l'.bound))
  {
    assert l.bound > 0;
    hide Agrees, InOrder, Emit, Recorded, Put, OfKey, Ring, Stored, Folds, IsSuffix;
    EmitMoves(l, e, k);
    var r, ring, st := Recorded(l, e), Ring(l, k), Stored(l, k);
    SuffixIsShorter(ring, st);
    if k == e.key {
      if Folds(l, e) { SuffixReplaces(ring, st, r); } else { SuffixExtends(ring, st, r, l.bound); }
    }
  }

  lemma SuffixIsShorter<T>(a: seq<T>, b: seq<T>)
    requires IsSuffix(a, b)
    ensures |a| <= |b|
  {
  }

  lemma EmitWrites(l: Log, e: Event)
    requires Valid(e)
    ensures var l' := Emit(l, e, true);
            && l'.bySeq == Put(l.bySeq, Recorded(l, e)) && l'.bound == l.bound
            && l'.nextSeq == (if Folds(l, e) then l.nextSeq else l.nextSeq + 1)
  {
  }

  /** Replacing a listed event, or adding one with the next number. */
  lemma PutKeepsOrder(ix: Index, r: Event, next: int, next': int)
    requires Ascending(ix) && 1 <= next && (forall x :: x in ix ==> 1 <= x.number < next)
    requires (r.number in Seqs(ix) && next' == next) || (r.number == next && next' == next + 1)
    ensures Ascending(Put(ix, r)) && Seqs(ix) <= Seqs(Put(ix, r))
    ensures forall x :: x in Put(ix, r) ==> 1 <= x.number < next'
  {
    hide Put, Ascending;
    PutAscends(ix, r);
    PutExtendsIff(ix, r);
    if ix != [] { assert ix[|ix| - 1] in ix; }
    if r.number in Seqs(ix) {
      var j :| 0 <= j < |ix| && Seqs(ix)[j] == r.number;
      assert ix[j] in ix;
    }
    hide Seqs;
    forall x | x in Put(ix, r) ensures 1 <= x.number < next' { PutElements(ix, r, x); }
  }

  lemma EmitKeepsOrder(l: Log, e: Event)
    requires InOrder(l) && Agrees(l, e.key) && Valid(e)
    ensures InOrder(Emit(l, e, true)) && Seqs(l.bySeq) <= Seqs(Emit(l, e, true).bySeq)
  {
    hide Emit, Recorded, Put, OfKey, Ascending, Agrees, Folds, Seqs;
    RecordedFits(l, e);
    EmitWrites(l, e);
    PutKeepsOrder(l.bySeq, Recorded(l, e), l.nextSeq, Emit(l, e, true).nextSeq);
  }

  lemma EmitKeepsKey(l: Log, e: Event, k: Key)
    requires InOrder(l) && Agrees(l, e.key) && Agrees(l, k) && Valid(e)
    ensures var l' := Emit(l, e, true);
            && Agrees(l', k)
            && (Full(|Ring(l, k)|, |Stored(l, k)|, l.bound) ==> Full(|Ring(l', k)|, |Stored(l', k)|, l'.bound))
  {
    hide Emit, InOrder, Ring, Stored, OfKey, Full;
    EmitAgrees(l, e, k);
    EmitKeepsRing(l, e, k);
  }

  lemma EmitKeepsConsistent(l: Log, e: Event)
    requires Consistent(l)
    ensures Consistent(Emit(l, e, true)) && (Warm(l) ==> Warm(Emit(l, e, true)))
    ensures Seqs(l.bySeq) <= Seqs(Emit(l, e, true).bySeq)
  {
    hide Agrees, InOrder, Full, Cached, Recorded, Persist;
    if Valid(e) {
      var l' := Emit(l, e, true);
      assert Agrees(l, e.key);
      EmitKeepsOrder(l, e);
      forall k
        ensures Agrees(l', k)
        ensures Full(|Ring(l, k)|, |Stored(l, k)|, l.bound) ==> Full(|Ring(l', k)|, |Stored(l', k)|, l'.bound)
      {
        assert Agrees(l, k);
        EmitKeepsKey(l, e, k);
      }
    }
  }

  /** A restored counter exceeds every stored sequence number. */
  lemma RestartKeepsConsistent(l: Log)
    requires Consistent(l)
    ensures Consistent(Restart(l)) && Restart(l).bySeq == l.bySeq
    ensures forall x :: x in l.bySeq ==> x.number < Restart(l).nextSeq
  {
    if l.bySeq != [] { assert l.bySeq[|l.bySeq| - 1] in l.bySeq; }
    forall k ensures Agrees(Restart(l), k) { assert Agrees(l, k); }
  }

  /** Numbers alone, also when writes fail */

  /** What holds of the numbers whether or not every write has succeeded: the index ascends, and the counter
      is ahead of everything stored or cached. */
  ghost predicate Numbered(l: Log) {
    && l.nextSeq >= 1 && Ascending(l.bySeq)
    && (forall x :: x in l.bySeq ==> 1 <= x.number < l.nextSeq)
    && (forall k, i :: 0 <= i < |Ring(l, k)| ==> 1 <= Ring(l, k)[i].number < l.nextSeq)
  }

  lemma SeqsMember(ix: Index, x: Event)
    requires x in ix
    ensures x.number in Seqs(ix)
  {
    var i :| 0 <= i < |ix| && ix[i] == x;
    assert Seqs(ix)[i] == x.number;
  }

  lemma SeqsWitness(ix: Index, n: int) returns (x: Event)
    requires n in Seqs(ix)
    ensures x in ix && x.number == n
  {
    var i :| 0 <= i < |ix| && Seqs(ix)[i] == n;
    x := ix[i];
  }

  lemma SeqsSplit(ix: Index, last: Event, n: int)
    ensures n in Seqs(ix + [last]) <==> n in Seqs(ix) || n == last.number
  {
    assert (ix + [last])[..|ix|] == ix;
  }

  lemma {:induction false} PutNumbers(ix: Index, e: Event, n: int)
    ensures n in Seqs(Put(ix, e)) <==> n in Seqs(ix) || n == e.number
  {
    if ix == [] || ix[|ix| - 1].number < e.number {
      SeqsSplit(ix, e, n);
    } else {
      var init, last := ix[..|ix| - 1], ix[|ix| - 1];
      assert ix == init + [last];
      SeqsSplit(init, last, n);
      if last.number == e.number {
        SeqsSplit(init, e, n);
      } else {
        PutNumbers(init, e, n);
        SeqsSplit(Put(init, e), last, n);
      }
    }
  }

  lemma RecordedNumber(l: Log, e: Event)
    requires Numbered(l)
    ensures 1 <= Recorded(l, e).number <= l.nextSeq && (!Folds(l, e) ==> Recorded(l, e).number == l.nextSeq)
    ensures Folds(l, e) ==> Recorded(l, e).number < l.nextSeq
  {
  }

  lemma CachedKeepsRings(l: Log, e: Event, k: Key, i: nat)
    requires Numbered(l) && i < |Ring(Cached(l, e), k)|
    ensures 1 <= Ring(Cached(l, e), k)[i].number < Cached(l, e).nextSeq
  {
    RecordedNumber(l, e);
    var ring, r := Ring(l, e.key), Recorded(l, e);
    var c := Cached(l, e);
    if k != e.key {
      assert Ring(c, k) == Ring(l, k);
    } else if Folds(l, e) {
      assert Ring(c, k) == ring[..|ring| - 1] + [r];
      if i < |ring| - 1 { assert Ring(c, k)[i] == Ring(l, k)[i]; }
    } else {
      var whole := ring + [r];
      assert Ring(c, k) == KeepLast(whole, l.bound);
      var j := i + |whole| - |Ring(c, k)|;
      assert Ring(c, k)[i] == whole[j];
      if j < |ring| { assert whole[j] == Ring(l, k)[j]; }
    }
  }

  lemma EmitKeepsNumbers(l: Log, e: Event, works: bool)
    requires Numbered(l)
    ensures var l' := Emit(l, e, works);
            && Numbered(l') && l'.nextSeq <= l.nextSeq + 1
            && forall n :: n in Seqs(l'.bySeq) <==> n in Seqs(l.bySeq) || (works && Valid(e) && n == Recorded(l, e).number)
  {
    if Valid(e) {
      var l', r, c := Emit(l, e, works), Recorded(l, e), Cached(l, e);
      assert l'.cache == c.cache && l'.nextSeq == c.nextSeq && l'.bySeq == if works then Put(l.bySeq, r) else l.bySeq;
      assert c.nextSeq == if Folds(l, e) then l.nextSeq else l.nextSeq + 1;
      RecordedNumber(l, e);
      forall k, i | 0 <= i < |Ring(l', k)| ensures 1 <= Ring(l', k)[i].number < l'.nextSeq {
        assert Ring(l', k) == Ring(c, k);
        CachedKeepsRings(l, e, k, i);
      }
      hide Emit, Recorded, Cached, Put, Folds, Ring, Seqs;
      PutAscends(l.bySeq, r);
      forall x | x in l'.bySeq ensures 1 <= x.number < l'.nextSeq { if works { PutElements(l.bySeq, r, x); } }
      forall n ensures n in Seqs(l'.bySeq) <==> n in Seqs(l.bySeq) || (works && n == r.number) { if works { PutNumbers(l.bySeq, r, n); } }
    }
  }

  lemma RestartKeepsNumbers(l: Log)
    requires Numbered(l)
    ensures Numbered(Restart(l)) && Restart(l).nextSeq <= l.nextSeq && Restart(l).bySeq == l.bySeq
  {
    if l.bySeq != [] { assert l.bySeq[|l.bySeq| - 1] in l.bySeq; }
  }
}
