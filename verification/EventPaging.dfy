/** What readers of the event log can rely on: listings by resource, totals, and cursor paging. */
module EventPaging {
  import opened Common
  import opened SeqCodec
  import opened EventLog

  /** Listings and totals over whole histories */

  datatype Act = Emitting(e: Event) | Restarting

  function Do(l: Log, a: Act): Log { if a.Emitting? then Emit(l, a.e, true) else Restart(l) }

  function DoAll(l: Log, acts: seq<Act>): Log {
    if acts == [] then l else Do(DoAll(l, acts[..|acts| - 1]), acts[|acts| - 1])
  }

  lemma {:induction false} HistoryIsConsistent(l: Log, acts: seq<Act>)
    requires Consistent(l)
    ensures Consistent(DoAll(l, acts))
    ensures Warm(l) && (forall i :: 0 <= i < |acts| ==> acts[i].Emitting?) ==> Warm(DoAll(l, acts))
  {
    if acts != [] {
      var init, a := acts[..|acts| - 1], acts[|acts| - 1];
      HistoryIsConsistent(l, init);
      hide Consistent, Warm, Emit, Restart;
      if a.Emitting? { EmitKeepsConsistent(DoAll(l, init), a.e); } else { RestartKeepsConsistent(DoAll(l, init)); }
    }
  }

  lemma {:induction false} NewestOfSuffix(a: seq<Event>, b: seq<Event>, n: nat)
    requires IsSuffix(a, b)
    ensures Newest(a, n) == Newest(b, n) <==> |a| >= n || |a| == |b|
    ensures |Newest(b, n)| == if n < |b| then n else |b|
  {
    if b != [] && n > 0 {
      if a == [] {
        NewestOfSuffix([], b[..|b| - 1], n - 1);
      } else {
        assert a[|a| - 1] == b[|b| - 1] && IsSuffix(a[..|a| - 1], b[..|b| - 1]);
        NewestOfSuffix(a[..|a| - 1], b[..|b| - 1], n - 1);
        var x, y := Newest(a[..|a| - 1], n - 1), Newest(b[..|b| - 1], n - 1);
        assert ([b[|b| - 1]] + x)[1..] == x && ([b[|b| - 1]] + y)[1..] == y;
      }
    }
  }

  /** The ring answers like a scan of the index if and only if it is empty (and the scan is taken),
      long enough for the page, or complete. */
  lemma RingIsScanIff(l: Log, k: Key, limit: int)
    requires Consistent(l)
    ensures ListByResource(l, k, limit) == Newest(Stored(l, k), Cap(limit, l.bound)) <==>
              Ring(l, k) == [] || |Ring(l, k)| >= Cap(limit, l.bound) || |Ring(l, k)| == |Stored(l, k)|
  {
    assert Agrees(l, k);
    if Ring(l, k) != [] { NewestOfSuffix(Ring(l, k), Stored(l, k), Cap(limit, l.bound)); }
  }

  /** From a fresh start with every write persisted: both indexes hold the same records, and a listing
      by resource is exactly the newest-first scan of its index, capped. */
  lemma CacheAgreesWithLog(bound: nat, acts: seq<Act>, k: Key, limit: int)
    requires bound > 0 && forall i :: 0 <= i < |acts| ==> acts[i].Emitting?
    ensures var l := DoAll(Fresh(bound), acts);
            && Stored(l, k) == OfKey(l.bySeq, k)
            && ListByResource(l, k, limit) == Newest(Stored(l, k), Cap(limit, l.bound))
  {
    FreshIsConsistent(bound);
    HistoryIsConsistent(Fresh(bound), acts);
    var l := DoAll(Fresh(bound), acts);
    assert Agrees(l, k) && Full(|Ring(l, k)|, |Stored(l, k)|, l.bound);
    RingIsScanIff(l, k, limit);
  }

  /** After a restart the ring can be a shorter suffix: one event, a restart, another event, and the
      listing shows only the second. */
  lemma RestartShortensListings(k: Key, bound: nat)
    requires k.kind != "" && k.name != "" && bound >= 2
    ensures var e := (m: string) => Emitting(Event(k, "", "", m, "", 0, 0));
            var l := DoAll(Fresh(bound), [e("a"), Restarting, e("b")]);
            |Stored(l, k)| == 2 && |ListByResource(l, k, 0)| == 1
  {
    var e := (m: string) => Emitting(Event(k, "", "", m, "", 0, 0));
    var acts := [e("a"), Restarting, e("b")];
    assert acts[..2] == [e("a"), Restarting] && acts[..2][..1] == [e("a")] && [e("a")][..0] == [];
    var l1 := Emit(Fresh(bound), e("a").e, true);
    assert DoAll(Fresh(bound), [e("a")]) == l1 && |Stored(l1, k)| == 1 && Stored(l1, k)[0].number == 1;
    var l2 := Restart(l1);
    assert DoAll(Fresh(bound), acts[..2]) == l2 && l2.nextSeq == 2 && Ring(l2, k) == [];
    var l := Emit(l2, e("b").e, true);
    assert DoAll(Fresh(bound), acts) == l;
    assert |Ring(l, k)| == 1 && |Stored(l, k)| == 2;
    NewestOfSuffix(Ring(l, k), Ring(l, k), l.bound);
  }

  /** A listing is newest first: from the ring if it holds anything and from the index otherwise, as many as
      asked for, but never more than the bound. */
  lemma ListingIsNewestFirst(l: Log, k: Key, limit: int, i: nat)
    ensures var page, source := ListByResource(l, k, limit), if Ring(l, k) != [] then Ring(l, k) else Stored(l, k);
            var n := if 1 <= limit <= l.bound then limit else l.bound;
            && |page| == (if n < |source| then n else |source|)
            && (i < |page| ==> page[i] == source[|source| - 1 - i])
  {
    NewestAt(if Ring(l, k) != [] then Ring(l, k) else Stored(l, k), Cap(limit, l.bound), i);
  }

  lemma {:induction false} NewestAt(s: seq<Event>, n: nat, i: nat)
    ensures |Newest(s, n)| == if n < |s| then n else |s|
    ensures i < |Newest(s, n)| ==> Newest(s, n)[i] == s[|s| - 1 - i]
  {
    if s != [] && n > 0 { NewestAt(s[..|s| - 1], n - 1, if i > 0 then i - 1 else 0); }
  }

  /** A page holds at most as many events as asked for, or a hundred. */
  lemma PageIsFull(l: Log, cursor: int, limit: int)
    ensures var page, all := ListSince(l, cursor, limit), Since(l.bySeq, StartSeq(cursor));
            |page| == (var n := if limit <= 0 then 100 else limit; if n < |all| then n else |all|)
  {
    hide Since;
  }

  /** What an emit shows */

  ghost predicate RingsKeyed(l: Log) { forall k, i :: 0 <= i < |Ring(l, k)| ==> Ring(l, k)[i].key == k }

  lemma RingsStayKeyed(l: Log, e: Event, works: bool)
    requires RingsKeyed(l)
    ensures RingsKeyed(Emit(l, e, works)) && RingsKeyed(Restart(l))
  {
    if Valid(e) {
      var l', r, ring := Emit(l, e, works), Recorded(l, e), Ring(l, e.key);
      assert r.key == e.key by { if Folds(l, e) { assert ring[|ring| - 1].key == e.key; } }
      forall k, i | 0 <= i < |Ring(l', k)| ensures Ring(l', k)[i].key == k {
        if k != e.key {
          assert Ring(l', k) == Ring(l, k);
        } else {
          var whole := if Folds(l, e) then ring[..|ring| - 1] + [r] else ring + [r];
          assert Ring(l', k) == KeepLast(whole, if Folds(l, e) then |whole| else l.bound);
          var j := i + |whole| - |Ring(l', k)|;
          assert Ring(l', k)[i] == whole[j];
          if j < |whole| - 1 { assert whole[j] == Ring(l, k)[j]; }
        }
      }
    }
  }

  /** The newest cached event of the resource says the same: UID, reason and message. */
  predicate Repeated(l: Log, e: Event) {
    var ring := Ring(l, e.key);
    ring != [] && (var last := ring[|ring| - 1]; last.uid == e.uid && last.reason == e.reason && last.message == e.message)
  }

  /** What is listed first after an emit, whether or not its write worked: the event as it was emitted, under
      the next number, or, if and only if it repeats the newest one, that one with its count raised.  The
      listings of other resources stay as they were. */
  lemma EmitIsListed(l: Log, e: Event, works: bool, limit: int, k: Key)
    requires Valid(e) && l.bound > 0 && RingsKeyed(l)
    ensures var l', ring := Emit(l, e, works), Ring(l, e.key);
            var page := ListByResource(l', e.key, limit);
            && page != [] && page[0].key == e.key && page[0].uid == e.uid && page[0].reason == e.reason && page[0].message == e.message
            && page[0] == (if Repeated(l, e) then ring[|ring| - 1].(count := ring[|ring| - 1].count + 1)
                           else e.(number := l.nextSeq, count := if e.count == 0 then 1 else e.count))
            && l'.nextSeq == (if Repeated(l, e) then l.nextSeq else l.nextSeq + 1)
            && (k != e.key ==> ListByResource(l', k, limit) == ListByResource(l, k, limit))
  {
    var l', ring := Emit(l, e, works), Ring(l, e.key);
    if ring != [] { assert ring[|ring| - 1].key == e.key; }
    assert Folds(l, e) == Repeated(l, e);
    var r, now := Recorded(l, e), Ring(l', e.key);
    assert now == if Folds(l, e) then ring[..|ring| - 1] + [r] else KeepLast(ring + [r], l.bound);
    assert now != [] && now[|now| - 1] == r;
    assert Newest(now, Cap(limit, l'.bound))[0] == r;
    assert k != e.key ==> Ring(l', k) == Ring(l, k) && Stored(l', k) == Stored(l, k);
  }

  /** With every write persisted, the stored events of the resource grow by one if and only if the event does
      not repeat the newest cached one. */
  lemma EmitIsStored(l: Log, e: Event)
    requires Consistent(l) && Valid(e)
    ensures var st, st' := Stored(l, e.key), Stored(Emit(l, e, true), e.key);
            if Repeated(l, e) then |st'| == |st| > 0 && st'[..|st| - 1] == st[..|st| - 1] else |st'| == |st| + 1 && st'[..|st|] == st
  {
    assert Agrees(l, e.key);
    EmitMoves(l, e, e.key);
    KeyedByIndex(l, e.key);
    hide Emit, Put, OfKey, Recorded, InOrder;
  }

  lemma KeyedByIndex(l: Log, k: Key)
    requires Agrees(l, k)
    ensures forall i :: 0 <= i < |Ring(l, k)| ==> Ring(l, k)[i].key == k
  {
    OfKeyIsPart(l.bySeq, k);
    var ring, st := Ring(l, k), Stored(l, k);
    forall i | 0 <= i < |ring| ensures ring[i].key == k {
      assert ring[i] == st[i + |st| - |ring|];
      assert st[i + |st| - |ring|] in st;
    }
  }

  /** Totals */

  /** How much an emit adds to the counts of its resource. */
  function Weight(l: Log, e: Event): int { if Folds(l, e) || e.count == 0 then 1 else e.count }

  lemma TotalOfAppend(st: Index, r: Event)
    ensures Total(st + [r]) == Total(st) + r.count
  {
    assert (st + [r])[..|st|] == st;
  }

  lemma TotalOfFold(st: Index, r: Event)
    requires st != [] && r.count == st[|st| - 1].count + 1
    ensures Total(st[..|st| - 1] + [r]) == Total(st) + 1
  {
    TotalOfAppend(st[..|st| - 1], r);
  }

  lemma RecordedCount(l: Log, e: Event)
    requires Folds(l, e) ==> Agrees(l, e.key)
    ensures var st, r := Stored(l, e.key), Recorded(l, e);
            if Folds(l, e) then st != [] && r.count == st[|st| - 1].count + 1 else r.count == Weight(l, e)
  {
    hide OfKey, SameFoldKey;
  }

  lemma EmitAddsWeight(l: Log, e: Event, k: Key)
    requires Consistent(l) && Valid(e)
    ensures Total(Stored(Emit(l, e, true), k)) == Total(Stored(l, k)) + (if k == e.key then Weight(l, e) else 0)
  {
    assert Agrees(l, e.key) && InOrder(l);
    hide Emit, Agrees, InOrder, Total, Stored, Ring, Recorded, Folds;
    EmitMoves(l, e, k);
    if k == e.key {
      var st, r := Stored(l, k), Recorded(l, e);
      RecordedCount(l, e);
      if Folds(l, e) { TotalOfFold(st, r); } else { TotalOfAppend(st, r); }
    }
  }

  /** How many of the acts emitted a valid event for `k`. */
  function Emitted(acts: seq<Act>, k: Key): nat {
    if acts == [] then 0
    else
      var a := acts[|acts| - 1];
      Emitted(acts[..|acts| - 1], k) + (if a.Emitting? && Valid(a.e) && a.e.key == k then 1 else 0)
  }

  /** No emit is lost by folding: with Count left unset, the counts of a resource add up to the number
      of its emits, across restarts too. */
  lemma {:induction false} CountsAddUp(l: Log, acts: seq<Act>, k: Key)
    requires Consistent(l) && forall i :: 0 <= i < |acts| && acts[i].Emitting? ==> acts[i].e.count == 0
    ensures Total(Stored(DoAll(l, acts), k)) == Total(Stored(l, k)) + Emitted(acts, k)
  {
    hide Total, Consistent, Emit, Stored;
    if acts != [] {
      var init, a := acts[..|acts| - 1], acts[|acts| - 1];
      CountsAddUp(l, init, k);
      HistoryIsConsistent(l, init);
      var m := DoAll(l, init);
      if a.Restarting? { RestartKeepsStored(m, k); }
      else if Valid(a.e) { EmitAddsWeight(m, a.e, k); }
      else { InvalidIsRefused(m, a.e); }
    }
  }

  lemma RestartKeepsStored(l: Log, k: Key)
    ensures Stored(Restart(l), k) == Stored(l, k)
  {
  }

  /** An event without a kind or a name is refused, and only such an event. */
  lemma InvalidIsRefused(l: Log, e: Event)
    ensures e.key.kind == "" || e.key.name == "" <==> !Valid(e)
    ensures !Valid(e) ==> forall works :: Emit(l, e, works) == l
  {
  }

  /** Cursor paging */

  lemma {:induction false} SinceIsPart(ix: Index, start: int, x: Event)
    ensures x in Since(ix, start) <==> x in ix && x.number >= start
  {
    if ix != [] {
      SinceIsPart(ix[..|ix| - 1], start, x);
      assert ix == ix[..|ix| - 1] + [ix[|ix| - 1]];
    }
  }

  /** A page is what it says, the first events after the cursor, unless the cursor is the largest
      int64: `cursor + 1` then wraps and the page starts over from the beginning. */
  lemma PageIsExactIff(l: Log, cursor: int, limit: int)
    requires InOrder(l) && l.nextSeq <= MAX_SEQ && cursor <= MAX_SEQ
    ensures ListSince(l, cursor, limit) == Take(Since(l.bySeq, cursor + 1), PageSize(limit)) <==> cursor < MAX_SEQ || l.bySeq == []
  {
    if cursor == MAX_SEQ {
      SinceIsTail(l.bySeq, cursor + 1, |l.bySeq|);
      SinceIsTail(l.bySeq, 0, 0);
    } else if cursor + 1 < 0 {
      SinceIsTail(l.bySeq, 0, 0);
      SinceIsTail(l.bySeq, cursor + 1, 0);
    }
  }

  /** A consumer that loads its cursor, lists, handles the page and saves the last number it saw. */
  datatype Consumer = Consumer(log: Log, cursor: int, page: seq<Event>, received: seq<int>)

  /** `works` says whether the write of an emit, or of the cursor, succeeds. */
  datatype Step = EmitStep(e: Event, works: bool) | RestartStep | ListStep(limit: int) | SaveStep(works: bool)

  predicate Enabled(c: Consumer, s: Step) {
    match s
    case EmitStep(_, _) => c.log.nextSeq < MAX_SEQ
    case ListStep(_) => c.page == []
    case _ => true
  }

  /** A page whose cursor is not saved is forgotten: the next listing starts from the cursor before it. */
  function Next(c: Consumer, s: Step): Consumer {
    match s
    case EmitStep(e, works) => c.(log := Emit(c.log, e, works))
    case RestartStep => c.(log := Restart(c.log))
    case ListStep(limit) =>
      var page := ListSince(c.log, c.cursor, limit);
      c.(page := page, received := c.received + Seqs(page))
    case SaveStep(works) => c.(cursor := if works then Position(c) else c.cursor, page := [])
  }

  /** Where the consumer stands: the last number of its page, or else its saved cursor. */
  function Position(c: Consumer): int { if c.page == [] then c.cursor else c.page[|c.page| - 1].number }

  ghost predicate Strictly(s: seq<int>) { forall i, j :: 0 <= i < j < |s| ==> s[i] < s[j] }

  /** What always holds: the consumer has received stored numbers only, and it stands at one of them. */
  ghost predicate Sound(c: Consumer) {
    && Numbered(c.log) && c.log.nextSeq <= MAX_SEQ
    && (forall n :: n in c.received ==> n in Seqs(c.log.bySeq))
    && (c.cursor == 0 || c.cursor in c.received) && (c.page == [] || Position(c) in c.received)
    && c.cursor <= Position(c)
  }

  /** `n` is stored, the consumer is past it and has not received it. */
  predicate Misses(c: Consumer, n: int) { n in Seqs(c.log.bySeq) && n <= Position(c) && n !in c.received }

  /** An emit makes up, by folding, for the failed write of `n`, below where the consumer stands. */
  predicate Skips(c: Consumer, s: Step, n: int) {
    s.EmitStep? && s.works && Valid(s.e) && n == Recorded(c.log, s.e).number && n !in Seqs(c.log.bySeq) && n < Position(c)
  }

  /** The consumer stands before a number it has received last: the save after that page failed. */
  predicate Behind(c: Consumer) { c.received != [] && Position(c) < c.received[|c.received| - 1] }

  predicate Repeats(c: Consumer, s: Step) { s.ListStep? && Behind(c) }

  lemma PositionIsStored(c: Consumer)
    requires Sound(c)
    ensures 0 <= c.cursor < MAX_SEQ && 0 <= Position(c) < MAX_SEQ && (Position(c) == 0 || Position(c) in Seqs(c.log.bySeq))
    ensures forall n :: n in Seqs(c.log.bySeq) ==> 1 <= n
  {
    hide Seqs;
    forall n | n in Seqs(c.log.bySeq) ensures 1 <= n < c.log.nextSeq { var x := SeqsWitness(c.log.bySeq, n); }
  }

  /** The log moves on: numbers are only added. */
  lemma LogMovesOn(c: Consumer, l: Log)
    requires Sound(c) && Numbered(l) && l.nextSeq <= MAX_SEQ && forall n :: n in Seqs(c.log.bySeq) ==> n in Seqs(l.bySeq)
    ensures Sound(c.(log := l))
  {
    hide Seqs, Numbered;
  }

  lemma EmittingMissesIff(c: Consumer, s: Step, n: int)
    requires s.EmitStep? && Sound(c) && Enabled(c, s)
    ensures Sound(Next(c, s)) && (Misses(Next(c, s), n) <==> Misses(c, n) || Skips(c, s, n))
  {
    hide Emit, Seqs, Recorded;
    EmitKeepsNumbers(c.log, s.e, s.works);
    PositionIsStored(c);
    LogMovesOn(c, Emit(c.log, s.e, s.works));
    hide Numbered;
    assert Position(Next(c, s)) == Position(c);
  }

  /** Where an ascending index reaches `start`. */
  lemma {:induction false} FindStart(ix: Index, start: int) returns (i: nat)
    requires Ascending(ix)
    ensures i <= |ix| && (forall j :: 0 <= j < i ==> ix[j].number < start) && (forall j :: i <= j < |ix| ==> ix[j].number >= start)
  {
    i := |ix|;
    if ix != [] && ix[|ix| - 1].number >= start { i := FindStart(ix[..|ix| - 1], start); }
  }

  lemma TakeIsStretch(ix: Index, i: nat, n: nat) returns (m: nat)
    requires i <= |ix|
    ensures i <= m <= |ix| && Take(ix[i..], n) == ix[i..m] && (n > 0 && m == i ==> m == |ix|)
  {
    m := if |ix| - i > n then i + n else |ix|;
  }

  /** A page is a stretch of the index: everything from the position up to its last number. */
  lemma PageIsStretch(c: Consumer, limit: int) returns (i: nat, m: nat)
    requires Sound(c) && c.page == []
    ensures i <= m <= |c.log.bySeq| && ListSince(c.log, c.cursor, limit) == c.log.bySeq[i..m]
    ensures (forall j :: 0 <= j < i ==> c.log.bySeq[j].number <= c.cursor) && (forall j :: i <= j < |c.log.bySeq| ==> c.log.bySeq[j].number > c.cursor)
    ensures m == i ==> m == |c.log.bySeq|
  {
    var ix := c.log.bySeq;
    assert Ascending(ix);
    hide Since, Seqs, Numbered, Ascending, Strictly;
    PositionIsStored(c);
    i := FindStart(ix, c.cursor + 1);
    SinceIsTail(ix, c.cursor + 1, i);
    m := TakeIsStretch(ix, i, PageSize(limit));
  }

  lemma SeqsOfPart(ix: Index, n: nat, m: nat)
    requires n <= m <= |ix|
    ensures Seqs(ix[n..m]) == Seqs(ix)[n..m]
  {
  }

  /** The same in numbers alone. */
  ghost predicate Stretch(s: seq<int>, cursor: int, i: nat, m: nat) {
    && i <= m <= |s| && Strictly(s)
    && (forall j :: 0 <= j < i ==> s[j] <= cursor) && (forall j :: i <= j < |s| ==> s[j] > cursor)
  }

  lemma PageNumbers(c: Consumer, limit: int) returns (i: nat, m: nat)
    requires Sound(c) && c.page == []
    ensures var s, d := Seqs(c.log.bySeq), Next(c, ListStep(limit));
            && Stretch(s, c.cursor, i, m) && d.received == c.received + s[i..m] && d.log == c.log
            && Position(d) == (if i < m then s[m - 1] else c.cursor) && d.cursor == c.cursor && (i < m <==> d.page != []) && (m == i ==> m == |s|)
  {
    i, m := PageIsStretch(c, limit);
    SeqsOfPart(c.log.bySeq, i, m);
    hide ListSince, Since;
  }

  lemma StretchExtends(r: seq<int>, s: seq<int>, cursor: int, i: nat, m: nat)
    requires Stretch(s, cursor, i, m) && Strictly(r) && (r != [] ==> r[|r| - 1] <= cursor)
    ensures Strictly(r + s[i..m])
  {
    var more, k := r + s[i..m], |r|;
    forall a, b | 0 <= a < b < |more| ensures more[a] < more[b] {
      if a < k <= b { assert more[a] <= r[k - 1] && more[b] == s[i + b - k]; }
      else if k <= a { assert more[a] == s[i + a - k] && more[b] == s[i + b - k]; }
    }
  }

  lemma StretchRepeats(r: seq<int>, s: seq<int>, cursor: int, i: nat, m: nat)
    requires Stretch(s, cursor, i, m) && (m == i ==> m == |s|) && r != [] && r[|r| - 1] > cursor && r[|r| - 1] in s
    ensures !Strictly(r + s[i..m])
  {
    var more, k := r + s[i..m], |r|;
    var j :| 0 <= j < |s| && s[j] == r[k - 1];
    assert i <= j && s[i] <= s[j];
    assert more[k - 1] == r[k - 1] && more[k] == s[i];
  }

  lemma NotStrictForLong(r: seq<int>, more: seq<int>)
    requires !Strictly(r)
    ensures !Strictly(r + more)
  {
    var i, j :| 0 <= i < j < |r| && r[i] >= r[j];
    assert (r + more)[i] == r[i] && (r + more)[j] == r[j];
  }

  lemma StretchMisses(r: seq<int>, s: seq<int>, cursor: int, i: nat, m: nat, n: int)
    requires Stretch(s, cursor, i, m) && n in s && n <= (if i < m then s[m - 1] else cursor)
    ensures n in r + s[i..m] <==> n in r || n > cursor
  {
    var j :| 0 <= j < |s| && s[j] == n;
    if n > cursor {
      assert i <= j < m;
      assert s[i..m][j - i] == n;
    } else {
      assert forall b :: 0 <= b < |s[i..m]| ==> s[i..m][b] == s[i + b] > cursor;
    }
  }

  lemma ListingKeepsSound(c: Consumer, limit: int)
    requires Sound(c) && c.page == []
    ensures Sound(Next(c, ListStep(limit))) && Position(Next(c, ListStep(limit))) >= c.cursor
  {
    hide Seqs, Numbered, ListSince;
    var i, m := PageNumbers(c, limit);
    var d, s := Next(c, ListStep(limit)), Seqs(c.log.bySeq);
    if i < m { assert s[i..m][m - 1 - i] == s[m - 1]; }
  }

  lemma ListingMissesIff(c: Consumer, limit: int, n: int)
    requires Sound(c) && c.page == []
    ensures Misses(Next(c, ListStep(limit)), n) <==> Misses(c, n)
  {
    hide Seqs, Numbered, ListSince;
    var i, m := PageNumbers(c, limit);
    var d, s := Next(c, ListStep(limit)), Seqs(c.log.bySeq);
    ListingKeepsSound(c, limit);
    if n in s && n <= Position(d) { StretchMisses(c.received, s, c.cursor, i, m, n); }
    hide Next;
  }

  lemma StepMissesIff(c: Consumer, s: Step, n: int)
    requires Sound(c) && Enabled(c, s)
    ensures Sound(Next(c, s)) && (Misses(Next(c, s), n) <==> (Misses(c, n) && n <= Position(Next(c, s))) || Skips(c, s, n))
  {
    match s
    case EmitStep(_, _) => EmittingMissesIff(c, s, n);
    case RestartStep =>
      RestartKeepsNumbers(c.log);
      hide Seqs, Numbered;
      LogMovesOn(c, Restart(c.log));
    case ListStep(limit) =>
      ListingKeepsSound(c, limit);
      ListingMissesIff(c, limit, n);
      hide Seqs, Numbered, ListSince;
    case SaveStep(_) => hide Seqs, Numbered, ListSince;
  }

  lemma StepRepeatsIff(c: Consumer, s: Step)
    requires Sound(c) && Enabled(c, s)
    ensures Strictly(Next(c, s).received) <==> Strictly(c.received) && !Repeats(c, s)
  {
    if s.ListStep? {
      hide Seqs, Numbered, ListSince;
      var i, m := PageNumbers(c, s.limit);
      var r, t := c.received, Seqs(c.log.bySeq);
      if !Strictly(r) { NotStrictForLong(r, t[i..m]); }
      else if Behind(c) { StretchRepeats(r, t, c.cursor, i, m); }
      else { StretchExtends(r, t, c.cursor, i, m); }
    } else {
      hide Seqs, Numbered, Emit;
    }
  }

  /** Runs */

  ghost predicate IsRun(c: Consumer, steps: seq<Step>)
    decreases |steps|
  {
    steps == [] || (Enabled(c, steps[0]) && IsRun(Next(c, steps[0]), steps[1..]))
  }

  ghost function After(c: Consumer, steps: seq<Step>): Consumer
    decreases |steps|
  {
    if steps == [] then c else After(Next(c, steps[0]), steps[1..])
  }

  /** The consumer never goes back below `n`. */
  ghost predicate StaysPast(c: Consumer, steps: seq<Step>, n: int)
    decreases |steps|
  {
    n <= Position(c) && (steps == [] || StaysPast(Next(c, steps[0]), steps[1..], n))
  }

  /** Some emit of the run skips `n`, and the consumer never goes back below it. */
  ghost predicate SkippedForGood(c: Consumer, steps: seq<Step>, n: int)
    decreases |steps|
  {
    && steps != []
    && ((Skips(c, steps[0], n) && StaysPast(Next(c, steps[0]), steps[1..], n)) || SkippedForGood(Next(c, steps[0]), steps[1..], n))
  }

  ghost predicate NothingSkipped(c: Consumer, steps: seq<Step>) { forall n :: !SkippedForGood(c, steps, n) }

  ghost predicate RepeatsSomewhere(c: Consumer, steps: seq<Step>)
    decreases |steps|
  {
    steps != [] && (Repeats(c, steps[0]) || RepeatsSomewhere(Next(c, steps[0]), steps[1..]))
  }

  lemma {:induction false} RunMissesIff(c: Consumer, steps: seq<Step>, n: int)
    requires Sound(c) && IsRun(c, steps)
    ensures Sound(After(c, steps))
    ensures Misses(After(c, steps), n) <==> (Misses(c, n) && StaysPast(c, steps, n)) || SkippedForGood(c, steps, n)
    decreases |steps|
  {
    hide Sound, Skips, Next, Enabled, Position;
    if steps != [] {
      StepMissesIff(c, steps[0], n);
      RunMissesIff(Next(c, steps[0]), steps[1..], n);
    }
  }

  lemma {:induction false} RunRepeatsIff(c: Consumer, steps: seq<Step>)
    requires Sound(c) && IsRun(c, steps)
    ensures Strictly(After(c, steps).received) <==> Strictly(c.received) && !RepeatsSomewhere(c, steps)
    decreases |steps|
  {
    hide Sound, Strictly, Repeats, Next, Enabled;
    if steps != [] {
      StepRepeatsIff(c, steps[0]);
      StepMissesIff(c, steps[0], 0);
      RunRepeatsIff(Next(c, steps[0]), steps[1..]);
    }
  }

  /** Of two ascending sequences, one within the other, the inner one is a prefix if it misses nothing up
      to its end. */
  lemma {:induction false} CompleteIsPrefix(r: seq<int>, s: seq<int>, i: nat)
    requires Strictly(r) && Strictly(s) && i <= |r| && (forall n :: n in r ==> n in s)
    requires r != [] ==> forall n :: n in s && n <= r[|r| - 1] ==> n in r
    ensures i <= |s| && r[..i] == s[..i]
  {
    if i > 0 {
      CompleteIsPrefix(r, s, i - 1);
      var k := i - 1;
      assert r[k] in r && (k > 0 ==> r[k - 1] == r[..k][k - 1] == s[..k][k - 1] == s[k - 1]);
      var j :| 0 <= j < |s| && s[j] == r[k];
      assert j >= k;
      assert s[k] <= r[k] <= r[|r| - 1] && s[k] in s;
      var m :| 0 <= m < |r| && r[m] == s[k];
      assert m >= k;
      assert s[k] == r[k];
      assert r[..i] == r[..k] + [r[k]] && s[..i] == s[..k] + [s[k]];
    }
  }

  lemma PrefixIsComplete(r: seq<int>, s: seq<int>, n: int)
    requires Strictly(s) && r <= s && r != [] && n in s && n <= r[|r| - 1]
    ensures n in r
  {
    var j :| 0 <= j < |s| && s[j] == n;
    assert s[|r| - 1] == r[|r| - 1];
    assert j < |r| && r[j] == n;
  }

  lemma NumbersAscend(l: Log)
    requires Numbered(l)
    ensures Strictly(Seqs(l.bySeq))
  {
  }

  lemma PrefixIff(c: Consumer)
    requires Sound(c) && Strictly(c.received) && !Behind(c)
    ensures c.received <= Seqs(c.log.bySeq) <==> forall n :: !Misses(c, n)
  {
    hide Seqs;
    PositionIsStored(c);
    NumbersAscend(c.log);
    hide Numbered;
    var r, s := c.received, Seqs(c.log.bySeq);
    if forall n :: !Misses(c, n) {
      if r != [] {
        forall n | n in s && n <= r[|r| - 1] ensures n in r { assert !Misses(c, n); }
      }
      CompleteIsPrefix(r, s, |r|);
      assert r[..|r|] == r;
    }
    if r <= s && r != [] {
      forall n | n in s && n <= Position(c) ensures n in r {
        if Position(c) in r { PrefixIsComplete(r, s, n); }
      }
    }
  }

  /** Main result: under any interleaving of emits, failed writes and restarts with the consumer's own steps,
      failed saves of its cursor among them, the consumer receives stored numbers only.  It misses a number if
      and only if an emit made up for that number's failed write below its position and it never went back.
      It receives no number twice, but all ascending, if and only if it never lists after a failed save.  And
      an empty page means that nothing stored lies beyond the position. */
  lemma EachNumberOnce(c: Consumer, steps: seq<Step>)
    requires Sound(c) && IsRun(c, steps) && forall n :: !Misses(c, n)
    ensures var d := After(c, steps);
            && Sound(d) && (forall n :: n in d.received ==> n in Seqs(d.log.bySeq))
            && (forall n :: Misses(d, n) <==> SkippedForGood(c, steps, n))
            && (Strictly(d.received) <==> Strictly(c.received) && !RepeatsSomewhere(c, steps))
            && (forall limit :: d.page == [] && ListSince(d.log, d.cursor, limit) == [] ==>
                  forall n :: n in Seqs(d.log.bySeq) ==> n <= Position(d))
  {
    hide IsRun, After, SkippedForGood, Misses;
    RunRepeatsIff(c, steps);
    var d := After(c, steps);
    RunMissesIff(c, steps, 0);
    forall n ensures Misses(d, n) <==> SkippedForGood(c, steps, n) { RunMissesIff(c, steps, n); }
    forall limit | d.page == [] && ListSince(d.log, d.cursor, limit) == []
      ensures forall n :: n in Seqs(d.log.bySeq) ==> n <= Position(d)
    {
      var i, m := PageIsStretch(d, limit);
      forall n | n in Seqs(d.log.bySeq) ensures n <= Position(d) {
        var j :| 0 <= j < |d.log.bySeq| && Seqs(d.log.bySeq)[j] == n;
      }
    }
  }

  /** While no page has to be listed again, what the consumer has received is a prefix of what is stored if
      and only if nothing was skipped. */
  lemma ReceivedIsPrefixIff(c: Consumer, steps: seq<Step>)
    requires Sound(c) && IsRun(c, steps) && (forall n :: !Misses(c, n)) && Strictly(c.received)
    requires !RepeatsSomewhere(c, steps) && !Behind(After(c, steps))
    ensures After(c, steps).received <= Seqs(After(c, steps).log.bySeq) <==> NothingSkipped(c, steps)
  {
    hide Misses, Sound, Strictly, Behind, Seqs, ListSince, Next, Skips;
    EachNumberOnce(c, steps);
    var d := After(c, steps);
    PrefixIff(d);
    if n :| SkippedForGood(c, steps, n) {
      assert Misses(d, n);
    } else {
      forall n ensures !Misses(d, n) { assert !SkippedForGood(c, steps, n); }
    }
  }

  lemma ConsumersStart(bound: nat)
    ensures var c := Consumer(Fresh(bound), 0, [], []); Sound(c) && (forall n :: !Misses(c, n)) && Strictly(c.received)
  {
  }

  /** With every write of an event persisted nothing is ever skipped: a fold then always finds its event stored. */
  lemma {:induction false} PersistedRunsSkipNothing(c: Consumer, steps: seq<Step>, n: int)
    requires Sound(c) && Consistent(c.log) && IsRun(c, steps) && forall i :: 0 <= i < |steps| && steps[i].EmitStep? ==> steps[i].works
    ensures !SkippedForGood(c, steps, n)
    decreases |steps|
  {
    hide Sound, Consistent, Skips, Next, Enabled, StaysPast;
    if steps != [] {
      assert forall i :: 0 <= i < |steps[1..]| ==> steps[1..][i] == steps[i + 1];
      PersistedStep(c, steps[0], n);
      StepMissesIff(c, steps[0], n);
      PersistedRunsSkipNothing(Next(c, steps[0]), steps[1..], n);
    }
  }

  lemma PersistedStep(c: Consumer, s: Step, n: int)
    requires Sound(c) && Consistent(c.log) && Enabled(c, s) && (s.EmitStep? ==> s.works)
    ensures Consistent(Next(c, s).log) && !Skips(c, s, n)
  {
    match s
    case EmitStep(e, _) =>
      assert Agrees(c.log, e.key);
      RecordedFits(c.log, e);
      PositionIsStored(c);
      EmitKeepsConsistent(c.log, e);
      hide Emit, Recorded, Folds;
      if Position(c) != 0 { var x := SeqsWitness(c.log.bySeq, Position(c)); }
    case RestartStep => RestartKeepsConsistent(c.log);
    case ListStep(_) => hide Consistent;
    case SaveStep(_) => hide Consistent;
  }

  /** Folds and cursors */

  lemma {:induction false} SinceSeqs(a: Index, b: Index, start: int)
    requires Seqs(a) == Seqs(b)
    ensures Seqs(Since(a, start)) == Seqs(Since(b, start)) && |Since(a, start)| == |Since(b, start)|
    decreases |a|
  {
    assert |a| == |b|;
    if a != [] {
      var n := |a| - 1;
      assert a[n].number == Seqs(a)[n] == b[n].number;
      assert Seqs(a[..n]) == Seqs(a)[..n] && Seqs(b[..n]) == Seqs(b)[..n];
      SinceSeqs(a[..n], b[..n], start);
      var x, y := Since(a[..n], start), Since(b[..n], start);
      assert (x + [a[n]])[..|x|] == x && (y + [b[n]])[..|y|] == y;
    }
  }

  /** A fold goes out with its new count exactly to the cursors it is still ahead of: the following pages
      list the same numbers as without it, and the folded event is among them if and only if its number is
      above the cursor. */
  lemma FoldIsDeliveredIff(l: Log, e: Event, cursor: int, limit: int)
    requires Consistent(l) && Valid(e) && Folds(l, e) && cursor < MAX_SEQ
    ensures var l', r := Emit(l, e, true), Recorded(l, e);
            && Seqs(ListSince(l', cursor, limit)) == Seqs(ListSince(l, cursor, limit))
            && (r in Since(l'.bySeq, StartSeq(cursor)) <==> r.number > cursor)
  {
    assert Agrees(l, e.key);
    RecordedFits(l, e);
    EmitWrites(l, e);
    var l', r := Emit(l, e, true), Recorded(l, e);
    hide Emit, Recorded, Folds, Agrees;
    PutExtendsIff(l.bySeq, r);
    assert Seqs(l'.bySeq) == Seqs(l.bySeq);
    SinceSeqs(l.bySeq, l'.bySeq, StartSeq(cursor));
    TakeSeqs(Since(l.bySeq, StartSeq(cursor)), Since(l'.bySeq, StartSeq(cursor)), PageSize(limit));
    SinceIsPart(l'.bySeq, StartSeq(cursor), r);
    PutHolds(l.bySeq, r);
  }

  lemma TakeSeqs(a: Index, b: Index, n: nat)
    requires Seqs(a) == Seqs(b) && |a| == |b|
    ensures Seqs(Take(a, n)) == Seqs(Take(b, n))
  {
    var x, y := Take(a, n), Take(b, n);
    assert forall i :: 0 <= i < |x| ==> Seqs(x)[i] == Seqs(a)[i] == Seqs(b)[i] == Seqs(y)[i];
  }

  lemma {:induction false} PutHolds(ix: Index, e: Event)
    ensures e in Put(ix, e)
  {
    if !(ix == [] || ix[|ix| - 1].number <= e.number) { PutHolds(ix[..|ix| - 1], e); }
  }

  /** Limits */

  /** To a consumer that is past the folded event, the next page is what it would have been without the
      fold: the new count is never delivered. */
  lemma FoldIsNotRedelivered(l: Log, e: Event, cursor: int, limit: int)
    requires Consistent(l) && Valid(e) && Folds(l, e)
    requires Recorded(l, e).number <= cursor < MAX_SEQ
    ensures ListSince(Emit(l, e, true), cursor, limit) == ListSince(l, cursor, limit)
  {
    assert Agrees(l, e.key);
    RecordedFits(l, e);
    EmitWrites(l, e);
    hide Emit, Recorded, Folds;
    PutBelowStart(l.bySeq, Recorded(l, e), cursor + 1);
  }

  lemma {:induction false} PutBelowStart(ix: Index, e: Event, start: int)
    requires Ascending(ix) && e.number < start
    ensures Since(Put(ix, e), start) == Since(ix, start)
  {
    if ix == [] || ix[|ix| - 1].number < e.number {
      assert (ix + [e])[..|ix|] == ix;
    } else {
      var init, last := ix[..|ix| - 1], ix[|ix| - 1];
      if last.number == e.number {
        assert (init + [e])[..|init|] == init;
      } else {
        PutBelowStart(init, e, start);
        assert (Put(init, e) + [last])[..|Put(init, e)|] == Put(init, e);
      }
    }
  }

  /** A write that failed and is made up for by a later fold goes below the cursor of a consumer that
      has moved on, which never sees it: the consumer has received [2] while 1 and 2 are stored. */
  lemma LateFoldIsSkipped(a: Event, b: Event)
    requires Valid(a) && Valid(b) && a.key != b.key
    ensures var l1 := Emit(Fresh(50), a, false);
            var l2 := Emit(l1, b, true);
            var l3 := Emit(l2, a, true);
            && Seqs(ListSince(l2, 0, 0)) == [2] && Seqs(l3.bySeq) == [1, 2] && ListSince(l3, 2, 0) == []
  {
    hide Emit, Recorded, Put, Since, Seqs;
    var l1 := Emit(Fresh(50), a, false);
    var l2 := Emit(l1, b, true);
    FailedEmit(a);
    NextEmit(l1, b);
    var rb, ra := Recorded(l1, b), Recorded(l2, a);
    LateFold(l2, a, Recorded(Fresh(50), a));
    EmitWrites(l2, a);
    TwoEntries(ra, rb);
  }

  lemma PutBefore(ra: Event, rb: Event)
    requires ra.number < rb.number
    ensures Put([rb], ra) == [ra, rb]
  {
    assert [rb][..0] == [];
    assert Put([], ra) == [ra];
  }

  lemma SeqsOfTwo(ra: Event, rb: Event)
    ensures Seqs([ra, rb]) == [ra.number, rb.number] && Seqs([rb]) == [rb.number]
  {
    assert Seqs([ra, rb])[0] == ra.number && Seqs([ra, rb])[1] == rb.number && Seqs([rb])[0] == rb.number;
    hide Seqs;
  }

  lemma TwoEntries(ra: Event, rb: Event)
    requires ra.number == 1 && rb.number == 2
    ensures Put([rb], ra) == [ra, rb] && Seqs([ra, rb]) == [1, 2] && Seqs([rb]) == [2]
    ensures Since([rb], 1) == [rb] && Since([ra, rb], 3) == []
  {
    hide *;
    PutBefore(ra, rb);
    SeqsOfTwo(ra, rb);
    SinceIsTail([rb], 1, 0);
    SinceIsTail([ra, rb], 3, 2);
  }

  lemma LateFold(l: Log, a: Event, r: Event)
    requires Ring(l, a.key) == [r] && SameFoldKey(r, a)
    ensures Recorded(l, a).number == r.number
  {
  }

  lemma FailedEmit(a: Event)
    requires Valid(a)
    ensures var l1, r := Emit(Fresh(50), a, false), Recorded(Fresh(50), a);
            && l1.bySeq == [] && l1.nextSeq == 2 && l1.bound == 50
            && Ring(l1, a.key) == [r] && r.number == 1 && SameFoldKey(r, a)
            && forall k :: k != a.key ==> Ring(l1, k) == []
  {
  }

  lemma NextEmit(l: Log, b: Event)
    requires Valid(b) && Ring(l, b.key) == [] && l.bySeq == []
    ensures var l2 := Emit(l, b, true);
            && l2.bySeq == [Recorded(l, b)] && Recorded(l, b).number == l.nextSeq
            && forall k :: k != b.key ==> Ring(l2, k) == Ring(l, k)
  {
  }
}
