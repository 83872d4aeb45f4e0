/** Stall detection: progress of a rolling update is measured against high-water marks, so that counts
    which go up and down cannot keep an update looking alive. */
module Stall {
  import opened Common

  datatype Counts = Counts(updated: nat, ready: nat, available: nat)

  /** The marks of an update block. */
  datatype Peaks = Peaks(updated: nat, ready: nat, available: nat)

  /** The update block a service carries from tick to tick. */
  datatype Block = Block(generation: int, startedAt: int, lastProgressAt: int, peaks: Peaks)

  /** What one reconcile tick sees.  `finished` is "no outdated instance left", `gated` is "blocked on a
      dependency". */
  datatype Tick = Tick(generation: int, counts: Counts, now: int, finished: bool, gated: bool)

  predicate Progressed(p: Peaks, c: Counts) { c.ready > p.ready || c.available > p.available || c.updated > p.updated }

  function Higher(a: nat, b: nat): nat { if b > a then b else a }

  function Raised(p: Peaks, c: Counts): Peaks {
    Peaks(Higher(p.updated, c.updated), Higher(p.ready, c.ready), Higher(p.available, c.available))
  }

  const NO_PEAKS := Peaks(0, 0, 0)

  /** A block of another template generation is not inherited from. */
  function Inherited(prev: Option<Block>, t: Tick): Option<Block> {
    if prev.Some? && prev.value.generation == t.generation then prev else None
  }

  /** The block after a tick.  Progress is judged before the marks are raised. */
  function Step(prev: Option<Block>, t: Tick): Option<Block> {
    if t.finished then None
    else
      var b := Inherited(prev, t);
      if b.None? then Some(Block(t.generation, t.now, t.now, Raised(NO_PEAKS, t.counts)))
      else
        var moved := t.gated || Progressed(b.value.peaks, t.counts);
        Some(Block(t.generation, b.value.startedAt, if moved then t.now else b.value.lastProgressAt, Raised(b.value.peaks, t.counts)))
  }

  function Run(prev: Option<Block>, ts: seq<Tick>): Option<Block> {
    if ts == [] then prev else Step(Run(prev, ts[..|ts| - 1]), ts[|ts| - 1])
  }

  /** One generation, still rolling. */
  predicate SameRoll(ts: seq<Tick>, generation: int) {
    forall i :: 0 <= i < |ts| ==> ts[i].generation == generation && !ts[i].finished
  }

  /** Marks */

  /** `p` is the largest of what the ticks reached, count by count. */
  ghost predicate AreMaxima(p: Peaks, ts: seq<Tick>) {
    && (forall i :: 0 <= i < |ts| ==> ts[i].counts.updated <= p.updated && ts[i].counts.ready <= p.ready && ts[i].counts.available <= p.available)
    && (p.updated == 0 || exists i :: 0 <= i < |ts| && ts[i].counts.updated == p.updated)
    && (p.ready == 0 || exists i :: 0 <= i < |ts| && ts[i].counts.ready == p.ready)
    && (p.available == 0 || exists i :: 0 <= i < |ts| && ts[i].counts.available == p.available)
  }

  lemma MaximaExtend(p: Peaks, ts: seq<Tick>, t: Tick)
    requires AreMaxima(p, ts)
    ensures AreMaxima(Raised(p, t.counts), ts + [t])
  {
    var q, us := Raised(p, t.counts), ts + [t];
    assert us[|ts|] == t && forall i :: 0 <= i < |ts| ==> us[i] == ts[i];
    if q.updated != 0 && q.updated == p.updated { var i :| 0 <= i < |ts| && ts[i].counts.updated == p.updated; assert us[i] == ts[i]; }
    if q.ready != 0 && q.ready == p.ready { var i :| 0 <= i < |ts| && ts[i].counts.ready == p.ready; assert us[i] == ts[i]; }
    if q.available != 0 && q.available == p.available { var i :| 0 <= i < |ts| && ts[i].counts.available == p.available; assert us[i] == ts[i]; }
  }

  /** Over any ticks of one roll the marks are the running maxima. */
  lemma {:induction false} PeaksAreRunningMaxima(ts: seq<Tick>, generation: int)
    requires SameRoll(ts, generation) && ts != []
    ensures var b := Run(None, ts);
            b.Some? && b.value.generation == generation && b.value.startedAt == ts[0].now && AreMaxima(b.value.peaks, ts)
  {
    var init, t := ts[..|ts| - 1], ts[|ts| - 1];
    assert ts == init + [t];
    if init == [] {
      MaximaExtend(NO_PEAKS, [], t);
      assert [] + [t] == ts;
    } else {
      PeaksAreRunningMaxima(init, generation);
      MaximaExtend(Run(None, init).value.peaks, init, t);
    }
  }

  /** Beyond everything the earlier ticks reached, in some count. */
  ghost predicate BeatsAll(ts: seq<Tick>, c: Counts) {
    || (c.updated > 0 && forall i :: 0 <= i < |ts| ==> ts[i].counts.updated < c.updated)
    || (c.ready > 0 && forall i :: 0 <= i < |ts| ==> ts[i].counts.ready < c.ready)
    || (c.available > 0 && forall i :: 0 <= i < |ts| ==> ts[i].counts.available < c.available)
  }

  /** A tick counts as progress if and only if some count beats its value at every earlier tick of the
      roll; falling back and recovering never does. */
  lemma ProgressIsANewRecord(ts: seq<Tick>, generation: int, c: Counts)
    requires SameRoll(ts, generation) && ts != []
    ensures Run(None, ts).Some? && (Progressed(Run(None, ts).value.peaks, c) <==> BeatsAll(ts, c))
  {
    PeaksAreRunningMaxima(ts, generation);
    hide Run;
  }

  /** The bound */

  function Sum(p: Peaks): nat { p.updated + p.ready + p.available }

  /** How many ticks after the first moved the clock by progress. */
  function ProgressTicks(ts: seq<Tick>): nat {
    if |ts| <= 1 then 0
    else
      var b := Run(None, ts[..|ts| - 1]);
      ProgressTicks(ts[..|ts| - 1])
      + (if b.Some? && b.value.generation == ts[|ts| - 1].generation && Progressed(b.value.peaks, ts[|ts| - 1].counts) then 1 else 0)
  }

  lemma {:induction false} ProgressIsPaidFor(ts: seq<Tick>, generation: int)
    requires SameRoll(ts, generation) && ts != []
    ensures Run(None, ts).Some? && ProgressTicks(ts) <= Sum(Run(None, ts).value.peaks)
  {
    var init := ts[..|ts| - 1];
    if init != [] { ProgressIsPaidFor(init, generation); }
  }

  /** Main result: with every count at most `n`, a roll makes progress at most 3n times after its first
      tick, however the counts oscillate; so the stall deadline cannot be put off for ever. */
  lemma StallBound(ts: seq<Tick>, generation: int, n: nat)
    requires SameRoll(ts, generation) && ts != []
    requires forall i :: 0 <= i < |ts| ==> ts[i].counts.updated <= n && ts[i].counts.ready <= n && ts[i].counts.available <= n
    ensures ProgressTicks(ts) <= 3 * n
  {
    ProgressIsPaidFor(ts, generation);
    PeaksAreRunningMaxima(ts, generation);
    hide Run, ProgressTicks;
  }

  /** A quiet stretch: no gate, no new record. */
  ghost predicate Quiet(ts: seq<Tick>, from: nat) {
    forall i :: from <= i < |ts| ==> 0 < i && !ts[i].gated && !BeatsAll(ts[..i], ts[i].counts)
  }

  /** While nothing beats the records and no gate is closed, the clock stands still. */
  lemma {:induction false} ClockStandsStill(ts: seq<Tick>, generation: int, from: nat)
    requires SameRoll(ts, generation) && 0 < from <= |ts| && Quiet(ts, from)
    ensures Run(None, ts).Some? && Run(None, ts[..from]).Some?
    ensures Run(None, ts).value.lastProgressAt == Run(None, ts[..from]).value.lastProgressAt
  {
    PeaksAreRunningMaxima(ts, generation);
    PeaksAreRunningMaxima(ts[..from], generation);
    if from == |ts| {
      assert ts[..from] == ts;
    } else {
      var init, t := ts[..|ts| - 1], ts[|ts| - 1];
      assert forall i :: from <= i < |init| ==> init[..i] == ts[..i];
      assert init[..from] == ts[..from];
      ClockStandsStill(init, generation, from);
      PeaksAreRunningMaxima(init, generation);
      ProgressIsANewRecord(init, generation, t.counts);
    }
  }

  /** What sets the clock: the first tick of the roll, a closed gate, or a new record. */
  ghost predicate Sets(ts: seq<Tick>, k: nat)
    requires k < |ts|
  {
    k == 0 || ts[k].gated || BeatsAll(ts[..k], ts[k].counts)
  }

  lemma ClockIsSet(ts: seq<Tick>, generation: int)
    requires SameRoll(ts, generation) && ts != [] && Sets(ts, |ts| - 1)
    ensures Run(None, ts).Some? && Run(None, ts).value.lastProgressAt == ts[|ts| - 1].now
  {
    var init, t := ts[..|ts| - 1], ts[|ts| - 1];
    if init != [] {
      PeaksAreRunningMaxima(init, generation);
      ProgressIsANewRecord(init, generation, t.counts);
    }
  }

  /** The clock always shows the time of the last tick that set it, and the start that of the first tick. */
  lemma ClockShowsLastProgress(ts: seq<Tick>, generation: int, k: nat)
    requires SameRoll(ts, generation) && k < |ts| && Sets(ts, k) && forall i :: k < i < |ts| ==> !Sets(ts, i)
    ensures var b := Run(None, ts); b.Some? && b.value.lastProgressAt == ts[k].now && b.value.startedAt == ts[0].now
  {
    hide Run, BeatsAll, AreMaxima;
    var head := ts[..k + 1];
    assert head[..k] == ts[..k] && head[k] == ts[k];
    ClockIsSet(head, generation);
    PeaksAreRunningMaxima(ts, generation);
    forall i | k < i < |ts| ensures 0 < i && !ts[i].gated && !BeatsAll(ts[..i], ts[i].counts) { assert !Sets(ts, i); }
    ClockStandsStill(ts, generation, k + 1);
  }

  /** A roll owes nothing to the block of another generation, and a finished one leaves no block. */
  lemma {:induction false} OtherRollsAreForgotten(prev: Option<Block>, ts: seq<Tick>, generation: int, last: Tick)
    requires SameRoll(ts, generation) && ts != [] && (prev.Some? ==> prev.value.generation != generation) && last.finished
    ensures Run(prev, ts) == Run(None, ts) && Run(prev, ts + [last]) == None
  {
    assert (ts + [last])[..|ts|] == ts;
    var init := ts[..|ts| - 1];
    if init != [] { OtherRollsAreForgotten(prev, init, generation, last); }
  }

  /** The block as the object the reconciler fills in. */
  class UpdateStatus {
    var updated: nat
    var ready: nat
    var available: nat
    var peakUpdated: nat
    var peakReady: nat
    var peakAvailable: nat

    constructor (c: Counts)
      ensures CountsNow() == c && PeaksNow() == NO_PEAKS
    {
      updated, ready, available := c.updated, c.ready, c.available;
      peakUpdated, peakReady, peakAvailable := 0, 0, 0;
    }

    function CountsNow(): Counts
      reads this
    {
      Counts(updated, ready, available)
    }

    function PeaksNow(): Peaks
      reads this
    {
      Peaks(peakUpdated, peakReady, peakAvailable)
    }

    method CarryPeaksFrom(prev: UpdateStatus?)
      modifies this
      ensures CountsNow() == old(CountsNow())
      ensures PeaksNow() == Raised(if prev == null then old(PeaksNow()) else old(prev.PeaksNow()), old(CountsNow()))
    {
      if prev != null {
        peakUpdated, peakReady, peakAvailable := prev.peakUpdated, prev.peakReady, prev.peakAvailable;
      }
      if updated > peakUpdated { peakUpdated := updated; }
      if ready > peakReady { peakReady := ready; }
      if available > peakAvailable { peakAvailable := available; }
    }
  }
}
