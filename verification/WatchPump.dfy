/** One watch subscription: enqueuers append to an unbounded backlog and then signal through a
    one-slot channel; a pump moves events from the backlog to the consumer; stop ends the pump.
    The steps below are the points at which these goroutines can interleave. */
module WatchPump {
  import opened Common

  /** Where the pump is.  `Exited` keeps the event it was about to send, if any. */
  datatype Pump<E> = Checking | Waiting | Sending(event: E) | Exited(dropped: seq<E>)

  /** `signals` counts enqueuers that have appended and not yet signalled. */
  datatype Sub<E> = Sub(buf: seq<E>, token: bool, signals: nat, pump: Pump<E>, stopped: bool,
                        enqueued: seq<E>, delivered: seq<E>)

  datatype Step<E> = Append(event: E) | Signal | Check | Wake | Deliver | Stop | Quit

  predicate Enabled<E>(s: Sub<E>, a: Step<E>) {
    match a
    case Append(_) => true
    case Signal => s.signals > 0
    case Check => s.pump.Checking?
    case Wake => s.pump.Waiting? && s.token
    case Deliver => s.pump.Sending?
    case Stop => true
    case Quit => s.stopped && (s.pump.Waiting? || s.pump.Sending?)
  }

  function InFlight<E>(p: Pump<E>): seq<E> {
    match p
    case Sending(e) => [e]
    case Exited(d) => d
    case _ => []
  }

  function Next<E>(s: Sub<E>, a: Step<E>): Sub<E>
    requires Enabled(s, a)
  {
    match a
    case Append(e) => s.(buf := s.buf + [e], enqueued := s.enqueued + [e], signals := s.signals + 1)
    case Signal => s.(signals := s.signals - 1, token := true)        // a pending token coalesces
    case Check => if s.buf == [] then s.(pump := Waiting) else s.(pump := Sending(s.buf[0]), buf := s.buf[1..])
    case Wake => s.(token := false, pump := Checking)
    case Deliver => s.(delivered := s.delivered + [s.pump.event], pump := Checking)
    case Stop => s.(stopped := true)
    case Quit => s.(pump := Exited(InFlight(s.pump)))
  }

  /** Nothing is lost, repeated or reordered, and a sleeping pump is never forgotten. */
  ghost predicate Inv<E>(s: Sub<E>) {
    && s.delivered + InFlight(s.pump) + s.buf == s.enqueued
    && (s.pump.Waiting? && s.buf != [] ==> s.token || s.signals > 0)
    && (s.pump.Exited? ==> s.stopped && |s.pump.dropped| <= 1)
  }

  lemma StepKeepsInv<E>(s: Sub<E>, a: Step<E>)
    requires Inv(s) && Enabled(s, a)
    ensures Inv(Next(s, a)) && s.delivered <= Next(s, a).delivered
  {
    if a.Check? && s.buf != [] { assert s.buf == [s.buf[0]] + s.buf[1..]; }
  }

  ghost predicate IsRun<E>(s: Sub<E>, steps: seq<Step<E>>)
    decreases |steps|
  {
    steps == [] || (Enabled(s, steps[0]) && IsRun(Next(s, steps[0]), steps[1..]))
  }

  ghost function After<E>(s: Sub<E>, steps: seq<Step<E>>): Sub<E>
    requires IsRun(s, steps)
    decreases |steps|
  {
    if steps == [] then s else After(Next(s, steps[0]), steps[1..])
  }

  ghost predicate Fresh<E>(s: Sub<E>) {
    s == Sub([], false, 0, Checking, false, [], [])
  }

  lemma {:induction false} RunKeepsInv<E>(s: Sub<E>, steps: seq<Step<E>>)
    requires Inv(s) && IsRun(s, steps)
    ensures Inv(After(s, steps))
    decreases |steps|
  {
    if steps != [] {
      StepKeepsInv(s, steps[0]);
      hide Inv;
      RunKeepsInv(Next(s, steps[0]), steps[1..]);
    }
  }

  /** Delivery in every interleaving: before the pump exits, what was delivered, what is being sent and
      the backlog make up exactly what was enqueued, in order; at all times, also after stop, what was
      delivered is a prefix of it; and a waiting pump with a backlog has a wake-up on its way. */
  lemma NonLossyDelivery<E>(s: Sub<E>, steps: seq<Step<E>>)
    requires Fresh(s) && IsRun(s, steps)
    ensures var t := After(s, steps);
            && t.delivered <= t.enqueued
            && (!t.pump.Exited? ==> t.delivered + InFlight(t.pump) + t.buf == t.enqueued)
            && (t.pump.Waiting? && t.buf != [] ==> t.token || t.signals > 0)
            && (t.pump.Exited? ==> t.stopped)
  {
    RunKeepsInv(s, steps);
    hide IsRun, After;
    var t := After(s, steps);
    assert t.enqueued == t.delivered + (InFlight(t.pump) + t.buf);
  }

  /** Draining */

  /** The steps that move events along, as opposed to new events and stop. */
  predicate Moves<E>(a: Step<E>) { a.Signal? || a.Check? || a.Wake? || a.Deliver? }

  /** How many more such steps there can be. */
  function Work<E>(s: Sub<E>): nat {
    3 * |s.buf| + 3 * s.signals + (if s.token then 2 else 0)
    + (match s.pump case Checking => 1 case Sending(_) => 2 case _ => 0)
  }

  lemma MovingIsWork<E>(s: Sub<E>, a: Step<E>)
    requires Enabled(s, a) && Moves(a)
    ensures Work(Next(s, a)) < Work(s) && Next(s, a).enqueued == s.enqueued && Next(s, a).stopped == s.stopped
  {
  }

  ghost predicate Settled<E(!new)>(s: Sub<E>) { forall a: Step<E> :: Moves(a) ==> !Enabled(s, a) }

  lemma SettledIsDrained<E(!new)>(s: Sub<E>)
    requires Inv(s) && !s.stopped && Settled(s)
    ensures s.delivered == s.enqueued
  {
    assert !Enabled(s, Step<E>.Check) && !Enabled(s, Step<E>.Deliver) && !Enabled(s, Step<E>.Wake) && !Enabled(s, Step<E>.Signal);
  }

  /** If no more events come and nobody stops it, every schedule that keeps going delivers everything
      within `Work(s)` steps: no wake-up can be lost. */
  lemma {:induction false} EveryScheduleDrains<E(!new)>(s: Sub<E>, steps: seq<Step<E>>)
    requires Inv(s) && !s.stopped && IsRun(s, steps) && forall k :: 0 <= k < |steps| ==> Moves(steps[k])
    ensures |steps| <= Work(s)
    ensures Settled(After(s, steps)) ==> After(s, steps).delivered == s.enqueued
    decreases |steps|
  {
    if steps == [] {
      if Settled(s) { SettledIsDrained(s); }
    } else {
      assert Moves(steps[0]) && forall k :: 0 <= k < |steps[1..]| ==> steps[1..][k] == steps[k + 1];
      StepKeepsInv(s, steps[0]);
      MovingIsWork(s, steps[0]);
      hide Inv, Work, Settled, Next;
      EveryScheduleDrains(Next(s, steps[0]), steps[1..]);
    }
  }

  /** The subscription's own methods */

  const BACKLOG_WARN: nat := 1024

  class WatchSub<E> {
    var buf: seq<E>
    var notify: bool
    var warned: bool

    constructor ()
      ensures buf == [] && !notify && !warned
    {
      buf, notify, warned := [], false, false;
    }

    /** Is what the object holds the state of `s`? */
    ghost predicate Holds(s: Sub<E>)
      reads this
    {
      buf == s.buf && notify == s.token
    }

    /** enqueue: an append followed by a signal.  It warns once each time the backlog reaches the mark. */
    method Enqueue(event: E, ghost s: Sub<E>) returns (warn: bool, ghost t: Sub<E>)
      requires Holds(s)
      modifies this
      ensures t == Next(Next(s, Append(event)), Signal) && Holds(t)
      ensures warn <==> |old(buf)| + 1 >= 1024 && !old(warned)
      ensures warned <==> |buf| >= 1024
    {
      buf := buf + [event];
      var n := |buf|;
      warn := n >= BACKLOG_WARN && !warned;
      if warn { warned := true; } else if n < BACKLOG_WARN { warned := false; }
      notify := true;
      t := Next(Next(s, Append(event)), Signal);
    }

    /** The top of the pump loop: the next event to send, or nothing and the pump waits. */
    method Take(ghost s: Sub<E>) returns (event: Option<E>, ghost t: Sub<E>)
      requires Holds(s) && s.pump.Checking?
      modifies this`buf
      ensures t == Next(s, Check) && Holds(t)
      ensures event == (if old(buf) == [] then None else Some(old(buf)[0]))
    {
      t := Next(s, Check);
      if |buf| == 0 { return None, t; }
      event := Some(buf[0]);
      if |buf| == 1 { buf := []; } else { buf := buf[1..]; }
    }
  }
}
