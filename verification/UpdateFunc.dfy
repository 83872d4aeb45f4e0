/** UpdateFunc on one key, with any number of callers and rival writers interleaved step by step.
    A caller reads and mutates a private target, then tries to commit; the commit is refused if
    anything was committed to the key since the read, and the caller starts over. */
module UpdateFunc {
  import opened Common

  /** A record, or a part of one, as the decoder sees it: a field left at its zero value, a scalar, a
      struct (reached directly or by reference), a map, or a list. */
  datatype Value =
    | Zero
    | Scalar(text: string)
    | Struct(fields: map<string, Value>)
    | Dict(entries: map<string, Value>)
    | List(items: seq<Value>)

  /** Decoding goes through structs, adds to maps and reuses the elements of lists; what the stored form
      leaves out stays in the target. */
  function DecodeInto(target: Value, stored: Value): Value
    decreases stored
  {
    match (target, stored)
    case (Struct(t), Struct(s)) =>
      Struct(map k | k in t.Keys + s.Keys :: if k !in s then t[k] else if k in t then DecodeInto(t[k], s[k]) else s[k])
    case (Dict(t), Dict(s)) => Dict(t + s)
    case (List(t), List(s)) => List(seq(|s|, i requires 0 <= i < |s| => if i < |t| then DecodeInto(t[i], s[i]) else s[i]))
    case _ => stored
  }

  /** resetTarget. */
  function ResetTarget(target: Value): Value { Zero }

  /** What the caller's mutation does with the target: change it, skip the write, or fail. */
  datatype Decision = Write(value: Value) | Skip | Reject

  datatype Answer = Committed | Skipped | Rejected | NotFound | Exhausted | Failed

  datatype Phase = Reading | Committing(seen: nat, next: Value) | Done(answer: Answer)

  datatype Caller = Caller(mutate: Value -> Decision, target: Value, attempt: nat, phase: Phase)

  /** What was committed to the key: a caller's mutation, or a plain create, update or delete. */
  datatype Entry = Mutation(caller: nat) | Overwrite(value: Option<Value>)

  datatype State = State(value: Option<Value>, log: seq<Entry>, callers: seq<Caller>)

  const MAX_RETRIES: nat := 100

  datatype Step = Read(i: nat) | Commit(i: nat) | Break(i: nat) | Rival(value: Option<Value>)

  /** One attempt up to its commit: read, decode into the zeroed target, mutate. */
  function Attempt(value: Option<Value>, version: nat, c: Caller): Caller {
    if value.None? then c.(phase := Done(NotFound))
    else
      var target := DecodeInto(ResetTarget(c.target), value.value);
      match c.mutate(target)
      case Write(v) => c.(target := v, phase := Committing(version, v))
      case Skip => c.(target := target, phase := Done(Skipped))
      case Reject => c.(target := target, phase := Done(Rejected))
  }

  /** A refused commit: retry, or give up. */
  function Conflicted(c: Caller): Caller {
    if c.attempt < MAX_RETRIES then c.(attempt := c.attempt + 1, phase := Reading) else c.(phase := Done(Exhausted))
  }

  predicate Enabled(s: State, a: Step) {
    match a
    case Read(i) => i < |s.callers| && s.callers[i].phase.Reading?
    case Commit(i) => i < |s.callers| && s.callers[i].phase.Committing?
    case Break(i) => i < |s.callers| && !s.callers[i].phase.Done?   // any other error of the read, the decoding or the commit
    case Rival(_) => true
  }

  function Next(s: State, a: Step): State
    requires Enabled(s, a)
  {
    match a
    case Read(i) => s.(callers := s.callers[i := Attempt(s.value, |s.log|, s.callers[i])])
    case Commit(i) =>
      var c := s.callers[i];
      if c.phase.seen == |s.log| then
        State(Some(c.phase.next), s.log + [Mutation(i)], s.callers[i := c.(phase := Done(Committed))])
      else s.(callers := s.callers[i := Conflicted(c)])
    case Break(i) => s.(callers := s.callers[i := s.callers[i].(phase := Done(Failed))])
    case Rival(v) => State(v, s.log + [Overwrite(v)], s.callers)
  }

  /** Runs */

  ghost predicate IsRun(s: State, steps: seq<Step>)
    decreases |steps|
  {
    steps == [] || (Enabled(s, steps[0]) && IsRun(Next(s, steps[0]), steps[1..]))
  }

  ghost function After(s: State, steps: seq<Step>): State
    requires IsRun(s, steps)
    decreases |steps|
  {
    if steps == [] then s else After(Next(s, steps[0]), steps[1..])
  }

  /** Nobody has started; targets may hold anything. */
  predicate Start(s: State) {
    s.log == [] && forall i :: 0 <= i < |s.callers| ==> s.callers[i].phase.Reading? && s.callers[i].attempt == 0
  }

  /** The locked form */

  /** UpdateFunc under the store's lock: one indivisible read, mutate, write. */
  function Locked(value: Option<Value>, mutate: Value -> Decision): (Option<Value>, Answer) {
    if value.None? then (value, NotFound)
    else
      match mutate(value.value)
      case Write(v) => (Some(v), Committed)
      case Skip => (value, Skipped)
      case Reject => (value, Rejected)
  }

  /** What a client can see: the stored value and the answers given. */
  datatype View = View(value: Option<Value>, answers: seq<Option<Answer>>)

  function AnswerOf(c: Caller): Option<Answer> { if c.phase.Done? then Some(c.phase.answer) else None }

  function Answers(cs: seq<Caller>): (r: seq<Option<Answer>>)
    ensures |r| == |cs| && forall i :: 0 <= i < |cs| ==> r[i] == AnswerOf(cs[i])
  {
    if cs == [] then [] else [AnswerOf(cs[0])] + Answers(cs[1..])
  }

  function ViewOf(s: State): View { View(s.value, Answers(s.callers)) }

  function Mutates(cs: seq<Caller>): (r: seq<Value -> Decision>)
    ensures |r| == |cs| && forall i :: 0 <= i < |cs| ==> r[i] == cs[i].mutate
  {
    if cs == [] then [] else [cs[0].mutate] + Mutates(cs[1..])
  }

  /** A step of the locked store: a whole call, a call that ends without effect, or a rival write. */
  datatype Label = Call(i: nat) | Abort(i: nat, answer: Answer) | RivalWrite(value: Option<Value>)

  predicate LockedEnabled(v: View, ms: seq<Value -> Decision>, l: Label) {
    match l
    case Call(i) => i < |v.answers| && i < |ms| && v.answers[i].None?
    case Abort(i, a) => i < |v.answers| && v.answers[i].None? && (a.Exhausted? || a.Failed?)
    case RivalWrite(_) => true
  }

  function LockedNext(v: View, ms: seq<Value -> Decision>, l: Label): View
    requires LockedEnabled(v, ms, l)
  {
    match l
    case Call(i) => var r := Locked(v.value, ms[i]); View(r.0, v.answers[i := Some(r.1)])
    case Abort(i, a) => v.(answers := v.answers[i := Some(a)])
    case RivalWrite(x) => v.(value := x)
  }

  ghost predicate IsLockedRun(v: View, ms: seq<Value -> Decision>, ls: seq<Label>, end: View)
    decreases |ls|
  {
    if ls == [] then v == end
    else LockedEnabled(v, ms, ls[0]) && IsLockedRun(LockedNext(v, ms, ls[0]), ms, ls[1..], end)
  }

  /** Where each call takes effect: a call that writes, at its commit; one that does not, at its read. */
  function Effects(s: State, a: Step): seq<Label>
    requires Enabled(s, a)
  {
    match a
    case Read(i) => if Attempt(s.value, |s.log|, s.callers[i]).phase.Done? then [Call(i)] else []
    case Commit(i) =>
      if s.callers[i].phase.seen == |s.log| then [Call(i)]
      else if s.callers[i].attempt < MAX_RETRIES then [] else [Abort(i, Exhausted)]
    case Break(i) => [Abort(i, Failed)]
    case Rival(v) => [RivalWrite(v)]
  }

  ghost function Linearized(s: State, steps: seq<Step>): seq<Label>
    requires IsRun(s, steps)
    decreases |steps|
  {
    if steps == [] then [] else Effects(s, steps[0]) + Linearized(Next(s, steps[0]), steps[1..])
  }

  /** Invariants */

  /** A pending write that is still current is the mutation of exactly the stored value. */
  ghost predicate Current(s: State, c: Caller) {
    c.phase.Committing? ==>
      && c.attempt <= c.phase.seen <= |s.log|
      && (c.phase.seen == |s.log| ==> s.value.Some? && c.mutate(s.value.value) == Write(c.phase.next))
  }

  /** Retries are paid for by commits. */
  ghost predicate Paid(s: State, c: Caller) {
    && (c.phase.Reading? ==> c.attempt <= |s.log|)
    && (c.phase == Done(Exhausted) ==> MAX_RETRIES < |s.log|)
  }

  ghost predicate CallerInv(s: State, i: nat)
    requires i < |s.callers|
  {
    && Current(s, s.callers[i]) && Paid(s, s.callers[i])
    && multiset(s.log)[Mutation(i)] == (if s.callers[i].phase == Done(Committed) then 1 else 0)
  }

  ghost predicate Inv(s: State) { forall i :: 0 <= i < |s.callers| ==> CallerInv(s, i) }

  lemma StartInv(s: State)
    requires Start(s)
    ensures Inv(s)
  {
  }

  /** A zeroed target makes each decode a replacement. */
  lemma AttemptSeesStored(value: Option<Value>, version: nat, c: Caller)
    ensures var d := Attempt(value, version, c);
            && d.mutate == c.mutate && d.attempt == c.attempt && !d.phase.Reading?
            && (d.phase.Committing? ==> d.phase.seen == version && value.Some? && c.mutate(value.value) == Write(d.phase.next))
            && (d.phase.Done? ==> Locked(value, c.mutate) == (value, d.phase.answer) && !d.phase.answer.Committed? && !d.phase.answer.Exhausted?)
  {
    if value.Some? { assert DecodeInto(ResetTarget(c.target), value.value) == value.value; }
  }

  lemma StepKeepsCaller(s: State, a: Step, i: nat)
    requires Inv(s) && Enabled(s, a) && i < |s.callers|
    ensures |Next(s, a).callers| == |s.callers| && CallerInv(Next(s, a), i)
    ensures Next(s, a).callers[i].mutate == s.callers[i].mutate
  {
    assert CallerInv(s, i);
    if a.Read? { AttemptSeesStored(s.value, |s.log|, s.callers[a.i]); }
    hide Attempt;
  }

  lemma StepKeepsInv(s: State, a: Step)
    requires Inv(s) && Enabled(s, a)
    ensures Inv(Next(s, a)) && |Next(s, a).callers| == |s.callers| && Mutates(Next(s, a).callers) == Mutates(s.callers)
  {
    var t := Next(s, a);
    assert |t.callers| == |s.callers|;
    forall i | 0 <= i < |s.callers| ensures CallerInv(t, i) && t.callers[i].mutate == s.callers[i].mutate {
      StepKeepsCaller(s, a, i);
    }
    hide Next, CallerInv;
    assert forall i :: 0 <= i < |s.callers| ==> Mutates(t.callers)[i] == Mutates(s.callers)[i];
  }

  lemma NoLabels(v: View, ms: seq<Value -> Decision>)
    ensures IsLockedRun(v, ms, [], v)
  {
  }

  lemma OneLabel(v: View, ms: seq<Value -> Decision>, l: Label)
    requires LockedEnabled(v, ms, l)
    ensures IsLockedRun(v, ms, [l], LockedNext(v, ms, l))
  {
    assert [l][1..] == [];
  }

  /** Only the acting caller's answer can change. */
  lemma AnswersMove(s: State, a: Step)
    requires Enabled(s, a) && !a.Rival?
    ensures |Next(s, a).callers| == |s.callers|
    ensures Answers(Next(s, a).callers) == Answers(s.callers)[a.i := AnswerOf(Next(s, a).callers[a.i])]
  {
    hide Attempt, Conflicted;
    var t := Next(s, a);
    assert forall j :: 0 <= j < |s.callers| && j != a.i ==> t.callers[j] == s.callers[j];
  }

  lemma SameAnswers(s: State, i: nat)
    requires i < |s.callers|
    ensures Answers(s.callers)[i] == AnswerOf(s.callers[i]) && Answers(s.callers)[i := AnswerOf(s.callers[i])] == Answers(s.callers)
    ensures |Answers(s.callers)| == |Mutates(s.callers)| == |s.callers| && Mutates(s.callers)[i] == s.callers[i].mutate
  {
  }

  lemma ReadRefines(s: State, i: nat)
    requires Inv(s) && Enabled(s, Read(i))
    ensures IsLockedRun(ViewOf(s), Mutates(s.callers), Effects(s, Read(i)), ViewOf(Next(s, Read(i))))
  {
    hide Attempt, Answers, Mutates, Inv, IsLockedRun, Locked;
    AttemptSeesStored(s.value, |s.log|, s.callers[i]);
    AnswersMove(s, Read(i));
    SameAnswers(s, i);
    if Effects(s, Read(i)) == [] { NoLabels(ViewOf(s), Mutates(s.callers)); } else { OneLabel(ViewOf(s), Mutates(s.callers), Call(i)); }
  }

  lemma CommitRefines(s: State, i: nat)
    requires Inv(s) && Enabled(s, Commit(i))
    ensures IsLockedRun(ViewOf(s), Mutates(s.callers), Effects(s, Commit(i)), ViewOf(Next(s, Commit(i))))
  {
    assert CallerInv(s, i);
    hide Answers, Mutates, Inv, IsLockedRun;
    AnswersMove(s, Commit(i));
    SameAnswers(s, i);
    if Effects(s, Commit(i)) == [] { NoLabels(ViewOf(s), Mutates(s.callers)); }
    else { OneLabel(ViewOf(s), Mutates(s.callers), Effects(s, Commit(i))[0]); }
  }

  lemma BreakRefines(s: State, i: nat)
    requires Enabled(s, Break(i))
    ensures IsLockedRun(ViewOf(s), Mutates(s.callers), Effects(s, Break(i)), ViewOf(Next(s, Break(i))))
  {
    hide Answers, Mutates, IsLockedRun;
    AnswersMove(s, Break(i));
    SameAnswers(s, i);
    OneLabel(ViewOf(s), Mutates(s.callers), Abort(i, Failed));
  }

  /** Each step of the optimistic loop is at most one step of the locked store. */
  lemma StepRefines(s: State, a: Step)
    requires Inv(s) && Enabled(s, a)
    ensures IsLockedRun(ViewOf(s), Mutates(s.callers), Effects(s, a), ViewOf(Next(s, a)))
  {
    match a
    case Read(i) => ReadRefines(s, i);
    case Commit(i) => CommitRefines(s, i);
    case Break(i) => BreakRefines(s, i);
    case Rival(v) => OneLabel(ViewOf(s), Mutates(s.callers), RivalWrite(v));
  }

  lemma {:induction false} LockedRunsCompose(u: View, ms: seq<Value -> Decision>, xs: seq<Label>, v: View, ys: seq<Label>, w: View)
    requires IsLockedRun(u, ms, xs, v) && IsLockedRun(v, ms, ys, w)
    ensures IsLockedRun(u, ms, xs + ys, w)
    decreases |xs|
  {
    if xs == [] {
      assert xs + ys == ys;
    } else {
      LockedRunsCompose(LockedNext(u, ms, xs[0]), ms, xs[1..], v, ys, w);
      assert (xs + ys)[1..] == xs[1..] + ys;
    }
  }

  /** Main result: every interleaving of callers and rivals, seen from outside, is a run of the locked
      store in which each call takes effect at one point between its first read and its answer. */
  lemma {:induction false} OptimisticRefinesLocked(s: State, steps: seq<Step>)
    requires Inv(s) && IsRun(s, steps)
    ensures IsLockedRun(ViewOf(s), Mutates(s.callers), Linearized(s, steps), ViewOf(After(s, steps)))
    ensures Inv(After(s, steps)) && |After(s, steps).callers| == |s.callers|
    decreases |steps|
  {
    if steps != [] {
      var t := Next(s, steps[0]);
      StepRefines(s, steps[0]);
      StepKeepsInv(s, steps[0]);
      OptimisticRefinesLocked(t, steps[1..]);
      hide Inv, Effects, Next;
      LockedRunsCompose(ViewOf(s), Mutates(s.callers), Effects(s, steps[0]), ViewOf(t), Linearized(t, steps[1..]), ViewOf(After(s, steps)));
    }
  }

  /** The stored value */

  /** The commits replayed in order, each mutation on the value its predecessors left. */
  function Replay(initial: Option<Value>, ms: seq<Value -> Decision>, log: seq<Entry>): Option<Value> {
    if log == [] then initial
    else
      var v := Replay(initial, ms, log[..|log| - 1]);
      match log[|log| - 1]
      case Overwrite(x) => x
      case Mutation(i) => if i < |ms| then Locked(v, ms[i]).0 else v
  }

  ghost predicate Replays(initial: Option<Value>, s: State) { s.value == Replay(initial, Mutates(s.callers), s.log) }

  lemma StepReplays(initial: Option<Value>, s: State, a: Step)
    requires Inv(s) && Enabled(s, a) && Replays(initial, s)
    ensures Replays(initial, Next(s, a))
  {
    StepKeepsInv(s, a);
    var t := Next(s, a);
    if a.Commit? && s.callers[a.i].phase.seen == |s.log| {
      assert CallerInv(s, a.i);
      assert t.log[..|t.log| - 1] == s.log && Mutates(s.callers)[a.i] == s.callers[a.i].mutate;
    } else if a.Rival? {
      assert t.log[|t.log| - 1] == Overwrite(a.value);
    }
  }

  /** No lost update: whatever the interleaving, the stored value is the fold of the committed
      mutations in commit order, each applied to exactly the value then stored; a call is in the log
      once if it answered "committed" and never otherwise. */
  lemma {:induction false} NoLostUpdate(initial: Option<Value>, s: State, steps: seq<Step>)
    requires Inv(s) && Replays(initial, s) && IsRun(s, steps)
    ensures var t := After(s, steps);
            && Replays(initial, t)
            && |t.callers| == |s.callers|
            && forall i :: 0 <= i < |t.callers| ==>
                 multiset(t.log)[Mutation(i)] == (if t.callers[i].phase == Done(Committed) then 1 else 0)
    decreases |steps|
  {
    hide Replays, Next;
    if steps == [] {
      forall i | 0 <= i < |s.callers|
        ensures multiset(s.log)[Mutation(i)] == (if s.callers[i].phase == Done(Committed) then 1 else 0)
      {
        assert CallerInv(s, i);
      }
    } else {
      StepKeepsInv(s, steps[0]);
      StepReplays(initial, s, steps[0]);
      NoLostUpdate(initial, Next(s, steps[0]), steps[1..]);
    }
  }

  lemma StartReplays(s: State)
    requires Start(s)
    ensures Replays(s.value, s)
  {
  }

  /** The retry bound */

  /** Only callers write. */
  predicate NoRivals(steps: seq<Step>) { forall k :: 0 <= k < |steps| ==> !steps[k].Rival? }

  ghost predicate CallersOnly(s: State) {
    forall k :: 0 <= k < |s.log| ==> s.log[k].Mutation? && s.log[k].caller < |s.callers|
  }

  lemma {:induction false} CallersOnlyKept(s: State, steps: seq<Step>)
    requires CallersOnly(s) && IsRun(s, steps) && NoRivals(steps)
    ensures CallersOnly(After(s, steps))
    decreases |steps|
  {
    if steps != [] {
      assert !steps[0].Rival? && (forall k :: 0 <= k < |steps[1..]| ==> steps[1..][k] == steps[k + 1]);
      CallersOnlyKept(Next(s, steps[0]), steps[1..]);
    }
  }

  function Below(n: nat): (r: set<nat>)
    ensures |r| == n && forall i :: i in r <==> 0 <= i < n
  {
    if n == 0 then {} else Below(n - 1) + {n - 1}
  }

  /** A log in which each of `allowed` appears at most once is no longer than `allowed`. */
  lemma {:induction false} DistinctLogIsShort(log: seq<Entry>, allowed: set<nat>)
    requires forall k :: 0 <= k < |log| ==> log[k].Mutation? && log[k].caller in allowed
    requires forall i :: i in allowed ==> multiset(log)[Mutation(i)] <= 1
    ensures |log| <= |allowed|
  {
    if log != [] {
      var x, rest := log[|log| - 1].caller, log[..|log| - 1];
      assert log == rest + [Mutation(x)];
      assert multiset(rest)[Mutation(x)] == 0;
      forall k | 0 <= k < |rest| ensures rest[k].caller in allowed - {x} {
        assert multiset(rest)[rest[k]] > 0;
      }
      DistinctLogIsShort(rest, allowed - {x});
    }
  }

  /** Nobody gives up while at most 101 callers compete for the key and no one else
      writes it: each refused commit is another caller's committed one. */
  lemma NobodyGivesUp(s: State, steps: seq<Step>, i: nat)
    requires Start(s) && IsRun(s, steps) && NoRivals(steps) && |s.callers| <= 101 && i < |s.callers|
    ensures |After(s, steps).callers| == |s.callers| && After(s, steps).callers[i].phase != Done(Exhausted)
  {
    StartInv(s);
    OptimisticRefinesLocked(s, steps);
    CallersOnlyKept(s, steps);
    var t := After(s, steps);
    assert CallerInv(t, i);
    if t.callers[i].phase == Done(Exhausted) {
      var others := Below(|t.callers|) - {i};
      forall k | 0 <= k < |t.log| ensures t.log[k].caller in others {
        assert t.log[k] in multiset(t.log);
      }
      forall j | j in others ensures multiset(t.log)[Mutation(j)] <= 1 { assert CallerInv(t, j); }
      DistinctLogIsShort(t.log, others);
    }
  }

  lemma {:induction false} RunsCompose(s: State, a: seq<Step>, b: seq<Step>)
    requires IsRun(s, a) && IsRun(After(s, a), b)
    ensures IsRun(s, a + b) && After(s, a + b) == After(After(s, a), b)
    decreases |a|
  {
    hide Next, Enabled;
    if a == [] {
      assert a + b == b;
    } else {
      assert (a + b)[0] == a[0] && (a + b)[1..] == a[1..] + b;
      RunsCompose(Next(s, a[0]), a[1..], b);
    }
  }

  /** Caller 0 has been overtaken `k` times, the callers after `k` have not begun, and everybody writes. */
  ghost predicate Overtaken(s: State, k: nat) {
    && k + 1 < |s.callers| && s.value.Some? && s.callers[0].phase.Reading? && s.callers[0].attempt == k
    && (forall j :: k < j < |s.callers| ==> s.callers[j].phase.Reading?)
    && (forall j, v :: 0 <= j < |s.callers| ==> s.callers[j].mutate(v).Write?)
  }

  function Round(k: nat): seq<Step> { [Read(0), Read(k + 1), Commit(k + 1), Commit(0)] }

  lemma RunOfFour(s: State, a: Step, b: Step, c: Step, d: Step)
    requires Enabled(s, a) && Enabled(Next(s, a), b) && Enabled(Next(Next(s, a), b), c) && Enabled(Next(Next(Next(s, a), b), c), d)
    ensures IsRun(s, [a, b, c, d]) && After(s, [a, b, c, d]) == Next(Next(Next(Next(s, a), b), c), d)
  {
    hide Next, Enabled;
    var s1 := Next(s, a);
    var s2 := Next(s1, b);
    var s3 := Next(s2, c);
    var s4 := Next(s3, d);
    assert [a, b, c, d][1..] == [b, c, d] && [b, c, d][1..] == [c, d] && [c, d][1..] == [d] && [d][1..] == [];
    assert IsRun(s4, []) && After(s4, []) == s4;
    assert IsRun(s3, [d]) && After(s3, [d]) == s4;
    assert IsRun(s2, [c, d]) && After(s2, [c, d]) == s4;
    assert IsRun(s1, [b, c, d]) && After(s1, [b, c, d]) == s4;
  }

  lemma OneRound(s: State, k: nat)
    requires Overtaken(s, k) && k <= MAX_RETRIES
    ensures IsRun(s, Round(k))
    ensures var t := After(s, Round(k));
            && |t.callers| == |s.callers|
            && (k < MAX_RETRIES && k + 2 < |s.callers| ==> Overtaken(t, k + 1))
            && (k == MAX_RETRIES ==> t.callers[0].phase == Done(Exhausted))
  {
    var v := s.value.value;
    AttemptSeesStored(s.value, |s.log|, s.callers[0]);
    AttemptSeesStored(s.value, |s.log|, s.callers[k + 1]);
    assert s.callers[0].mutate(v).Write? && s.callers[k + 1].mutate(v).Write?;
    hide Attempt, DecodeInto;
    var s1 := Next(s, Read(0));
    assert s1.callers[k + 1] == s.callers[k + 1];
    var s2 := Next(s1, Read(k + 1));
    assert s2.callers[0] == s1.callers[0];
    var s3 := Next(s2, Commit(k + 1));
    assert s3.callers[0] == s1.callers[0] && |s3.log| == |s.log| + 1;
    RunOfFour(s, Read(0), Read(k + 1), Commit(k + 1), Commit(0));
  }

  lemma {:induction false} OvertakenGivesUp(s: State, k: nat) returns (steps: seq<Step>)
    requires Overtaken(s, k) && k <= MAX_RETRIES && |s.callers| == MAX_RETRIES + 2
    ensures IsRun(s, steps) && NoRivals(steps) && |After(s, steps).callers| == |s.callers| && After(s, steps).callers[0].phase == Done(Exhausted)
    decreases MAX_RETRIES - k
  {
    hide Overtaken, IsRun, After;
    OneRound(s, k);
    steps := Round(k);
    if k < MAX_RETRIES {
      var rest := OvertakenGivesUp(After(s, Round(k)), k + 1);
      RunsCompose(s, Round(k), rest);
      steps := Round(k) + rest;
    }
  }

  /** The bound is tight: with one caller more, one of them can exhaust its retries. */
  lemma OneMoreCanGiveUp(s: State) returns (steps: seq<Step>)
    requires Start(s) && |s.callers| == 102 && s.value.Some?
    requires forall j, v :: 0 <= j < |s.callers| ==> s.callers[j].mutate(v).Write?
    ensures IsRun(s, steps) && NoRivals(steps) && |After(s, steps).callers| == |s.callers| && After(s, steps).callers[0].phase == Done(Exhausted)
  {
    hide IsRun, After;
    steps := OvertakenGivesUp(s, 0);
  }

  /** Without the reset */

  /** Every field and map entry of the leftover, at any depth, is stored too. */
  predicate Covered(leftover: Value, stored: Value)
    decreases stored
  {
    match (leftover, stored)
    case (Struct(t), Struct(s)) => t.Keys <= s.Keys && forall k :: k in t ==> k in s && Covered(t[k], s[k])
    case (Dict(t), Dict(s)) => t.Keys <= s.Keys
    case (List(t), List(s)) => forall i :: 0 <= i < |t| && i < |s| ==> Covered(t[i], s[i])
    case _ => true
  }

  /** Decoding onto leftovers shows the stored value exactly when everything left over is also stored;
      otherwise parts of a rejected attempt would be committed.  After a reset it always does. */
  lemma {:induction false} MergeDecodeIsExactIff(leftover: Value, stored: Value)
    ensures DecodeInto(leftover, stored) == stored <==> Covered(leftover, stored)
    ensures DecodeInto(ResetTarget(leftover), stored) == stored
    decreases stored
  {
    var d := DecodeInto(leftover, stored);
    match (leftover, stored)
    case (Struct(t), Struct(s)) =>
      assert d.fields.Keys == t.Keys + s.Keys;
      forall k | k in t && k in s ensures d.fields[k] == s[k] <==> Covered(t[k], s[k]) { MergeDecodeIsExactIff(t[k], s[k]); }
      if Covered(leftover, stored) { assert d.fields == s; }
      if d == stored { assert forall k :: k in t ==> k in d.fields; }
    case (Dict(t), Dict(s)) =>
      assert (t + s).Keys == t.Keys + s.Keys;
      if t.Keys <= s.Keys { assert t + s == s; }
    case (List(t), List(s)) =>
      forall i | 0 <= i < |t| && i < |s| ensures d.items[i] == s[i] <==> Covered(t[i], s[i]) { MergeDecodeIsExactIff(t[i], s[i]); }
      if Covered(leftover, stored) { assert d.items == s; }
    case _ =>
  }

  /** The retry loop itself */

  /** The stored record, with the number of commits to it. */
  class Record {
    var value: Option<Value>
    var version: nat

    constructor (value: Option<Value>)
      ensures this.value == value && version == 0
    {
      this.value, version := value, 0;
    }

    method Overwrite(writes: seq<Option<Value>>)
      modifies this
      ensures value == (if writes == [] then old(value) else writes[|writes| - 1])
      ensures version == old(version) + |writes|
    {
      for k := 0 to |writes|
        invariant value == if k == 0 then old(value) else writes[k - 1]
        invariant version == old(version) + k
      {
        value, version := writes[k], version + 1;
      }
    }

    /** One call, with `rivals(k)` the writes that land between the read and the commit of attempt `k`.
        It answers like the locked call on the value that the rivals had left by then, whatever the
        target held before, unless every one of its attempts was overtaken. */
    method UpdateFunc(initial: Value, mutate: Value -> Decision, rivals: nat -> seq<Option<Value>>)
      returns (answer: Answer, target: Value, overtaken: nat)
      modifies this
      ensures forall k :: 0 <= k < overtaken ==> rivals(k) != []
      ensures var w := Left(old(value), rivals, overtaken);
              if answer.Exhausted? then overtaken == MAX_RETRIES + 1 && value == w
              else overtaken <= MAX_RETRIES && (value, answer) == Locked(w, mutate)
      ensures answer.Committed? ==> value == Some(target)
      ensures var w := Left(old(value), rivals, overtaken);
              && (answer.NotFound? <==> !answer.Exhausted? && w.None?)
              && (answer.Rejected? <==> !answer.Exhausted? && w.Some? && mutate(w.value).Reject?)
              && (answer.Skipped? <==> !answer.Exhausted? && w.Some? && mutate(w.value).Skip?)
              && (answer.Committed? <==> !answer.Exhausted? && w.Some? && mutate(w.value) == Write(target))
              && (!answer.Committed? ==> value == w)
      ensures answer.Exhausted? ==> overtaken == 101
    {
      target, overtaken := initial, 0;
      while true
        invariant overtaken <= MAX_RETRIES && value == Left(old(value), rivals, overtaken)
        invariant forall k :: 0 <= k < overtaken ==> rivals(k) != []
        decreases MAX_RETRIES - overtaken
      {
        if value.None? { return NotFound, target, overtaken; }
        var seen := version;
        target := ResetTarget(target);
        target := DecodeInto(target, value.value);
        assert target == value.value;
        match mutate(target) {
          case Skip => return Skipped, target, overtaken;
          case Reject => return Rejected, target, overtaken;
          case Write(v) => target := v;
        }
        Overwrite(rivals(overtaken));
        if version == seen {
          value, version := Some(target), version + 1;
          return Committed, target, overtaken;
        }
        overtaken := overtaken + 1;
        if overtaken > MAX_RETRIES { return Exhausted, target, overtaken; }
      }
    }
  }

  /** What the rivals of the first `n` attempts leave. */
  function Left(value: Option<Value>, rivals: nat -> seq<Option<Value>>, n: nat): Option<Value> {
    if n == 0 then value
    else if rivals(n - 1) == [] then Left(value, rivals, n - 1)
    else rivals(n - 1)[|rivals(n - 1)| - 1]
  }
}
