/** Exactly when restoring gives back the content, for any content and any order: as long as, in every
    partly restored text, no placeholder shows up anywhere but at its own holes. */
module TemplateRestoring {
  import opened Common
  import opened Templates

  /** What follows the tokens under consideration: nothing, or a brace that earlier replacements put in a
      wrong place, after at most the front part of a placeholder that they cut off. */
  datatype End = Clear | Blocked(stub: string, rest: string)

  function EndText(e: End): string { if e.Clear? then "" else e.stub + "{" + e.rest }

  ghost predicate Stub(u: string) { u == "" || exists j: nat, d: nat {:trigger Placeholder(j)[..d]} :: 1 <= d < |Placeholder(j)| && u == Placeholder(j)[..d] }

  ghost predicate WellStubbed(e: End) { e.Blocked? ==> Stub(e.stub) }

  /** Placeholder `k` starts at the first token, which is not its hole. */
  ghost predicate StrayAt(toks: seq<Token>, z: string, k: nat)
    requires toks != []
  {
    match toks[0]
    case Lit(_) => Placeholder(k) <= Flatten(toks) + z
    case Hole(j) => j != k && exists d :: 1 <= d < |Placeholder(j)| && Placeholder(k) <= Placeholder(j)[d..] + (Flatten(toks[1..]) + z)
  }

  ghost predicate Strays(toks: seq<Token>, z: string, k: nat) {
    toks != [] && (StrayAt(toks, z, k) || Strays(toks[1..], z, k))
  }

  /** Replacement never reaches across a brace */

  lemma NoBraceInside(k: nat, a: string, b: string)
    requires a != "" && a[|a| - 1] == '{' && |a| <= |Placeholder(k)|
    ensures !(Placeholder(k) <= a + b)
  {
    PlaceholderHasNoBrace(k);
    var p := Placeholder(k);
    assert p[|a| - 1] in p;
    hide Placeholder;
    DiffersAt(p, a + b, |a| - 1);
  }

  lemma NoneInStub(j: nat, d: nat, k: nat, c: nat, rest: string)
    requires d < |Placeholder(j)| && c <= d
    ensures !(Placeholder(k) <= (Placeholder(j)[..d] + "{")[c..] + rest)
  {
    PlaceholderShape(j);
    PlaceholderShape(k);
    HeadShape();
    var p, q := Placeholder(k), Placeholder(j);
    var a := (q[..d] + "{")[c..];
    assert p[0] == Head()[0] == '_' && p[1] == Head()[1] == '_';
    if |a| <= |p| {
      NoBraceInside(k, a, rest);
    } else if c == 0 {
      PrefixesAgree(j, k, d, a + rest);
    } else {
      hide Placeholder;
      assert (a + rest)[0] == q[c] && (a + rest)[1] == q[c + 1];
      DiffersAt(p, a + rest, if q[c] == '_' then 1 else 0);
    }
  }

  lemma PrefixesAgree(j: nat, k: nat, d: nat, text: string)
    requires |Placeholder(k)| <= d < |Placeholder(j)| <= |text| + |Placeholder(j)| && Placeholder(j)[..d] <= text
    ensures !(Placeholder(k) <= text)
  {
    var p, q := Placeholder(k), Placeholder(j);
    if p <= q + "" { PlaceholdersDiffer(j, k, ""); }
    assert q + "" == q && !(p <= q);
    hide Placeholder;
    var i := Difference(p, q);
    assert text[i] == q[..d][i] == q[i];
    DiffersAt(p, text, i);
  }

  function EndStep(e: End, k: nat, filling: string): End
    requires Placeholder(k) != ""
  {
    if e.Clear? then e else Blocked(e.stub, ReplaceAll(e.rest, Placeholder(k), filling))
  }

  lemma EndSkips(e: End, k: nat, filling: string)
    requires WellStubbed(e)
    ensures Placeholder(k) != "" && ReplaceAll(EndText(e), Placeholder(k), filling) == EndText(EndStep(e, k, filling))
  {
    PlaceholderShape(k);
    if e.Blocked? {
      var p, y := Placeholder(k), e.stub + "{";
      forall c | 0 <= c < |y| ensures !(p <= y[c..] + e.rest) {
        if e.stub == "" {
          assert y[c..] == "{";
          NoBraceInside(k, "{", e.rest);
        } else {
          var j: nat, d: nat :| 1 <= d < |Placeholder(j)| && e.stub == Placeholder(j)[..d];
          NoneInStub(j, d, k, c, e.rest);
        }
      }
      hide Placeholder;
      ReplaceSkips(y, e.rest, p, filling);
    }
  }

  /** One pass */

  lemma FillHead(toks: seq<Token>, k: nat, filling: string)
    requires toks != []
    ensures Flatten(Fill(toks, k, filling)) == (if toks[0] == Hole(k) then filling else TextOf(toks[0])) + Flatten(Fill(toks[1..], k, filling))
  {
    var rest := Fill(toks[1..], k, filling);
    if toks[0] == Hole(k) { FlattenLits(filling, rest); } else { FlattenCons(toks[0], rest); }
  }

  lemma LitSkips(c: char, s: string, k: nat, filling: string)
    requires !(Placeholder(k) <= [c] + s)
    ensures Placeholder(k) != "" && ReplaceAll([c] + s, Placeholder(k), filling) == [c] + ReplaceAll(s, Placeholder(k), filling)
  {
    PlaceholderShape(k);
    hide Placeholder;
    assert forall d :: 0 <= d < 1 ==> [c][d..] + s == [c] + s;
    ReplaceSkips([c], s, Placeholder(k), filling);
  }

  lemma HoleSkips(j: nat, s: string, k: nat, filling: string)
    requires j != k && forall d :: 1 <= d < |Placeholder(j)| ==> !(Placeholder(k) <= Placeholder(j)[d..] + s)
    ensures Placeholder(k) != "" && ReplaceAll(Placeholder(j) + s, Placeholder(k), filling) == Placeholder(j) + ReplaceAll(s, Placeholder(k), filling)
  {
    PlaceholderShape(k);
    DistinctHoles(j, k, s);
    hide Placeholder;
    assert Placeholder(j)[0..] == Placeholder(j);
    ReplaceSkips(Placeholder(j), s, Placeholder(k), filling);
  }

  /** The text of the first token and the rest. */
  lemma TextSplits(toks: seq<Token>, z: string)
    requires toks != []
    ensures Flatten(toks) + z == TextOf(toks[0]) + (Flatten(toks[1..]) + z)
  {
    hide Placeholder, TextOf;
    FlattenHead(toks);
    Associates(TextOf(toks[0]), Flatten(toks[1..]), z);
  }

  /** Replacing at the front of one token that is no stray. */
  lemma TokenPasses(toks: seq<Token>, z: string, k: nat, filling: string)
    requires toks != [] && !StrayAt(toks, z, k)
    ensures Placeholder(k) != ""
    ensures ReplaceAll(Flatten(toks) + z, Placeholder(k), filling)
         == (if toks[0] == Hole(k) then filling else TextOf(toks[0])) + ReplaceAll(Flatten(toks[1..]) + z, Placeholder(k), filling)
  {
    PlaceholderShape(k);
    TextSplits(toks, z);
    var s := Flatten(toks[1..]) + z;
    hide Flatten;
    match toks[0]
    case Lit(c) => LitSkips(c, s, k, filling);
    case Hole(j) => if j == k { ReplaceFront(Placeholder(k), s, filling); } else { HoleSkips(j, s, k, filling); }
  }

  /** A pass without strays fills the holes and touches nothing else. */
  lemma {:induction false} PassFills(toks: seq<Token>, e: End, k: nat, filling: string)
    requires WellStubbed(e) && !Strays(toks, EndText(e), k)
    ensures Placeholder(k) != ""
    ensures ReplaceAll(Flatten(toks) + EndText(e), Placeholder(k), filling) == Flatten(Fill(toks, k, filling)) + EndText(EndStep(e, k, filling))
    decreases |toks|
  {
    hide *;
    EndSkips(e, k, filling);
    var z, end := EndText(e), EndText(EndStep(e, k, filling));
    if toks == [] {
      NothingFilled(k, filling);
      assert "" + z == z && "" + end == end;
    } else {
      NoStrays(toks, z, k);
      PassFills(toks[1..], e, k, filling);
      TokenPasses(toks, z, k, filling);
      FillHead(toks, k, filling);
      var x := if toks[0] == Hole(k) then filling else TextOf(toks[0]);
      Associates(x, Flatten(Fill(toks[1..], k, filling)), end);
    }
  }

  lemma NoStrays(toks: seq<Token>, z: string, k: nat)
    requires toks != [] && !Strays(toks, z, k)
    ensures !StrayAt(toks, z, k) && !Strays(toks[1..], z, k)
  {
  }

  /** A pass with a stray puts a brace where the content has an underscore, or leaves the front of a
      placeholder where it has a brace. */
  ghost predicate Broken(toks: seq<Token>, i: nat, e: End) {
    && i < |toks| && e.Blocked? && Stub(e.stub)
    && (match toks[i] case Lit(c) => c == '_' && e.stub == "" case Hole(_) => e.stub != "")
  }

  lemma ReplaceOpens(text: string, p: string, filling: string) returns (rest: string)
    requires p != "" && p <= text && filling != "" && filling[0] == '{'
    ensures ReplaceAll(text, p, filling) == "{" + rest
  {
    rest := filling[1..] + ReplaceAll(text[|p|..], p, filling);
    assert filling == "{" + filling[1..];
    Associates("{", filling[1..], ReplaceAll(text[|p|..], p, filling));
  }

  lemma LitBreaks(c: char, s: string, k: nat, filling: string) returns (rest: string)
    requires Placeholder(k) <= [c] + s && filling != "" && filling[0] == '{'
    ensures c == '_' && Placeholder(k) != "" && ReplaceAll([c] + s, Placeholder(k), filling) == "{" + rest
  {
    PlaceholderShape(k);
    HeadOf(k, 0);
    HeadShape();
    hide Placeholder, Head;
    assert ([c] + s)[0] == c;
    rest := ReplaceOpens([c] + s, Placeholder(k), filling);
  }

  lemma CutAnywhere(q: string, s: string, b: nat, d: nat)
    requires b <= d <= |q|
    ensures q[..d][b..] + (q[d..] + s) == q[b..] + s
  {
    assert q[..d][b..] + q[d..] == q[b..];
    Associates(q[..d][b..], q[d..], s);
  }

  lemma HoleBreaks(j: nat, s: string, k: nat, filling: string) returns (d: nat, rest: string)
    requires j != k && (exists b :: 1 <= b < |Placeholder(j)| && Placeholder(k) <= Placeholder(j)[b..] + s) && filling != "" && filling[0] == '{'
    ensures Placeholder(k) != "" && 1 <= d < |Placeholder(j)|
    ensures ReplaceAll(Placeholder(j) + s, Placeholder(k), filling) == Placeholder(j)[..d] + ("{" + rest)
  {
    PlaceholderShape(k);
    DistinctHoles(j, k, s);
    hide Placeholder;
    hide ReplaceAll;
    var p, q := Placeholder(k), Placeholder(j);
    d := FirstStray(q, s, k);
    forall b | 0 <= b < d ensures !(p <= q[..d][b..] + (q[d..] + s)) { CutAnywhere(q, s, b, d); }
    CutAnywhere(q, s, 0, d);
    assert q[..d][0..] == q[..d] && q[0..] == q;
    ReplaceSkips(q[..d], q[d..] + s, p, filling);
    rest := ReplaceOpens(q[d..] + s, p, filling);
  }

  lemma StrayBreaks(toks: seq<Token>, z: string, k: nat, filling: string) returns (e: End)
    requires toks != [] && StrayAt(toks, z, k) && filling != "" && filling[0] == '{'
    ensures Placeholder(k) != "" && Broken(toks, 0, e) && ReplaceAll(Flatten(toks) + z, Placeholder(k), filling) == EndText(e)
  {
    TextSplits(toks, z);
    var s := Flatten(toks[1..]) + z;
    hide Flatten, Placeholder, ReplaceAll;
    match toks[0]
    case Lit(c) =>
      var rest := LitBreaks(c, s, k, filling);
      e := Blocked("", rest);
      assert "" + "{" + rest == "{" + rest;
    case Hole(j) =>
      var d, rest := HoleBreaks(j, s, k, filling);
      e := Blocked(Placeholder(j)[..d], rest);
      Associates(Placeholder(j)[..d], "{", rest);
  }

  lemma FirstStray(q: string, s: string, k: nat) returns (d: nat)
    requires !(Placeholder(k) <= q + s) && exists b :: 1 <= b < |q| && Placeholder(k) <= q[b..] + s
    ensures 1 <= d < |q| && Placeholder(k) <= q[d..] + s && forall b :: 0 <= b < d ==> !(Placeholder(k) <= q[b..] + s)
  {
    hide Placeholder;
    assert q[0..] == q;
    var top: nat :| 1 <= top < |q| && Placeholder(k) <= q[top..] + s;
    d := 0;
    while !(Placeholder(k) <= q[d..] + s)
      invariant d <= top && forall b :: 0 <= b < d ==> !(Placeholder(k) <= q[b..] + s)
      decreases top - d
    {
      d := d + 1;
    }
  }

  lemma {:induction false} PassBreaks(toks: seq<Token>, z: string, k: nat, filling: string) returns (i: nat, e: End)
    requires Strays(toks, z, k) && filling != "" && filling[0] == '{'
    ensures Placeholder(k) != "" && Broken(toks, i, e)
    ensures ReplaceAll(Flatten(toks) + z, Placeholder(k), filling) == Flatten(Fill(toks[..i], k, filling)) + EndText(e)
    decreases |toks|
  {
    hide *;
    StraysUnfold(toks, z, k);
    if StrayAt(toks, z, k) {
      i := 0;
      e := StrayBreaks(toks, z, k, filling);
      NothingFilled(k, filling);
      assert toks[..0] == [] && "" + EndText(e) == EndText(e);
    } else {
      var n: nat;
      n, e := PassBreaks(toks[1..], z, k, filling);
      i := n + 1;
      TokenPasses(toks, z, k, filling);
      BrokenLater(toks, n, e);
      var init := toks[..i];
      assert init[0] == toks[0] && init[1..] == toks[1..][..n];
      FillHead(init, k, filling);
      var x := if toks[0] == Hole(k) then filling else TextOf(toks[0]);
      Associates(x, Flatten(Fill(toks[1..][..n], k, filling)), EndText(e));
    }
  }

  lemma StraysUnfold(toks: seq<Token>, z: string, k: nat)
    requires Strays(toks, z, k)
    ensures toks != [] && (StrayAt(toks, z, k) || Strays(toks[1..], z, k))
  {
  }

  lemma BrokenLater(toks: seq<Token>, n: nat, e: End)
    requires toks != [] && Broken(toks[1..], n, e)
    ensures n + 1 < |toks| && Broken(toks, n + 1, e)
  {
    hide Stub;
  }

  lemma NothingFilled(k: nat, filling: string)
    ensures Flatten(Fill([], k, filling)) == "" && Flatten([]) == ""
  {
  }

  /** All passes */

  function Ref(refs: map<nat, string>, k: nat): string
    requires k in refs
  {
    "{{" + refs[k] + "}}"
  }

  /** No pass meets a stray. */
  ghost predicate StrayFree(toks: seq<Token>, e: End, refs: map<nat, string>, order: seq<nat>)
    decreases |order|
  {
    order == [] ||
    (if order[0] !in refs then StrayFree(toks, e, refs, order[1..])
     else
       && Placeholder(order[0]) != "" && !Strays(toks, EndText(e), order[0])
       && StrayFree(Fill(toks, order[0], Ref(refs, order[0])), EndStep(e, order[0], Ref(refs, order[0])), refs, order[1..]))
  }

  ghost predicate Diverges(a: string, b: string) { exists q: nat :: q < |a| && q < |b| && a[q] != b[q] }

  /** The text ends up as the expansion of the tokens, followed by what the end has become. */
  ghost predicate Arrives(final: string, toks: seq<Token>, refs: map<nat, string>, e: End) {
    exists x: End :: final == Expand(toks, refs) + EndText(x) && (if e.Clear? then x.Clear? else x.Blocked? && x.stub == e.stub)
  }

  lemma RestoreStep(s: string, refs: map<nat, string>, order: seq<nat>)
    requires order != [] && order[0] in refs
    ensures Placeholder(order[0]) != "" && Restore(s, refs, order) == Restore(ReplaceAll(s, Placeholder(order[0]), Ref(refs, order[0])), refs, order[1..])
  {
    PlaceholderShape(order[0]);
    hide Placeholder, ReplaceAll;
  }

  lemma HolesShrink(toks: seq<Token>, k: nat, filling: string, refs: map<nat, string>, order: seq<nat>)
    requires order != [] && order[0] == k && forall j :: j in Holes(toks) ==> j in refs && j in order
    ensures forall j :: j in Holes(Fill(toks, k, filling)) ==> j in refs && j in order[1..]
  {
    hide Holes;
    forall j | j in Holes(Fill(toks, k, filling)) ensures j in refs && j in order[1..] {
      FillRemovesHole(toks, k, filling, j);
      assert order == [order[0]] + order[1..];
    }
  }

  lemma HolesOfPart(toks: seq<Token>, i: nat)
    requires i <= |toks|
    ensures Holes(toks[..i]) <= Holes(toks)
  {
  }

  lemma {:induction false} ExpandConcat(a: seq<Token>, b: seq<Token>, refs: map<nat, string>)
    ensures Expand(a + b, refs) == Expand(a, refs) + Expand(b, refs)
    decreases |a|
  {
    if a == [] {
      assert a + b == b && "" + Expand(b, refs) == Expand(b, refs);
    } else {
      ExpandConcat(a[1..], b, refs);
      assert a + b == [a[0]] + (a[1..] + b);
      ExpandCons(a[0], a[1..] + b, refs);
      Associates(Filled(a[0], refs), Expand(a[1..], refs), Expand(b, refs));
    }
  }

  lemma DivergesEarlier(a: string, front: string, back: string)
    requires Diverges(a, front)
    ensures Diverges(a, front + back)
  {
    var q: nat :| q < |a| && q < |front| && a[q] != front[q];
    assert (front + back)[q] == front[q];
  }

  lemma DivergesThere(front: string, x: string, y: string)
    requires x != "" && y != "" && x[0] != y[0]
    ensures Diverges(front + x, front + y)
  {
    var q := |front|;
    assert (front + x)[q] == x[0] && (front + y)[q] == y[0];
  }

  lemma ExpandAt(toks: seq<Token>, i: nat, refs: map<nat, string>) returns (back: string)
    requires i < |toks| && (toks[i].Hole? ==> toks[i].k in refs)
    ensures Expand(toks, refs) == Expand(toks[..i], refs) + back
    ensures back != "" && back[0] == if toks[i].Lit? then toks[i].c else '{'
  {
    hide Expand, Filled;
    var tail := toks[i..];
    assert tail[0] == toks[i] && toks[..i] + tail == toks;
    ExpandHead(tail, refs);
    FilledStarts(toks[i], refs);
    back := Expand(tail, refs);
    assert back[0] == Filled(toks[i], refs)[0];
    ExpandConcat(toks[..i], tail, refs);
  }

  lemma ExpandHead(toks: seq<Token>, refs: map<nat, string>)
    requires toks != []
    ensures Expand(toks, refs) == Filled(toks[0], refs) + Expand(toks[1..], refs)
  {
  }

  lemma FilledStarts(t: Token, refs: map<nat, string>)
    requires t.Hole? ==> t.k in refs
    ensures Filled(t, refs) != "" && Filled(t, refs)[0] == if t.Lit? then t.c else '{'
  {
  }

  lemma EndStarts(e: End)
    requires e.Blocked? && Stub(e.stub)
    ensures EndText(e) != "" && EndText(e)[0] == if e.stub == "" then '{' else '_'
  {
    StubStarts(e.stub);
    hide Stub;
  }

  /** Where the text was broken, it differs from the expansion for good. */
  lemma BrokenDiverges(final: string, toks: seq<Token>, i: nat, refs: map<nat, string>, e: End)
    requires Broken(toks, i, e) && (toks[i].Hole? ==> toks[i].k in refs)
    requires Arrives(final, toks[..i], refs, e) || Diverges(final, Expand(toks[..i], refs))
    ensures Diverges(final, Expand(toks, refs))
  {
    hide Expand, EndText, Diverges, Stub;
    var back := ExpandAt(toks, i, refs);
    var front := Expand(toks[..i], refs);
    if Diverges(final, front) {
      DivergesEarlier(final, front, back);
    } else {
      var x: End :| final == front + EndText(x) && (if e.Clear? then x.Clear? else x.Blocked? && x.stub == e.stub);
      EndStarts(x);
      DivergesThere(front, EndText(x), back);
    }
  }

  lemma StubStarts(u: string)
    requires Stub(u)
    ensures u != "" ==> u[0] == '_'
  {
    if u != "" {
      var j: nat, d: nat :| 1 <= d < |Placeholder(j)| && u == Placeholder(j)[..d];
      HeadOf(j, 0);
      HeadShape();
    }
  }

  lemma NothingLeft(toks: seq<Token>, e: End, refs: map<nat, string>)
    requires Holes(toks) == {}
    ensures Arrives(Flatten(toks) + EndText(e), toks, refs, e)
  {
    NoHolesLeft(toks, refs);
    hide Flatten, Expand;
    assert Flatten(toks) + EndText(e) == Expand(toks, refs) + EndText(e);
  }

  lemma ArrivesVia(final: string, toks: seq<Token>, k: nat, refs: map<nat, string>, e: End)
    requires k in refs && Placeholder(k) != ""
    ensures Arrives(final, Fill(toks, k, Ref(refs, k)), refs, EndStep(e, k, Ref(refs, k))) ==> Arrives(final, toks, refs, e)
    ensures Expand(Fill(toks, k, Ref(refs, k)), refs) == Expand(toks, refs)
  {
    FillKeepsExpansion(toks, k, refs);
    hide Expand, Fill, ReplaceAll, Placeholder;
  }

  /** Without strays the text arrives at its expansion; with one it goes astray for good. */
  lemma {:induction false} RestoreSettles(toks: seq<Token>, e: End, refs: map<nat, string>, order: seq<nat>)
    requires WellStubbed(e) && forall k :: k in Holes(toks) ==> k in refs && k in order
    ensures var final := Restore(Flatten(toks) + EndText(e), refs, order);
            if StrayFree(toks, e, refs, order) then Arrives(final, toks, refs, e) else Diverges(final, Expand(toks, refs))
    decreases |order|
  {
    hide Flatten, Expand, Placeholder, Holes, Strays, EndText, EndStep, Fill, Stub, Diverges, Arrives, Ref, ReplaceAll;
    var text := Flatten(toks) + EndText(e);
    if order == [] {
      assert Holes(toks) == {};
      NothingLeft(toks, e, refs);
    } else if order[0] !in refs {
      assert order == [order[0]] + order[1..];
      RestoreSettles(toks, e, refs, order[1..]);
    } else {
      var k, filling := order[0], Ref(refs, order[0]);
      RestoreStep(text, refs, order);
      RefStarts(refs, k);
      HolesShrink(toks, k, filling, refs, order);
      if Strays(toks, EndText(e), k) {
        var i, b := PassBreaks(toks, EndText(e), k, filling);
        HolesOfPart(toks, i);
        HolesShrink(toks[..i], k, filling, refs, order);
        RestoreSettles(Fill(toks[..i], k, filling), b, refs, order[1..]);
        AfterBreak(Restore(text, refs, order), toks, i, k, refs, b, order[1..]);
      } else {
        PassFills(toks, e, k, filling);
        StubStays(e, k, filling);
        RestoreSettles(Fill(toks, k, filling), EndStep(e, k, filling), refs, order[1..]);
        ArrivesVia(Restore(text, refs, order), toks, k, refs, e);
      }
    }
  }

  lemma RefStarts(refs: map<nat, string>, k: nat)
    requires k in refs
    ensures Ref(refs, k) != "" && Ref(refs, k)[0] == '{'
  {
  }

  lemma StubStays(e: End, k: nat, filling: string)
    requires WellStubbed(e) && Placeholder(k) != ""
    ensures WellStubbed(EndStep(e, k, filling))
  {
    hide Stub;
  }

  lemma AfterBreak(final: string, toks: seq<Token>, i: nat, k: nat, refs: map<nat, string>, e: End, order: seq<nat>)
    requires k in refs && Broken(toks, i, e) && forall j :: j in Holes(toks) ==> j in refs
    requires var part := Fill(toks[..i], k, Ref(refs, k));
             if StrayFree(part, e, refs, order) then Arrives(final, part, refs, e) else Diverges(final, Expand(part, refs))
    ensures Diverges(final, Expand(toks, refs))
  {
    FillKeepsExpansion(toks[..i], k, refs);
    assert toks[i] in toks;
    assert toks[i].Hole? ==> toks[i].k in Holes(toks) by { if toks[i].Hole? { assert toks[i] == Hole(toks[i].k); } }
    hide Expand, Fill, StrayFree, Stub, Diverges, Holes;
    BrokenDiverges(final, toks, i, refs, e);
  }

  /** Main result: for every content and every order in which the placeholders are restored, the content
      comes back if and only if no pass meets a placeholder anywhere but at its own holes. */
  lemma RoundTripIff(content: string, order: seq<nat>)
    requires forall k :: k in Tokenize(content, 1).refs ==> k in order
    ensures var t := Tokenize(content, 1);
            Restore(Flatten(t.toks), t.refs, order) == content <==> StrayFree(t.toks, Clear, t.refs, order)
  {
    TokenizeExpands(content, 1);
    TokenizeNumbers(content, 1);
    var t := Tokenize(content, 1);
    hide Tokenize, Flatten, Expand, Holes, StrayFree;
    RestoreSettles(t.toks, Clear, t.refs, order);
    assert Flatten(t.toks) + "" == Flatten(t.toks) && content + "" == content;
  }
}
