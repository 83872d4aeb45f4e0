/** Template references in cast files: each {{...}} is replaced by a numbered placeholder before the
    YAML is parsed, and restored afterwards by plain text replacement in map order. */
module Templates {
  import opened Common

  function Head(): string { "__TEMPLATE_PLACEHOLDER_" }
  function Mark(): string { "TEMPLATE_PLACEHOLDER" }

  function Digit(n: nat): char
    requires n < 10
  {
    "0123456789"[n]
  }

  function Decimal(n: nat): (d: string)
    ensures d != "" && forall i :: 0 <= i < |d| ==> '0' <= d[i] <= '9'
  {
    if n < 10 then [Digit(n)] else Decimal(n / 10) + [Digit(n % 10)]
  }

  function Placeholder(k: nat): string { Head() + Decimal(k) + "__" }

  /** Scanning for references */

  /** The first '}' at or after `i`. */
  function Brace(s: string, i: nat): (j: nat)
    requires i <= |s|
    ensures i <= j <= |s| && (j < |s| ==> s[j] == '}') && forall k :: i <= k < j ==> s[k] != '}'
    decreases |s| - i
  {
    if i == |s| || s[i] == '}' then i else Brace(s, i + 1)
  }

  /** The text between the braces if `s` starts with a reference: two opening braces, at least one
      character other than '}', two closing braces. */
  function RefAt(s: string): (r: Option<string>)
    ensures r.Some? ==> |r.value| + 4 <= |s| && s[..|r.value| + 4] == "{{" + r.value + "}}"
  {
    if |s| < 2 || s[0] != '{' || s[1] != '{' then None
    else
      var j := Brace(s, 2);
      if j == 2 || j + 1 >= |s| || s[j + 1] != '}' then None else Some(s[2..j])
  }

  /** A reference is read exactly where braces enclose text without a closing brace, and it is that text. */
  lemma RefIsBracedText(s: string, v: string)
    ensures RefAt(s) == Some(v) <==> v != "" && '}' !in v && "{{" + v + "}}" <= s
  {
    var t := "{{" + v + "}}";
    if RefAt(s) == Some(v) {
      var j := Brace(s, 2);
      assert v == s[2..j] && forall i :: 0 <= i < |v| ==> v[i] == s[2 + i] != '}';
    }
    if v != "" && '}' !in v && t <= s {
      assert s[0] == t[0] && s[1] == t[1] && forall i :: 0 <= i < |v| ==> s[2 + i] == t[2 + i] == v[i];
      assert s[2 + |v|] == t[2 + |v|] == '}' && s[3 + |v|] == t[3 + |v|] == '}';
      var j := Brace(s, 2);
      assert j == 2 + |v|;
      assert s[2..j] == v;
    }
  }

  /** Text with placeholders still marked as such. */
  datatype Token = Lit(c: char) | Hole(k: nat)

  datatype Tokens = Tokens(toks: seq<Token>, refs: map<nat, string>)

  /** The scan, numbering references from `k`. */
  function Tokenize(s: string, k: nat): Tokens
    decreases |s|
  {
    if s == "" then Tokens([], map[])
    else
      var r := RefAt(s);
      if r.Some? then
        var rest := Tokenize(s[|r.value| + 4..], k + 1);
        Tokens([Hole(k)] + rest.toks, rest.refs[k := r.value])
      else
        var rest := Tokenize(s[1..], k);
        Tokens([Lit(s[0])] + rest.toks, rest.refs)
  }

  function TextOf(t: Token): string { if t.Lit? then [t.c] else Placeholder(t.k) }

  function Flatten(toks: seq<Token>): string {
    if toks == [] then ""
    else TextOf(toks[0]) + Flatten(toks[1..])
  }

  /** Restoring */

  function ReplaceAll(s: string, pattern: string, filling: string): string
    requires pattern != ""
    decreases |s|
  {
    if s == "" then ""
    else if pattern <= s then filling + ReplaceAll(s[|pattern|..], pattern, filling)
    else [s[0]] + ReplaceAll(s[1..], pattern, filling)
  }

  function Restore(s: string, refs: map<nat, string>, order: seq<nat>): string
    decreases |order|
  {
    if order == [] then s
    else if order[0] !in refs then Restore(s, refs, order[1..])
    else Restore(ReplaceAll(s, Placeholder(order[0]), "{{" + refs[order[0]] + "}}"), refs, order[1..])
  }

  predicate Contains(s: string, t: string) { exists i :: 0 <= i <= |s| && t <= s[i..] }

  /** Decimal numbers */

  function Value(d: string): nat
    requires forall i :: 0 <= i < |d| ==> '0' <= d[i] <= '9'
  {
    if d == "" then 0 else 10 * Value(d[..|d| - 1]) + (d[|d| - 1] as int - '0' as int)
  }

  lemma DigitReadsBack(n: nat)
    requires n < 10
    ensures Digit(n) as int - '0' as int == n
  {
  }

  lemma {:induction false} DecimalReadsBack(n: nat)
    ensures Value(Decimal(n)) == n
  {
    DigitReadsBack(n % 10);
    if n < 10 {
      assert Decimal(n)[..0] == "";
      hide Digit;
    } else {
      DecimalReadsBack(n / 10);
      hide Digit;
      assert Decimal(n)[..|Decimal(n)| - 1] == Decimal(n / 10);
    }
  }

  lemma PlaceholdersDiffer(j: nat, k: nat, rest: string)
    requires Placeholder(k) <= Placeholder(j) + rest
    ensures j == k
  {
    var p, q := Placeholder(k), Placeholder(j) + rest;
    var dk, dj := Decimal(k), Decimal(j);
    assert forall i :: 0 <= i < |dk| ==> p[23 + i] == dk[i];
    assert forall i :: 0 <= i < |dj| ==> q[23 + i] == dj[i];
    assert p[23 + |dk|] == '_' && q[23 + |dj|] == '_';
    assert forall i :: 0 <= i < |p| ==> p[i] == q[i];
    assert |dk| == |dj|;
    assert dk == dj;
    DecimalReadsBack(j);
    DecimalReadsBack(k);
  }

  /** The head has a double underscore only at its start. */
  lemma HeadShape()
    ensures |Head()| == 23 && |Mark()| == 20 && Head()[2..22] == Mark()
    ensures Head()[0] == Head()[1] == '_'
    ensures forall m :: 1 <= m <= 21 ==> !(Head()[m] == '_' && Head()[m + 1] == '_')
    ensures Head()[22] == '_'
  {
    var h := Head();
    assert h[0] == '_' && h[1] == '_' && h[2] == 'T' && h[9] == 'E' && h[10] == '_' && h[11] == 'P' && h[21] == 'R' && h[22] == '_';
    assert forall i :: 0 <= i < 20 ==> h[2..22][i] == Mark()[i];
  }

  lemma PlaceholderShape(k: nat)
    ensures |Placeholder(k)| >= 26 && Head() <= Placeholder(k)
    ensures Placeholder(k)[|Placeholder(k)| - 2..] == "__"
    ensures forall d :: 1 <= d < |Placeholder(k)| - 2 ==> !(Placeholder(k)[d] == '_' && Placeholder(k)[d + 1] == '_')
  {
    HeadShape();
    var p, dk := Placeholder(k), Decimal(k);
    assert forall i :: 0 <= i < 23 ==> p[i] == Head()[i];
    assert forall i :: 0 <= i < |dk| ==> p[23 + i] == dk[i];
    forall d | 1 <= d < |p| - 2 ensures !(p[d] == '_' && p[d + 1] == '_') {
      if d <= 21 { assert p[d] == Head()[d] && p[d + 1] == Head()[d + 1]; }
      else if d == 22 { assert p[23] == dk[0]; }
      else { assert p[d] == dk[d - 23]; }
    }
  }

  /** Where a placeholder can and cannot occur */

  /** The literal characters that `toks` starts with. */
  function Run(toks: seq<Token>): string {
    if toks == [] || toks[0].Hole? then "" else [toks[0].c] + Run(toks[1..])
  }

  /** No literal stretch contains the mark. */
  ghost predicate Unmarked(toks: seq<Token>) {
    toks == [] || (!(Mark() <= Run(toks)) && Unmarked(toks[1..]))
  }

  lemma {:induction false} RunEnds(toks: seq<Token>)
    ensures |Run(toks)| <= |toks| && (|Run(toks)| < |toks| ==> toks[|Run(toks)|].Hole?)
  {
    if toks != [] && toks[0].Lit? { RunEnds(toks[1..]); }
  }

  lemma FlattenHead(toks: seq<Token>)
    requires toks != []
    ensures Flatten(toks) == TextOf(toks[0]) + Flatten(toks[1..])
  {
  }

  lemma RunHead(toks: seq<Token>)
    requires toks != [] && toks[0].Lit?
    ensures Run(toks) == TextOf(toks[0]) + Run(toks[1..]) && |Run(toks)| == 1 + |Run(toks[1..])|
  {
  }

  lemma NoRun(toks: seq<Token>)
    requires toks == [] || toks[0].Hole?
    ensures Run(toks) == ""
  {
  }

  lemma Associates(a: string, b: string, c: string)
    ensures (a + b) + c == a + (b + c)
  {
  }

  lemma {:induction false} RunIsFront(toks: seq<Token>)
    ensures |Run(toks)| <= |toks| && Flatten(toks) == Run(toks) + Flatten(toks[|Run(toks)|..])
  {
    hide *;
    RunEnds(toks);
    if toks != [] && toks[0].Lit? {
      var rest := toks[1..];
      var m := |Run(rest)|;
      RunHead(toks);
      RunIsFront(rest);
      FlattenHead(toks);
      assert rest[m..] == toks[m + 1..];
      Associates(TextOf(toks[0]), Run(rest), Flatten(rest[m..]));
    } else {
      NoRun(toks);
      assert toks[0..] == toks && "" + Flatten(toks) == Flatten(toks);
    }
  }

  lemma {:induction false} RunsInside(toks: seq<Token>, i: nat)
    requires Unmarked(toks) && i <= |Run(toks)|
    ensures !(Mark() <= Run(toks)[i..])
  {
    if i == 0 {
      assert Run(toks)[0..] == Run(toks);
    } else {
      RunsInside(toks[1..], i - 1);
      assert Run(toks)[i..] == Run(toks[1..])[i - 1..];
    }
  }

  lemma {:induction false} Difference(a: string, b: string) returns (i: nat)
    requires |a| <= |b| && !(a <= b)
    ensures i < |a| && a[i] != b[i]
  {
    if a[0] != b[0] {
      i := 0;
    } else {
      assert a == [a[0]] + a[1..] && b == [b[0]] + b[1..];
      i := Difference(a[1..], b[1..]);
      i := i + 1;
    }
  }

  lemma DiffersAt(a: string, b: string, i: nat)
    requires i < |a| && (i >= |b| || a[i] != b[i])
    ensures !(a <= b)
  {
  }

  /** After its literal run, a text goes on with a placeholder or ends. */
  lemma AfterRun(toks: seq<Token>)
    ensures var m, text := |Run(toks)|, Flatten(toks);
            && m <= |text| && text[..m] == Run(toks)
            && (m < |text| ==> m + 1 < |text| && text[m] == '_' && text[m + 1] == '_')
  {
    RunIsFront(toks);
    RunEnds(toks);
    var m := |Run(toks)|;
    if m < |toks| {
      HeadShape();
      PlaceholderShape(toks[m].k);
      assert toks[m..][0] == toks[m];
      var p, rest := Placeholder(toks[m].k), Flatten(toks[m..][1..]);
      assert p[0] == Head()[0] && p[1] == Head()[1];
      assert Flatten(toks[m..]) == p + rest;
      assert (p + rest)[0] == p[0] && (p + rest)[1] == p[1];
    }
  }

  /** Placeholders start with the head, whose characters 2 to 21 are the mark. */
  lemma HeadOf(k: nat, i: nat)
    requires i < 23
    ensures |Placeholder(k)| >= 26 && |Head()| == 23 && Placeholder(k)[i] == Head()[i]
    ensures 2 <= i < 22 ==> |Mark()| == 20 && Head()[i] == Mark()[i - 2]
    ensures 1 <= i <= 21 ==> !(Head()[i] == '_' && Head()[i + 1] == '_')
  {
    HeadShape();
    PlaceholderShape(k);
    if 2 <= i < 22 { assert Head()[2..22][i - 2] == Head()[i]; }
  }

  lemma LongRun(toks: seq<Token>, k: nat, e: nat)
    requires Unmarked(toks) && e <= 2 && |Run(toks)| >= 22 - e
    ensures !(Placeholder(k)[e..] <= Flatten(toks))
  {
    hide *;
    var p, run, text := Placeholder(k), Run(toks), Flatten(toks);
    HeadOf(k, 2);
    AfterRun(toks);
    RunsInside(toks, 2 - e);
    var i := Difference(Mark(), run[2 - e..]);
    HeadOf(k, 2 + i);
    assert run[2 - e..][i] == run[2 - e + i] == text[2 - e + i] && p[e..][2 - e + i] == p[2 + i];
    DiffersAt(p[e..], text, 2 - e + i);
  }

  lemma ShortRun(toks: seq<Token>, k: nat, e: nat)
    requires 1 <= e + |Run(toks)| < 22
    ensures |Placeholder(k)| >= 26 && !(Placeholder(k)[e..] <= Flatten(toks))
  {
    hide *;
    var p, text, m := Placeholder(k), Flatten(toks), |Run(toks)|;
    AfterRun(toks);
    HeadOf(k, e + m);
    HeadOf(k, e + m + 1);
    assert p[e..][m] == p[e + m] && p[e..][m + 1] == p[e + m + 1];
    DiffersAt(p[e..], text, if m < |text| && p[e + m] == '_' then m + 1 else m);
  }

  /** A placeholder whose first `e` characters lie before `toks` cannot go on in `toks`. */
  lemma NoStraddling(toks: seq<Token>, k: nat, e: nat)
    requires Unmarked(toks) && e <= 2 && (e == 0 ==> toks != [] && toks[0].Lit?)
    ensures |Placeholder(k)| >= 26 && !(Placeholder(k)[e..] <= Flatten(toks))
  {
    hide *;
    if e == 0 { RunHead(toks); }
    HeadOf(k, 2);
    if |Run(toks)| >= 22 - e { LongRun(toks, k, e); } else { ShortRun(toks, k, e); }
  }

  /** No placeholder starts inside another one, whatever follows. */
  lemma NoneInside(j: nat, toks: seq<Token>, k: nat, d: nat)
    requires Unmarked(toks) && 1 <= d < |Placeholder(j)|
    ensures !(Placeholder(k) <= Placeholder(j)[d..] + Flatten(toks))
  {
    HeadShape();
    PlaceholderShape(j);
    PlaceholderShape(k);
    var q, p, text := Placeholder(j), Placeholder(k), Flatten(toks);
    var s := q[d..] + text;
    assert p[0] == Head()[0] == '_' && p[1] == Head()[1] == '_';
    hide Flatten, Unmarked, Placeholder;
    var n := |q| - d;
    if n > 2 {
      assert s[0] == q[d] && s[1] == q[d + 1];
      DiffersAt(p, s, if q[d] == '_' then 1 else 0);
    } else {
      NoStraddling(toks, k, n);
      if |p[n..]| <= |text| {
        var i := Difference(p[n..], text);
        assert s[n + i] == text[i] && p[n..][i] == p[n + i];
        DiffersAt(p, s, n + i);
      }
    }
  }

  /** One replacement */

  lemma {:induction false} ReplaceSkips(y: string, s: string, pattern: string, filling: string)
    requires pattern != "" && forall d :: 0 <= d < |y| ==> !(pattern <= y[d..] + s)
    ensures ReplaceAll(y + s, pattern, filling) == y + ReplaceAll(s, pattern, filling)
  {
    if y == "" {
      assert y + s == s;
    } else {
      assert y[0..] + s == y + s;
      assert (y + s)[1..] == y[1..] + s;
      forall d | 0 <= d < |y[1..]| ensures !(pattern <= y[1..][d..] + s) { assert y[1..][d..] == y[d + 1..]; }
      ReplaceSkips(y[1..], s, pattern, filling);
      assert y == [y[0]] + y[1..];
    }
  }

  function Lits(s: string): seq<Token> { if s == "" then [] else [Lit(s[0])] + Lits(s[1..]) }

  /** Hole `k` filled with literal text. */
  function Fill(toks: seq<Token>, k: nat, filling: string): seq<Token> {
    if toks == [] then []
    else (if toks[0] == Hole(k) then Lits(filling) else [toks[0]]) + Fill(toks[1..], k, filling)
  }

  lemma LitsHead(s: string, rest: seq<Token>)
    requires s != ""
    ensures Lits(s) + rest == [Lit(s[0])] + (Lits(s[1..]) + rest)
  {
  }

  lemma NoLits(rest: seq<Token>)
    ensures Lits("") + rest == rest
  {
  }

  lemma LitText(c: char)
    ensures TextOf(Lit(c)) == [c]
  {
  }

  lemma {:induction false} FlattenLits(s: string, rest: seq<Token>)
    ensures Flatten(Lits(s) + rest) == s + Flatten(rest)
  {
    hide *;
    if s == "" {
      NoLits(rest);
      assert s + Flatten(rest) == Flatten(rest);
    } else {
      FlattenLits(s[1..], rest);
      LitsHead(s, rest);
      FlattenCons(Lit(s[0]), Lits(s[1..]) + rest);
      LitText(s[0]);
      Associates([s[0]], s[1..], Flatten(rest));
      assert [s[0]] + s[1..] == s;
    }
  }

  lemma FlattenCons(t: Token, rest: seq<Token>)
    ensures Flatten([t] + rest) == TextOf(t) + Flatten(rest)
  {
    assert ([t] + rest)[1..] == rest;
  }

  /** Replacing placeholder `k` in the text is filling hole `k`, and touches nothing else. */
  lemma {:induction false} ReplaceFillsHole(toks: seq<Token>, k: nat, filling: string)
    requires Unmarked(toks)
    ensures Placeholder(k) != "" && ReplaceAll(Flatten(toks), Placeholder(k), filling) == Flatten(Fill(toks, k, filling))
  {
    PlaceholderShape(k);
    if toks != [] {
      var p, rest := Placeholder(k), toks[1..];
      var text := Flatten(rest);
      ReplaceFillsHole(rest, k, filling);
      hide Placeholder, Unmarked;
      match toks[0]
      case Lit(c) =>
        NoStraddling(toks, k, 0);
        assert p[0..] == p;
        assert forall d :: 0 <= d < 1 ==> [c][d..] + text == [c] + text;
        ReplaceSkips([c], text, p, filling);
        FlattenCons(toks[0], Fill(rest, k, filling));
      case Hole(j) =>
        if j == k {
          assert (p + text)[|p|..] == text && p <= p + text;
          FlattenLits(filling, Fill(rest, k, filling));
        } else {
          assert Unmarked(rest) by { UnmarkedRest(toks); }
          forall d | 0 <= d < |Placeholder(j)| ensures !(p <= Placeholder(j)[d..] + text) {
            if d == 0 {
              assert Placeholder(j)[0..] == Placeholder(j);
              DistinctHoles(j, k, text);
            } else { NoneInside(j, rest, k, d); }
          }
          ReplaceSkips(Placeholder(j), text, p, filling);
          FlattenCons(toks[0], Fill(rest, k, filling));
        }
    }
  }

  lemma DistinctHoles(j: nat, k: nat, rest: string)
    requires j != k
    ensures !(Placeholder(k) <= Placeholder(j) + rest)
  {
    if Placeholder(k) <= Placeholder(j) + rest { PlaceholdersDiffer(j, k, rest); }
  }

  lemma UnmarkedRest(toks: seq<Token>)
    requires Unmarked(toks) && toks != []
    ensures Unmarked(toks[1..])
  {
  }

  /** The whole text */

  function Filled(t: Token, refs: map<nat, string>): string {
    if t.Lit? then [t.c] else if t.k in refs then "{{" + refs[t.k] + "}}" else ""
  }

  /** The text with every hole filled from `refs`. */
  function Expand(toks: seq<Token>, refs: map<nat, string>): string {
    if toks == [] then ""
    else Filled(toks[0], refs) + Expand(toks[1..], refs)
  }

  lemma ExpandCons(t: Token, rest: seq<Token>, refs: map<nat, string>)
    ensures Expand([t] + rest, refs)
         == Filled(t, refs) + Expand(rest, refs)
  {
    assert ([t] + rest)[1..] == rest;
  }

  lemma LitFilled(c: char, refs: map<nat, string>)
    ensures Filled(Lit(c), refs) == [c]
  {
  }

  lemma {:induction false} ExpandLits(s: string, rest: seq<Token>, refs: map<nat, string>)
    ensures Expand(Lits(s) + rest, refs) == s + Expand(rest, refs)
  {
    hide *;
    if s == "" {
      NoLits(rest);
      assert s + Expand(rest, refs) == Expand(rest, refs);
    } else {
      ExpandLits(s[1..], rest, refs);
      LitsHead(s, rest);
      ExpandCons(Lit(s[0]), Lits(s[1..]) + rest, refs);
      LitFilled(s[0], refs);
      Associates([s[0]], s[1..], Expand(rest, refs));
      assert [s[0]] + s[1..] == s;
    }
  }

  /** Filling a hole with its own reference does not change what the text expands to. */
  lemma {:induction false} FillKeepsExpansion(toks: seq<Token>, k: nat, refs: map<nat, string>)
    requires k in refs
    ensures Expand(Fill(toks, k, "{{" + refs[k] + "}}"), refs) == Expand(toks, refs)
  {
    if toks != [] {
      var filling, rest := "{{" + refs[k] + "}}", toks[1..];
      FillKeepsExpansion(rest, k, refs);
      if toks[0] == Hole(k) { ExpandLits(filling, Fill(rest, k, filling), refs); } else { ExpandCons(toks[0], Fill(rest, k, filling), refs); }
    }
  }

  /** The holes left in `toks`. */
  function Holes(toks: seq<Token>): (h: set<nat>)
    ensures forall k :: k in h <==> Hole(k) in toks
  {
    if toks == [] then {}
    else
      assert toks == [toks[0]] + toks[1..];
      (if toks[0].Hole? then {toks[0].k} else {}) + Holes(toks[1..])
  }

  lemma {:induction false} LitsHaveNoHoles(s: string, k: nat)
    ensures Hole(k) !in Lits(s)
  {
    if s != "" { LitsHaveNoHoles(s[1..], k); }
  }

  lemma {:induction false} FillRemovesHole(toks: seq<Token>, k: nat, filling: string, j: nat)
    ensures Hole(j) in Fill(toks, k, filling) <==> Hole(j) in toks && j != k
  {
    if toks != [] {
      FillRemovesHole(toks[1..], k, filling, j);
      LitsHaveNoHoles(filling, j);
      assert toks == [toks[0]] + toks[1..];
    }
  }

  lemma {:induction false} RunIsExpanded(toks: seq<Token>, refs: map<nat, string>)
    ensures Run(toks) <= Expand(toks, refs)
  {
    if toks != [] && toks[0].Lit? {
      RunIsExpanded(toks[1..], refs);
      assert Run(toks) == [toks[0].c] + Run(toks[1..]) && Expand(toks, refs) == [toks[0].c] + Expand(toks[1..], refs);
    }
  }

  lemma PrefixOfSuffix(s: string, x: string, y: string)
    requires s == x + y && !Contains(s, Mark())
    ensures !Contains(y, Mark()) && !(Mark() <= y)
  {
    hide Mark;
    forall i | 0 <= i <= |y| ensures !(Mark() <= y[i..]) { assert y[i..] == s[|x| + i..]; }
    assert y[0..] == y;
  }

  /** A text whose expansion lacks the mark has no literal stretch with it. */
  lemma {:induction false} UnmarkedIfExpansionIs(toks: seq<Token>, refs: map<nat, string>)
    requires !Contains(Expand(toks, refs), Mark())
    ensures Unmarked(toks)
  {
    hide Mark, Contains;
    if toks != [] {
      RunIsExpanded(toks, refs);
      var text, rest := Expand(toks, refs), Expand(toks[1..], refs);
      assert text == "" + text;
      PrefixOfSuffix(text, "", text);
      PrefixIsTransitive(Mark(), Run(toks), text);
      assert text == text[..|text| - |rest|] + rest;
      PrefixOfSuffix(text, text[..|text| - |rest|], rest);
      UnmarkedIfExpansionIs(toks[1..], refs);
    }
  }

  lemma PrefixIsTransitive(a: string, b: string, c: string)
    requires b <= c
    ensures a <= b ==> a <= c
  {
  }

  lemma {:induction false} NoHolesLeft(toks: seq<Token>, refs: map<nat, string>)
    requires Holes(toks) == {}
    ensures Flatten(toks) == Expand(toks, refs)
  {
    hide Placeholder;
    if toks != [] {
      assert Holes(toks[1..]) <= Holes(toks);
      NoHolesLeft(toks[1..], refs);
    }
  }

  /** Restoring in any order that covers the holes. */
  lemma {:induction false} RestoreExpands(toks: seq<Token>, refs: map<nat, string>, order: seq<nat>)
    requires !Contains(Expand(toks, refs), Mark())
    requires forall k :: k in Holes(toks) ==> k in refs && k in order
    ensures Restore(Flatten(toks), refs, order) == Expand(toks, refs)
    decreases |order|
  {
    hide Flatten, Expand, Placeholder, Contains, Mark, Holes;
    if order == [] {
      assert Holes(toks) == {};
      NoHolesLeft(toks, refs);
    } else if order[0] !in refs {
      assert order == [order[0]] + order[1..];
      RestoreExpands(toks, refs, order[1..]);
    } else {
      var k, filling := order[0], "{{" + refs[order[0]] + "}}";
      UnmarkedIfExpansionIs(toks, refs);
      ReplaceFillsHole(toks, k, filling);
      FillKeepsExpansion(toks, k, refs);
      var next := Fill(toks, k, filling);
      forall j | j in Holes(next) ensures j in refs && j in order[1..] {
        FillRemovesHole(toks, k, filling, j);
        assert order == [order[0]] + order[1..];
      }
      RestoreExpands(next, refs, order[1..]);
    }
  }

  lemma HolesCons(t: Token, rest: seq<Token>)
    ensures Holes([t] + rest) == (if t.Hole? then {t.k} else {}) + Holes(rest)
  {
    assert ([t] + rest)[1..] == rest;
  }

  lemma {:induction false} TokenizeNumbers(s: string, k: nat)
    ensures var t := Tokenize(s, k); Holes(t.toks) == t.refs.Keys && forall j :: j in t.refs ==> j >= k
    decreases |s|
  {
    hide RefAt, Holes;
    if s == "" {
      NoHoles();
    } else {
      var r := RefAt(s);
      var rest := if r.Some? then Tokenize(s[|r.value| + 4..], k + 1) else Tokenize(s[1..], k);
      if r.Some? {
        TokenizeNumbers(s[|r.value| + 4..], k + 1);
        HolesCons(Hole(k), rest.toks);
      } else {
        TokenizeNumbers(s[1..], k);
        HolesCons(Lit(s[0]), rest.toks);
      }
    }
  }

  lemma NoHoles()
    ensures Holes([]) == {}
  {
  }

  lemma {:induction false} ExpandIgnores(toks: seq<Token>, refs: map<nat, string>, k: nat, v: string)
    requires k !in Holes(toks)
    ensures Expand(toks, refs[k := v]) == Expand(toks, refs)
  {
    if toks != [] {
      assert k !in Holes(toks[1..]) && (toks[0].Hole? ==> toks[0].k in Holes(toks));
      ExpandIgnores(toks[1..], refs, k, v);
      assert Filled(toks[0], refs[k := v]) == Filled(toks[0], refs);
      hide Filled, Holes;
    }
  }

  lemma RefText(s: string)
    ensures var r := RefAt(s); r.Some? ==> |r.value| + 4 <= |s| && s == ("{{" + r.value + "}}") + s[|r.value| + 4..]
  {
    var r := RefAt(s);
    hide RefAt;
    if r.Some? { assert s == s[..|r.value| + 4] + s[|r.value| + 4..]; }
  }

  /** The scan splits the text into literals and references that expand back to it. */
  lemma {:induction false} TokenizeExpands(s: string, k: nat)
    ensures var t := Tokenize(s, k); Expand(t.toks, t.refs) == s
    decreases |s|
  {
    hide RefAt, Holes, Expand;
    if s == "" {
      ExpandNothing();
    } else {
      var r := RefAt(s);
      if r.Some? {
        var n := |r.value| + 4;
        TokenizeExpands(s[n..], k + 1);
        TokenizeNumbers(s[n..], k + 1);
        var rest := Tokenize(s[n..], k + 1);
        ExpandIgnores(rest.toks, rest.refs, k, r.value);
        ExpandCons(Hole(k), rest.toks, rest.refs[k := r.value]);
        RefText(s);
      } else {
        TokenizeExpands(s[1..], k);
        var rest := Tokenize(s[1..], k);
        ExpandCons(Lit(s[0]), rest.toks, rest.refs);
        assert s == [s[0]] + s[1..];
      }
    }
  }

  lemma ExpandNothing()
    ensures forall refs :: Expand([], refs) == ""
  {
  }

  /** Main result: content without the mark comes back exactly, in whatever order the placeholders are
      restored. */
  lemma PlaceholderRoundTrip(content: string, order: seq<nat>)
    requires !Contains(content, Mark())
    requires forall k :: k in Tokenize(content, 1).refs ==> k in order
    ensures var t := Tokenize(content, 1); Restore(Flatten(t.toks), t.refs, order) == content
  {
    TokenizeExpands(content, 1);
    TokenizeNumbers(content, 1);
    hide Tokenize, Flatten, Expand, Contains, Holes;
    var t := Tokenize(content, 1);
    RestoreExpands(t.toks, t.refs, order);
  }

  /** Content that has the mark */

  lemma {:induction false} NoBraceNoRef(y: string, s: string, k: nat)
    requires '{' !in y
    ensures var t := Tokenize(s, k); Tokenize(y + s, k) == Tokens(Lits(y) + t.toks, t.refs)
  {
    if y == "" {
      assert y + s == s && Lits(y) + Tokenize(s, k).toks == Tokenize(s, k).toks;
    } else {
      assert (y + s)[0] == y[0] && y[0] in y && (y + s)[1..] == y[1..] + s;
      NoBraceNoRef(y[1..], s, k);
      LitsHead(y, Tokenize(s, k).toks);
    }
  }

  lemma PlaceholderHasNoBrace(k: nat)
    ensures '{' !in Placeholder(k)
  {
  }

  lemma OneRef()
    ensures Tokenize("{{x}}", 1) == Tokens([Hole(1)], map[1 := "x"])
  {
    var s := "{{x}}";
    assert Brace(s, 2) == 3 by { assert s[2] == 'x' && s[3] == '}'; }
    assert s[2..3] == "x" && s[5..] == "";
  }

  lemma ReplaceFront(p: string, rest: string, filling: string)
    requires p != ""
    ensures ReplaceAll(p + rest, p, filling) == filling + ReplaceAll(rest, p, filling)
  {
    assert (p + rest)[|p|..] == rest && p <= p + rest;
  }

  lemma MarkedTokens(p: string)
    requires p == Placeholder(1)
    ensures var t := Tokenize(p + "{{x}}", 1); Flatten(t.toks) == p + p && t.refs == map[1 := "x"]
  {
    PlaceholderHasNoBrace(1);
    OneRef();
    hide Placeholder, Tokenize, Lits;
    NoBraceNoRef(p, "{{x}}", 1);
    FlattenLits(p, [Hole(1)]);
    assert Flatten([Hole(1)]) == p + "" by { assert [Hole(1)][1..] == []; }
    assert p + "" == p;
  }

  lemma RestoreOne(s: string, k: nat, v: string)
    ensures Placeholder(k) != "" && Restore(s, map[k := v], [k]) == ReplaceAll(s, Placeholder(k), "{{" + v + "}}")
  {
    PlaceholderShape(k);
    hide Placeholder, ReplaceAll;
    assert [k][1..] == [];
  }

  lemma NothingReplaced(p: string, filling: string)
    requires p != ""
    ensures ReplaceAll("", p, filling) == ""
  {
  }

  lemma StartsUnlike(p: string)
    requires p == Placeholder(1)
    ensures p + "{{x}}" != "{{x}}{{x}}"
  {
    HeadOf(1, 0);
    HeadShape();
    hide Placeholder, Head;
    assert (p + "{{x}}")[0] == '_';
  }

  /** Text that looks like a placeholder is taken for one: it is overwritten by the first reference. */
  lemma MarkedContentIsLost()
    ensures var content := Placeholder(1) + "{{x}}";
            var t := Tokenize(content, 1);
            Restore(Flatten(t.toks), t.refs, [1]) == "{{x}}{{x}}" != content
  {
    hide *;
    var p, n := Placeholder(1), "{{x}}";
    MarkedTokens(p);
    RestoreOne(p + p, 1, "x");
    ReplaceFront(p, p, n);
    ReplaceFront(p, "", n);
    NothingReplaced(p, n);
    assert p + "" == p && n + "" == n && "{{" + "x" + "}}" == n;
    StartsUnlike(p);
  }

  /** The two functions as the code runs them */

  /** The template map is keyed by placeholder text. */
  ghost predicate Keyed(refs: map<nat, string>, templates: map<string, string>) {
    && (forall k :: k in refs ==> Placeholder(k) in templates && templates[Placeholder(k)] == refs[k])
    && (forall p :: p in templates ==> exists k :: k in refs && p == Placeholder(k))
  }

  lemma KeyedExtends(refs: map<nat, string>, templates: map<string, string>, k: nat, v: string)
    requires Keyed(refs, templates) && k !in refs
    ensures Keyed(refs[k := v], templates[Placeholder(k) := v])
  {
    hide Placeholder;
    forall j | j in refs ensures Placeholder(j) != Placeholder(k) {
      DistinctHoles(j, k, "");
      assert Placeholder(j) + "" == Placeholder(j);
    }
    forall p | p in templates ensures exists j :: j in refs[k := v] && p == Placeholder(j) {
      var j :| j in refs && p == Placeholder(j);
      assert j in refs[k := v];
    }
  }

  lemma TokenizeRef(s: string, k: nat)
    requires s != "" && RefAt(s).Some?
    ensures var v := RefAt(s).value;
            var t, next := Tokenize(s, k), Tokenize(s[|v| + 4..], k + 1);
            && Flatten(t.toks) == Placeholder(k) + Flatten(next.toks)
            && t.refs == next.refs[k := v] && k !in next.refs
  {
    var next := Tokenize(s[|RefAt(s).value| + 4..], k + 1);
    TokenizeNumbers(s[|RefAt(s).value| + 4..], k + 1);
    hide RefAt, Placeholder, Flatten;
    FlattenCons(Hole(k), next.toks);
  }

  lemma TokenizeLit(s: string, k: nat)
    requires s != "" && RefAt(s).None?
    ensures var t, next := Tokenize(s, k), Tokenize(s[1..], k);
            Flatten(t.toks) == [s[0]] + Flatten(next.toks) && t.refs == next.refs
  {
    hide RefAt, Placeholder, Flatten;
    FlattenCons(Lit(s[0]), Tokenize(s[1..], k).toks);
  }

  lemma TokenizeNothing(k: nat)
    ensures Flatten(Tokenize("", k).toks) == "" && Tokenize("", k).refs == map[]
  {
  }

  lemma NumberAdded(done: map<nat, string>, next: map<nat, string>, k: nat, v: string)
    requires k !in next
    ensures done[k := v] + next == done + next[k := v]
  {
  }

  /** The scan has turned the content up to `rest` into `processed` and filled `templates` with the
      references `done`, numbered up to `counter`. */
  ghost predicate Scanned(whole: Tokens, processed: string, templates: map<string, string>, done: map<nat, string>, counter: nat, rest: string) {
    var left := Tokenize(rest, counter + 1);
    && processed + Flatten(left.toks) == Flatten(whole.toks)
    && done + left.refs == whole.refs
    && Keyed(done, templates) && forall j :: j in done ==> j <= counter
  }

  lemma ScanStarts(content: string)
    ensures Scanned(Tokenize(content, 1), "", map[], map[], 0, content)
  {
    hide Tokenize, Flatten;
    var whole := Tokenize(content, 1);
    assert "" + Flatten(whole.toks) == Flatten(whole.toks) && map[] + whole.refs == whole.refs;
  }

  lemma ScanTakesRef(whole: Tokens, processed: string, templates: map<string, string>, done: map<nat, string>, counter: nat, rest: string)
    requires rest != "" && RefAt(rest).Some? && Scanned(whole, processed, templates, done, counter, rest)
    ensures var v, k := RefAt(rest).value, counter + 1;
            Scanned(whole, processed + Placeholder(k), templates[Placeholder(k) := v], done[k := v], k, rest[|v| + 4..])
  {
    hide Tokenize, Flatten, Keyed, Placeholder, RefAt;
    var v, k := RefAt(rest).value, counter + 1;
    var next := Tokenize(rest[|v| + 4..], k + 1);
    TokenizeRef(rest, k);
    Associates(processed, Placeholder(k), Flatten(next.toks));
    KeyedExtends(done, templates, k, v);
    NumberAdded(done, next.refs, k, v);
  }

  lemma ScanTakesLit(whole: Tokens, processed: string, templates: map<string, string>, done: map<nat, string>, counter: nat, rest: string)
    requires rest != "" && RefAt(rest).None? && Scanned(whole, processed, templates, done, counter, rest)
    ensures Scanned(whole, processed + [rest[0]], templates, done, counter, rest[1..])
  {
    hide Tokenize, Flatten, Keyed, RefAt;
    TokenizeLit(rest, counter + 1);
    Associates(processed, [rest[0]], Flatten(Tokenize(rest[1..], counter + 1).toks));
  }

  lemma ScanEnds(whole: Tokens, processed: string, templates: map<string, string>, done: map<nat, string>, counter: nat)
    requires Scanned(whole, processed, templates, done, counter, "")
    ensures processed == Flatten(whole.toks) && Keyed(whole.refs, templates)
  {
    hide Tokenize, Flatten, Keyed;
    TokenizeNothing(counter + 1);
    assert processed + "" == processed && done + map[] == done;
  }

  /** preprocessTemplates. */
  method PreprocessTemplates(content: string) returns (processed: string, templates: map<string, string>)
    ensures processed == Flatten(Tokenize(content, 1).toks)
    ensures Keyed(Tokenize(content, 1).refs, templates)
  {
    hide *;
    processed, templates := "", map[];
    var counter: nat, rest := 0, content;
    ghost var whole, done: map<nat, string> := Tokenize(content, 1), map[];
    ScanStarts(content);
    while rest != ""
      invariant Scanned(whole, processed, templates, done, counter, rest)
      decreases |rest|
    {
      var r := RefAt(rest);
      if r.Some? {
        ScanTakesRef(whole, processed, templates, done, counter, rest);
        counter := counter + 1;
        var placeholder := Placeholder(counter);
        done := done[counter := r.value];
        templates := templates[placeholder := r.value];
        processed := processed + placeholder;
        rest := rest[|r.value| + 4..];
      } else {
        ScanTakesLit(whole, processed, templates, done, counter, rest);
        processed := processed + [rest[0]];
        rest := rest[1..];
      }
    }
    ScanEnds(whole, processed, templates, done, counter);
  }

  /** RestoreTemplateReferences, with the map entries in the order the iteration yields them; `numbers`
      are the numbers of those placeholders. */
  method RestoreTemplateReferences(content: string, templates: map<string, string>, order: seq<string>,
                                   ghost refs: map<nat, string>, ghost numbers: seq<nat>)
    returns (result: string)
    requires Keyed(refs, templates) && |numbers| == |order|
    requires forall i :: 0 <= i < |order| ==> numbers[i] in refs && order[i] == Placeholder(numbers[i])
    ensures result == Restore(content, refs, numbers)
  {
    hide Placeholder, ReplaceAll;
    result := content;
    assert numbers[0..] == numbers;
    for i := 0 to |order|
      invariant Restore(result, refs, numbers[i..]) == Restore(content, refs, numbers)
    {
      assert numbers[i..][0] == numbers[i] && numbers[i..][1..] == numbers[i + 1..];
      PlaceholderShape(numbers[i]);
      assert order[i] in templates && templates[order[i]] == refs[numbers[i]];
      result := ReplaceAll(result, order[i], "{{" + templates[order[i]] + "}}");
    }
  }
}
