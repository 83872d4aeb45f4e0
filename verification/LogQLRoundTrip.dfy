/** Parsing undoes rendering, whatever parses can be rendered and parsed again, and splitting loses
    nothing. */
module LogQLRoundTrip {
  import opened Common
  import opened LogQL

  predicate Solid(s: string) { s != "" && !IsSpace(s[0]) && !IsSpace(s[|s| - 1]) }

  /** The rest of a rendered pipeline: empty, or a space and the next stage. */
  predicate Tail(r: string) { r == "" || (r[0] == ' ' && Solid(r[1..])) }

  /** What trimming leaves of a tail. */
  function Head(r: string): string { if r == "" then "" else r[1..] }

  lemma TrimSolid(s: string)
    requires Solid(s)
    ensures Trim(s) == s
  {
  }

  lemma TrimTail(r: string)
    requires Tail(r)
    ensures Trim(r) == Head(r) && Trim(Head(r)) == Head(r)
  {
    if r != "" {
      assert TrimLeft(r) == TrimLeft(r[1..]);
      TrimSolid(r[1..]);
    }
  }

  lemma SolidWithTail(x: string, r: string)
    requires Solid(x) && Tail(r)
    ensures Solid(x + r) && Tail(" " + x + r)
  {
    assert (" " + x + r)[1..] == x + r;
    if r != "" { assert (x + r)[|x + r| - 1] == r[|r| - 1] == r[1..][|r| - 2]; }
  }

  lemma TrimSpaced(x: string, r: string)
    requires Solid(x) && Tail(r)
    ensures Trim(" " + (x + r)) == x + r && Trim(x + r) == x + r
  {
    SolidWithTail(x, r);
    assert " " + (x + r) == " " + x + r;
    TrimTail(" " + x + r);
    assert Head(" " + x + r) == x + r;
  }

  /** White space by character code. */
  lemma SpacesAre(c: char)
    ensures var n := c as int;
            IsSpace(c) <==> 9 <= n <= 13 || n == 32 || n == 0x85 || n == 0xA0 || n == 0x1680 || 0x2000 <= n <= 0x200A
                            || n == 0x2028 || n == 0x2029 || n == 0x202F || n == 0x205F || n == 0x3000
  {
  }

  ghost predicate Blank(s: string) { forall i :: 0 <= i < |s| ==> IsSpace(s[i]) }

  lemma {:induction false} TrimLeftIsExact(s: string)
    ensures var t := TrimLeft(s); Blank(s[..|s| - |t|]) && (t != "" ==> !IsSpace(t[0]))
  {
    hide IsSpace;
    if s != "" && IsSpace(s[0]) {
      TrimLeftIsExact(s[1..]);
      var t := TrimLeft(s);
      assert s[..|s| - |t|] == [s[0]] + s[1..][..|s| - 1 - |t|];
    }
  }

  lemma {:induction false} TrimRightIsExact(s: string)
    ensures var t := TrimRight(s); Blank(s[|t|..]) && (t != "" ==> !IsSpace(t[|t| - 1]))
  {
    hide IsSpace;
    if s != "" && IsSpace(s[|s| - 1]) {
      TrimRightIsExact(s[..|s| - 1]);
      var t := TrimRight(s);
      assert s[|t|..] == s[..|s| - 1][|t|..] + [s[|s| - 1]];
    }
  }

  /** Trimming takes off white space at both ends, all of it and nothing else. */
  lemma TrimIsExact(s: string) returns (a: string, b: string)
    ensures s == a + Trim(s) + b && Blank(a) && Blank(b) && (Trim(s) == "" || Solid(Trim(s)))
  {
    hide IsSpace, TrimLeft, TrimRight;
    var l := TrimLeft(s);
    var t := TrimRight(l);
    TrimLeftIsExact(s);
    TrimRightIsExact(l);
    a, b := s[..|s| - |l|], l[|t|..];
    hide Blank;
    assert l == t + b && s == a + l;
    assert t != "" ==> t[0] == l[0];
  }

  /** Quoted values */

  /** A raw line break is refused wherever it stands. */
  lemma {:induction false} RawNewlineIsRefused(b: string)
    requires '\n' in b
    ensures Unquote(b) == None
  {
    if b[0] != '\n' && b[0] != '"' {
      assert b == [b[0]] + b[1..];
      if b[0] != '\\' {
        RawNewlineIsRefused(b[1..]);
      } else if |b| >= 2 && b[1] != '\n' {
        assert b[1..] == [b[1]] + b[2..];
        RawNewlineIsRefused(b[2..]);
      }
    }
  }

  /** The letters after a backslash stand for the seven control characters from bell to carriage return; a
      backslash and a quote stand for themselves, and nothing else may follow a backslash. */
  lemma EscapesAre(c: char)
    ensures forall i :: 0 <= i < 7 ==> Escape("abtnvfr"[i]) == Some((7 + i) as char)
    ensures Escape('\\') == Some('\\') && Escape('"') == Some('"')
    ensures Escape(c).Some? ==> c in "abtnvfr\\\""
  {
  }

  /** What identifiers are made of, by character code: letters, the underscore and, but not in front, digits. */
  lemma IdentLettersAre(c: char)
    ensures var n := c as int;
            && (IsAlpha(c) <==> 65 <= n <= 90 || 97 <= n <= 122 || n == 95)
            && (IsIdentChar(c) <==> IsAlpha(c) || 48 <= n <= 57)
  {
  }

  lemma {:induction false} QuoteCloses(pre: string, v: string, rest: string)
    ensures CloseQuote(pre + QuoteBody(v) + "\"" + rest, |pre|) == Some(|pre| + |QuoteBody(v)|)
    decreases |v|
  {
    var s := pre + QuoteBody(v) + "\"" + rest;
    if v == "" {
      assert s[|pre|] == '"';
    } else {
      var q := if v[0] == '\\' then "\\\\" else if v[0] == '"' then "\\\"" else if v[0] == '\n' then "\\n" else [v[0]];
      assert QuoteBody(v) == q + QuoteBody(v[1..]);
      assert s == (pre + q) + QuoteBody(v[1..]) + "\"" + rest;
      assert s[|pre|] == q[0];
      QuoteCloses(pre + q, v[1..], rest);
    }
  }

  lemma {:induction false} UnquoteBody(v: string)
    ensures Unquote(QuoteBody(v)) == Some(v)
  {
    if v != "" {
      UnquoteBody(v[1..]);
      var q := if v[0] == '\\' then "\\\\" else if v[0] == '"' then "\\\"" else if v[0] == '\n' then "\\n" else [v[0]];
      assert QuoteBody(v) == q + QuoteBody(v[1..]);
      assert QuoteBody(v)[|q|..] == QuoteBody(v[1..]) && QuoteBody(v)[0] == q[0];
      assert v == [v[0]] + v[1..];
      if |q| == 2 { assert QuoteBody(v)[1] == q[1]; }
    }
  }

  lemma QuoteIsSolid(v: string)
    ensures Solid(Quote(v))
  {
  }

  lemma QuoteParts(b: string, r: string)
    ensures var t := "\"" + b + "\"" + r;
            t[1..1 + |b|] == b && t[2 + |b|..] == r && HasPrefix(t, "\"")
  {
  }

  lemma TakeQuotedBack(v: string, r: string)
    requires Tail(r)
    ensures TakeQuoted(Quote(v) + r) == Some(Taken(v, r)) && HasPrefix(Quote(v) + r, "\"")
  {
    hide Trim, CloseQuote, Unquote, QuoteBody, Solid, Tail;
    QuoteIsSolid(v);
    TrimSpaced(Quote(v), r);
    QuoteCloses("\"", v, r);
    QuoteParts(QuoteBody(v), r);
    UnquoteBody(v);
  }

  /** Stages */

  lemma Spaced(token: string, body: string, r: string)
    ensures (token + " " + body) + r == token + (" " + (body + r))
    ensures ((token + " " + body) + r)[|token|..] == " " + (body + r)
  {
    assert (token + " " + body) + r == token + (" " + (body + r));
  }

  lemma LineTokenIsRead(op: LineOp, s: string)
    ensures LineOpOf(LineToken(op) + s) == Some(op) && |LineToken(op)| == 2
  {
    var t := LineToken(op) + s;
    assert t[0] == LineToken(op)[0] && t[1] == LineToken(op)[1];
    assert HasPrefix(t, LineToken(op));
  }

  lemma LineIsTaken(f: LineFilter, r: string, pipe: Pipeline)
    requires Tail(r)
    ensures RenderLine(f) + r != ""
    ensures ParseOne(RenderLine(f) + r, pipe) == Some(Parsed(pipe.(lineFilters := pipe.lineFilters + [f]), r))
  {
    hide Quote, Trim, TakeQuoted, LineOpOf, LineToken, Tail, Solid;
    QuoteIsSolid(f.value);
    Spaced(LineToken(f.op), Quote(f.value), r);
    LineTokenIsRead(f.op, " " + (Quote(f.value) + r));
    TrimSpaced(Quote(f.value), r);
    TakeQuotedBack(f.value, r);
  }

  predicate IsIdent(s: string) { s != "" && IsAlpha(s[0]) && forall i :: 0 <= i < |s| ==> IsIdentChar(s[i]) }

  lemma IdentIsTaken(name: string, r: string)
    requires IsIdent(name) && (r == "" || !IsIdentChar(r[0]))
    ensures TakeIdent(name + r) == Taken(name, r)
  {
    var s := name + r;
    var n := IdentEnd(s, 1);
    assert forall k :: 0 <= k < |name| ==> IsIdentChar(s[k]);
    assert r != "" ==> s[|name|] == r[0];
    assert n == |name|;
    assert s[..n] == name && s[n..] == r;
  }

  lemma BarIsNoOperator(s: string)
    requires s == "" || s[0] == '|'
    ensures TakeLabelFilterOp(s) == None
  {
    NoOperatorIn(s, LABEL_OPS);
  }

  lemma {:induction false} NoOperatorIn(s: string, ops: seq<LabelOp>)
    requires s == "" || s[0] == '|'
    ensures TakeOpFrom(s, ops) == None
  {
    if ops != [] { NoOperatorIn(s, ops[1..]); }
  }

  lemma StageIsIdent(p: ParserStage)
    ensures IsIdent(StageName(p)) && StageNamed(StageName(p)) == Some(p) && Solid(StageName(p))
  {
    assert "json" != "logfmt";
  }

  lemma BarAndSpace(s: string)
    ensures var t := "|" + (" " + s); LineOpOf(t) == None && HasPrefix(t, "|") && t[1..] == " " + s
  {
    var t := "|" + (" " + s);
    assert t[0] == '|' && t[1] == ' ';
  }

  lemma NameIsTaken(name: string, p: ParserStage, r: string, pipe: Pipeline)
    requires IsIdent(name) && StageNamed(name) == Some(p) && BarTail(r)
    ensures ParsePipeStage(name + r, pipe) == Some(Parsed(pipe.(parsers := pipe.parsers + [p]), Head(r)))
  {
    hide Trim, TakeIdent, TakeLabelFilterOp, StageNamed, Solid, IsIdent, Tail, Head, IsIdentChar, BarTail;
    BarTailIsTail(r);
    TailStarts(r);
    IdentIsTaken(name, r);
    TrimTail(r);
    BarIsNoOperator(Head(r));
    NamesAreNotEmpty(name);
  }

  /** A stage of any other name is refused. */
  lemma UnknownStageIsRefused(name: string, r: string, pipe: Pipeline)
    requires IsIdent(name) && name != "logfmt" && name != "json" && BarTail(r)
    ensures ParsePipeStage(name + r, pipe) == None
  {
    hide Trim, TakeIdent, TakeLabelFilterOp, Solid, IsIdent, Tail, Head, IsIdentChar, BarTail;
    BarTailIsTail(r);
    TailStarts(r);
    IdentIsTaken(name, r);
    TrimTail(r);
    BarIsNoOperator(Head(r));
  }

  /** Text that starts neither with a bar nor with one of the two negations is refused. */
  lemma UnexpectedIsRefused(s: string, pipe: Pipeline)
    requires s != "" && s[0] != '|' && !("!=" <= s) && !("!~" <= s)
    ensures ParseOne(s, pipe) == None
  {
    hide TakeQuoted, Trim, ParsePipeStage;
  }

  lemma NamesAreNotEmpty(s: string)
    requires IsIdent(s)
    ensures s != ""
  {
  }

  lemma StageHead(p: ParserStage, r: string)
    ensures RenderParser(p) + r == "|" + (" " + (StageName(p) + r))
  {
    hide StageName;
  }

  lemma TailStarts(r: string)
    requires BarTail(r)
    ensures r == "" || !IsIdentChar(r[0])
    ensures Head(r) == "" || Head(r)[0] == '|'
  {
  }

  /** What may follow an operator: nothing that makes a longer one of it. */
  predicate Ends(op: LabelOp, t: string) {
    t == "" || |LabelToken(op)| == 2 || (t[0] != '=' && !(op.Eq? && t[0] == '~'))
  }

  lemma OperatorIsTaken(op: LabelOp, t: string)
    requires Ends(op, t)
    ensures TakeLabelFilterOp(LabelToken(op) + t) == Some(TakenOp(op, t))
  {
    var s := LabelToken(op) + t;
    assert s[..|LabelToken(op)|] == LabelToken(op) && s[|LabelToken(op)|..] == t;
    OperatorsAreLongestFirst(op);
    FirstMatch(s, op, LABEL_OPS);
  }

  ghost predicate LongestFirst(ops: seq<LabelOp>) {
    forall i, j :: 0 <= i < j < |ops| ==> |LabelToken(ops[i])| >= |LabelToken(ops[j])|
  }

  lemma OperatorsAreLongestFirst(op: LabelOp)
    ensures LongestFirst(LABEL_OPS) && op in LABEL_OPS
  {
    assert LABEL_OPS[0] == Re && LABEL_OPS[1] == NotRe && LABEL_OPS[2] == Gte && LABEL_OPS[3] == Lte && LABEL_OPS[4] == NumEq;
    assert LABEL_OPS[5] == Neq && LABEL_OPS[6] == Eq && LABEL_OPS[7] == Gt && LABEL_OPS[8] == Lt;
  }

  /** No operator before `op` in such a list is a prefix of its rendering. */
  lemma {:induction false} FirstMatch(s: string, op: LabelOp, ops: seq<LabelOp>)
    requires op in ops && LongestFirst(ops)
    requires LabelToken(op) <= s && Ends(op, s[|LabelToken(op)|..])
    ensures TakeOpFrom(s, ops) == Some(TakenOp(op, s[|LabelToken(op)|..]))
  {
    hide LabelToken, Ends;
    if ops[0] != op {
      var j :| 0 < j < |ops| && ops[j] == op;
      TokensDiffer(s, op, ops[0]);
      assert ops[1..][j - 1] == op;
      FirstMatch(s, op, ops[1..]);
    }
  }

  lemma TokensDiffer(s: string, op: LabelOp, other: LabelOp)
    requires op != other && LabelToken(op) <= s && Ends(op, s[|LabelToken(op)|..])
    requires |LabelToken(other)| >= |LabelToken(op)|
    ensures !HasPrefix(s, LabelToken(other))
  {
    var t, u, rest := LabelToken(other), LabelToken(op), s[|LabelToken(op)|..];
    assert s[0] == u[0] && (|u| == 2 ==> s[1] == u[1]) && (|u| == 1 && rest != "" ==> s[1] == rest[0]);
    assert |t| > |s| || t[0] != s[0] || (|t| == 2 && t[1] != s[1]);
  }

  lemma LabelHead(f: LabelFilter, r: string)
    ensures var q := Quote(f.value) + r;
            RenderLabel(f) + r == "|" + (" " + (f.name + (" " + (LabelToken(f.op) + " " + q))))
  {
    hide Quote, LabelToken;
    var q := Quote(f.value) + r;
    assert RenderLabel(f) + r == "| " + f.name + " " + LabelToken(f.op) + " " + q;
  }

  lemma IdentIsSolid(name: string)
    requires IsIdent(name)
    ensures Solid(name)
  {
    assert IsIdentChar(name[|name| - 1]);
  }

  lemma TokenIsSolid(op: LabelOp, q: string)
    requires Solid(q)
    ensures Solid(LabelToken(op) + " " + q)
  {
  }

  lemma LabelIsTaken(f: LabelFilter, r: string, pipe: Pipeline)
    requires Tail(r) && IsIdent(f.name)
    ensures RenderLabel(f) + r != ""
    ensures ParseOne(RenderLabel(f) + r, pipe) == Some(Parsed(pipe.(labelFilters := pipe.labelFilters + [f]), r))
  {
    hide Trim, TakeIdent, TakeLabelFilterOp, LineOpOf, Quote, LabelToken, TakeQuoted, Solid, Tail, IsIdent;
    var q := Quote(f.value) + r;
    var t := LabelToken(f.op) + " " + q;
    LabelHead(f, r);
    BarAndSpace(f.name + (" " + t));
    QuoteIsSolid(f.value);
    SolidWithTail(Quote(f.value), r);
    TokenIsSolid(f.op, q);
    IdentIsSolid(f.name);
    EmptyTail(t);
    TrimSpaced(f.name, " " + t);
    IdentIsTaken(f.name, " " + t);
    TrimTail(" " + t);
    assert LabelToken(f.op) + " " + q == LabelToken(f.op) + (" " + q);
    SpaceEnds(f.op, q);
    OperatorIsTaken(f.op, " " + q);
    TrimSpaced(Quote(f.value), r);
    TakeQuotedBack(f.value, r);
  }

  lemma SpaceEnds(op: LabelOp, q: string)
    ensures Ends(op, " " + q)
  {
  }

  /** Unquoted values */

  /** A value that may stand without quotes. */
  predicate Bare(v: string) { Solid(v) && v[0] != '"' && ' ' !in v && '\t' !in v && '|' !in v }

  /** What may follow such a value. */
  predicate AfterBare(r: string) { r == "" || ((r[0] == ' ' || r[0] == '\t' || r[0] == '|') && !IsSpace(r[|r| - 1])) }

  lemma BareIsTaken(v: string, r: string)
    requires Bare(v) && AfterBare(r)
    ensures v != "" && TakeBareToken(v + r) == Taken(v, r) && Solid(v + r) && !HasPrefix(v + r, "\"")
  {
    var s := v + r;
    var n := BareEnd(s, 0);
    assert s[0] == v[0];
    assert forall k :: 0 <= k < |v| ==> s[k] == v[k] && v[k] in v;
    assert r != "" ==> s[|v|] == r[0];
    assert n == |v|;
    assert s[..n] == v && s[n..] == r;
  }

  lemma GapIsTrimmed(gap: string, t: string)
    requires Solid(t) && (gap == "" || gap == " ")
    ensures Trim(gap + t) == t
  {
    if gap == "" {
      assert gap + t == t;
      TrimSolid(t);
    } else {
      EmptyTail(t);
      TrimTail(" " + t);
    }
  }

  lemma OperatorIsSolid(op: LabelOp, u: string)
    requires u != "" && !IsSpace(u[|u| - 1])
    ensures Solid(LabelToken(op) + u) && !IsIdentChar((LabelToken(op) + u)[0])
  {
  }

  /** A label filter with an unquoted value, spaced or not: any operator but the two for regular expressions
      takes the value up to the next blank, tab or bar, and those two refuse it. */
  lemma BareLabelIsRead(name: string, op: LabelOp, v: string, gap: string, r: string, pipe: Pipeline)
    requires IsIdent(name) && Bare(v) && AfterBare(r) && (gap == "" || gap == " ") && Ends(op, gap + (v + r))
    ensures ParsePipeStage(name + (gap + (LabelToken(op) + (gap + (v + r)))), pipe) ==
              if op.Re? || op.NotRe? then None
              else Some(Parsed(pipe.(labelFilters := pipe.labelFilters + [LabelFilter(name, op, v)]), r))
  {
    hide Trim, TakeIdent, TakeLabelFilterOp, LabelToken, Ends, Bare, AfterBare, Solid, IsIdent, IsIdentChar, TakeBareToken,
      TakeQuoted, HasPrefix, StageNamed;
    var u := gap + (v + r);
    var t := LabelToken(op) + u;
    BareIsTaken(v, r);
    GapIsSolid(gap, op, v + r);
    NamesAreNotEmpty(name);
    IdentIsTaken(name, gap + t);
    GapIsTrimmed(gap, t);
    OperatorIsTaken(op, u);
    GapIsTrimmed(gap, v + r);
  }

  lemma GapIsSolid(gap: string, op: LabelOp, x: string)
    requires Solid(x) && (gap == "" || gap == " ")
    ensures var t := LabelToken(op) + (gap + x); Solid(t) && gap + t != "" && !IsIdentChar((gap + t)[0])
  {
    var u := gap + x;
    assert u[|u| - 1] == x[|x| - 1];
    OperatorIsSolid(op, u);
    hide LabelToken;
  }

  lemma EmptyTail(t: string)
    requires Solid(t)
    ensures Tail(" " + t) && Head(" " + t) == t
  {
    assert (" " + t)[1..] == t;
  }

  /** Whole pipelines */

  ghost predicate ValidLabels(fs: seq<LabelFilter>) { forall i :: 0 <= i < |fs| ==> IsIdent(fs[i].name) }

  ghost predicate ValidStages(ss: seq<Stage>) { forall i :: 0 <= i < |ss| && ss[i].OfLabel? ==> IsIdent(ss[i].filter.name) }

  /** A line filter that starts with '!'. */
  predicate Negated(s: Stage) { s.OfLine? && (s.line.op.NotRegex? || s.line.op.NotContains?) }

  /** No negated line filter directly follows a parser stage. */
  ghost predicate Unambiguous(ss: seq<Stage>) {
    forall i {:trigger ss[i]} :: 0 < i < |ss| && ss[i - 1].OfParser? ==> !Negated(ss[i])
  }

  lemma RenderedLine(f: LineFilter)
    ensures Solid(RenderLine(f)) && RenderLine(f)[0] == LineToken(f.op)[0]
  {
  }

  lemma RenderedParser(p: ParserStage)
    ensures Solid(RenderParser(p)) && RenderParser(p)[0] == '|'
  {
    var s, n := RenderParser(p), StageName(p);
    assert s[|s| - 1] == n[|n| - 1];
  }

  lemma RenderedLabel(f: LabelFilter)
    ensures Solid(RenderLabel(f)) && RenderLabel(f)[0] == '|'
  {
    var s, q := RenderLabel(f), Quote(f.value);
    QuoteIsSolid(f.value);
    hide Quote, LabelToken;
    assert s[|s| - 1] == q[|q| - 1];
  }

  lemma RenderedStage(s: Stage)
    ensures Solid(RenderStage(s)) && (!Negated(s) ==> RenderStage(s)[0] == '|')
  {
    match s
    case OfLine(f) => RenderedLine(f); hide RenderLine;
    case OfParser(p) => RenderedParser(p); hide RenderParser;
    case OfLabel(f) => RenderedLabel(f); hide RenderLabel;
  }

  /** A tail whose first stage, if any, starts with a bar. */
  predicate BarTail(r: string) { Tail(r) && (r == "" || r[1] == '|') }

  lemma BarTailIsTail(r: string)
    requires BarTail(r)
    ensures Tail(r)
  {
  }

  lemma TailAfter(x: string, r: string)
    requires Solid(x) && Tail(r)
    ensures Tail(" " + (x + r)) && (x[0] == '|' ==> BarTail(" " + (x + r)))
  {
    SolidWithTail(x, r);
    assert " " + (x + r) == " " + x + r;
    assert (" " + (x + r))[1] == x[0];
  }

  lemma StagesUnfold(ss: seq<Stage>)
    requires ss != []
    ensures RenderStages(ss) == " " + (RenderStage(ss[0]) + RenderStages(ss[1..]))
  {
    hide RenderStage;
  }

  lemma NoStages()
    ensures RenderStages([]) == "" && BarTail("") && Head("") == ""
    ensures forall pipe :: ParseFrom("", pipe) == Some(pipe)
  {
  }

  lemma {:induction false} StagesAreTail(ss: seq<Stage>)
    ensures Tail(RenderStages(ss)) && (ss == [] || !Negated(ss[0]) ==> BarTail(RenderStages(ss)))
  {
    hide *;
    if ss == [] {
      NoStages();
      BarTailIsTail("");
    } else {
      StagesAreTail(ss[1..]);
      RenderedStage(ss[0]);
      StagesUnfold(ss);
      TailAfter(RenderStage(ss[0]), RenderStages(ss[1..]));
    }
  }

  lemma ParseStep(s: string, pipe: Pipeline)
    requires s != "" && ParseOne(s, pipe).Some?
    ensures var r := ParseOne(s, pipe).value; ParseFrom(s, pipe) == ParseFrom(Trim(r.rest), r.pipe)
  {
  }

  lemma HeadAfterSpace(s: string)
    ensures Head(" " + s) == s
  {
  }

  /** One stage read off the front. */
  lemma OneStage(x: string, r: string, pipe: Pipeline, next: Pipeline)
    requires Tail(r) && x + r != ""
    requires ParseOne(x + r, pipe) == Some(Parsed(next, r)) || ParseOne(x + r, pipe) == Some(Parsed(next, Head(r)))
    ensures ParseFrom(Head(" " + (x + r)), pipe) == ParseFrom(Head(r), next)
  {
    hide *;
    TrimTail(r);
    HeadAfterSpace(x + r);
    ParseStep(x + r, pipe);
  }

  lemma StageIsTaken(s: Stage, r: string, pipe: Pipeline)
    requires Tail(r) && (s.OfParser? ==> BarTail(r)) && (s.OfLabel? ==> IsIdent(s.filter.name))
    ensures RenderStage(s) + r != ""
    ensures ParseOne(RenderStage(s) + r, pipe) == Some(Parsed(Add(pipe, s), r)) || ParseOne(RenderStage(s) + r, pipe) == Some(Parsed(Add(pipe, s), Head(r)))
  {
    hide RenderLine, RenderParser, RenderLabel, Tail, Head, Trim, StageName, LineOpOf, Solid, IsIdent, BarTail, ParsePipeStage, TakeQuoted;
    match s
    case OfLine(f) =>
      hide ParseOne;
      LineIsTaken(f, r, pipe);
    case OfParser(p) =>
      StageIsIdent(p);
      StageHead(p, r);
      BarAndSpace(StageName(p) + r);
      TrimSpaced(StageName(p), r);
      NameIsTaken(StageName(p), p, r, pipe);
    case OfLabel(f) =>
      hide ParseOne;
      LabelIsTaken(f, r, pipe);
  }

  lemma ValidSplit(ss: seq<Stage>)
    requires ValidStages(ss) && Unambiguous(ss) && ss != []
    ensures (ss[0].OfLabel? ==> IsIdent(ss[0].filter.name)) && ValidStages(ss[1..]) && Unambiguous(ss[1..])
    ensures ss[0].OfParser? && |ss| > 1 ==> !Negated(ss[1])
  {
    var rest := ss[1..];
    assert forall i :: 0 <= i < |rest| ==> rest[i] == ss[i + 1];
    if |ss| > 1 { assert ss[1 - 1] == ss[0]; }
  }

  lemma AddAllUnfold(pipe: Pipeline, ss: seq<Stage>)
    requires ss != []
    ensures AddAll(pipe, ss) == AddAll(Add(pipe, ss[0]), ss[1..])
  {
  }

  lemma AddNothing(pipe: Pipeline)
    ensures AddAll(pipe, []) == pipe
  {
  }

  lemma {:induction false} StagesReadBack(ss: seq<Stage>, pipe: Pipeline)
    requires ValidStages(ss) && Unambiguous(ss)
    ensures ParseFrom(Head(RenderStages(ss)), pipe) == Some(AddAll(pipe, ss))
    decreases |ss|
  {
    hide *;
    if ss == [] {
      NoStages();
      AddNothing(pipe);
    } else {
      var r := RenderStages(ss[1..]);
      ValidSplit(ss);
      StagesAreTail(ss[1..]);
      StageIsTaken(ss[0], r, pipe);
      StagesUnfold(ss);
      OneStage(RenderStage(ss[0]), r, pipe, Add(pipe, ss[0]));
      StagesReadBack(ss[1..], Add(pipe, ss[0]));
      AddAllUnfold(pipe, ss);
    }
  }

  /** Text that breaks off */

  /** Rendered stages followed by something else. */
  function Broken(ss: seq<Stage>, x: string): string { RenderStages(ss) + (" " + x) }

  lemma BrokenUnfolds(ss: seq<Stage>, x: string)
    ensures ss == [] ==> Broken(ss, x) == " " + x
    ensures ss != [] ==> Broken(ss, x) == " " + (RenderStage(ss[0]) + Broken(ss[1..], x))
  {
    hide RenderStage;
  }

  lemma {:induction false} BrokenIsTail(ss: seq<Stage>, x: string)
    requires Solid(x) && x[0] == '|'
    ensures Tail(Broken(ss, x)) && (ss == [] || !Negated(ss[0]) ==> BarTail(Broken(ss, x)))
  {
    BrokenUnfolds(ss, x);
    if ss == [] {
      EmptyTail(x);
      assert (" " + x)[1] == x[0];
      hide Broken;
    } else {
      hide *;
      BrokenIsTail(ss[1..], x);
      RenderedStage(ss[0]);
      TailAfter(RenderStage(ss[0]), Broken(ss[1..], x));
    }
  }

  lemma ReadStep(s: string, pipe: Pipeline)
    requires s != ""
    ensures var r := ParseOne(s, pipe); ReadFrom(s, pipe) == if r.None? then pipe else ReadFrom(Trim(r.value.rest), r.value.pipe)
    ensures var r := ParseOne(s, pipe); ParseFrom(s, pipe) == if r.None? then None else ParseFrom(Trim(r.value.rest), r.value.pipe)
  {
  }

  /** Where the text breaks off, the parse fails, and what comes back is exactly the stages before. */
  lemma {:induction false} StagesBeforeErrorComeBack(ss: seq<Stage>, x: string, pipe: Pipeline)
    requires ValidStages(ss) && Unambiguous(ss) && Solid(x) && x[0] == '|' && ParseOne(x, AddAll(pipe, ss)).None?
    ensures ReadFrom(Head(Broken(ss, x)), pipe) == AddAll(pipe, ss) && ParseFrom(Head(Broken(ss, x)), pipe) == None
    decreases |ss|
  {
    assert x != "";
    hide *;
    BrokenUnfolds(ss, x);
    if ss == [] {
      AddNothing(pipe);
      HeadAfterSpace(x);
      ReadStep(x, pipe);
    } else {
      var r, y := Broken(ss[1..], x), RenderStage(ss[0]);
      ValidSplit(ss);
      BrokenIsTail(ss[1..], x);
      StageIsTaken(ss[0], r, pipe);
      TrimTail(r);
      HeadAfterSpace(y + r);
      ReadStep(y + r, pipe);
      AddAllUnfold(pipe, ss);
      StagesBeforeErrorComeBack(ss[1..], x, Add(pipe, ss[0]));
    }
  }

  /** How a rendered list of stages is in fact read: a negated line filter right after a parser stage makes
      a label filter on a label of the parser's name. */
  function Fused(p: ParserStage, f: LineFilter): Stage {
    OfLabel(LabelFilter(StageName(p), if f.op.NotRegex? then NotRe else Neq, f.value))
  }

  predicate Fuses(ss: seq<Stage>) { |ss| > 1 && ss[0].OfParser? && Negated(ss[1]) }

  function Fuse(ss: seq<Stage>): (r: seq<Stage>)
    ensures r == [] <==> ss == []
    ensures ss != [] && !Fuses(ss) ==> r[0] == ss[0]
    decreases |ss|
  {
    if ss == [] then [] else if Fuses(ss) then [Fused(ss[0].parser, ss[1].line)] + Fuse(ss[2..]) else [ss[0]] + Fuse(ss[1..])
  }

  lemma FusedText(p: ParserStage, f: LineFilter)
    requires Negated(OfLine(f))
    ensures RenderStage(Fused(p, f)) == RenderParser(p) + (" " + RenderLine(f))
  {
    hide Quote, StageName;
  }

  lemma Reassociates(x: string, y: string, rest: string)
    ensures " " + ((x + (" " + y)) + rest) == " " + (x + (" " + (y + rest)))
  {
  }

  lemma StagesCons(s: Stage, rest: seq<Stage>)
    ensures RenderStages([s] + rest) == " " + (RenderStage(s) + RenderStages(rest))
  {
    assert ([s] + rest)[1..] == rest;
    StagesUnfold([s] + rest);
  }

  /** The two readings have one and the same text. */
  lemma {:induction false} FuseKeepsText(ss: seq<Stage>)
    ensures RenderStages(Fuse(ss)) == RenderStages(ss)
    decreases |ss|
  {
    hide RenderStage, RenderStages, RenderLine, RenderParser;
    if ss != [] {
      StagesUnfold(ss);
      if Fuses(ss) {
        var p, f := ss[0].parser, ss[1].line;
        FuseKeepsText(ss[2..]);
        assert ss[1..][0] == ss[1] && ss[1..][1..] == ss[2..];
        StagesUnfold(ss[1..]);
        StagesCons(Fused(p, f), Fuse(ss[2..]));
        FusedText(p, f);
        ParserText(p);
        LineText(f);
        Reassociates(RenderParser(p), RenderLine(f), RenderStages(ss[2..]));
      } else {
        FuseKeepsText(ss[1..]);
        StagesCons(ss[0], Fuse(ss[1..]));
      }
    }
  }

  lemma ParserText(p: ParserStage)
    ensures RenderStage(OfParser(p)) == RenderParser(p)
  {
  }

  lemma LineText(f: LineFilter)
    ensures RenderStage(OfLine(f)) == RenderLine(f)
  {
  }

  lemma {:induction false} FuseIsUnambiguous(ss: seq<Stage>)
    requires ValidStages(ss)
    ensures ValidStages(Fuse(ss)) && Unambiguous(Fuse(ss))
    decreases |ss|
  {
    hide IsIdent;
    if ss != [] {
      var n := if Fuses(ss) then 2 else 1;
      var rest, first := Fuse(ss[n..]), Fuse(ss)[0];
      assert forall i :: 0 <= i < |ss[n..]| ==> ss[n..][i] == ss[i + n];
      FuseIsUnambiguous(ss[n..]);
      if Fuses(ss) { StageIsIdent(ss[0].parser); }
      var all := [first] + rest;
      forall i {:trigger all[i]} | 0 < i < |all| && all[i - 1].OfParser? ensures !Negated(all[i]) {
        if i == 1 { NotNegatedAfterParser(ss); } else { assert all[i - 1] == rest[i - 2] && all[i] == rest[i - 1]; }
      }
      forall i | 0 <= i < |all| && all[i].OfLabel? ensures IsIdent(all[i].filter.name) {
        if i > 0 { assert all[i] == rest[i - 1]; }
      }
    }
  }

  lemma NotNegatedAfterParser(ss: seq<Stage>)
    requires |ss| > 1 && ss[0].OfParser? && !Fuses(ss)
    ensures Fuse(ss[1..]) != [] && !Negated(Fuse(ss[1..])[0])
  {
    assert ss[1..][0] == ss[1];
  }

  function Parsers(ss: seq<Stage>): nat { if ss == [] then 0 else (if ss[0].OfParser? then 1 else 0) + Parsers(ss[1..]) }

  lemma {:induction false} CollectedParsers(pipe: Pipeline, ss: seq<Stage>)
    ensures |AddAll(pipe, ss).parsers| == |pipe.parsers| + Parsers(ss)
    decreases |ss|
  {
    if ss != [] { CollectedParsers(Add(pipe, ss[0]), ss[1..]); }
  }

  lemma ParsersCons(s: Stage, rest: seq<Stage>)
    ensures Parsers([s] + rest) == (if s.OfParser? then 1 else 0) + Parsers(rest)
  {
    assert ([s] + rest)[1..] == rest;
  }

  /** Fusing loses a parser stage unless there is nothing to fuse. */
  lemma {:induction false} FuseLosesParsers(ss: seq<Stage>)
    ensures Parsers(Fuse(ss)) <= Parsers(ss)
    ensures Unambiguous(ss) ==> Fuse(ss) == ss
    ensures !Unambiguous(ss) ==> Parsers(Fuse(ss)) < Parsers(ss)
    decreases |ss|
  {
    if ss != [] {
      var rest := ss[1..];
      assert forall i :: 0 <= i < |rest| ==> rest[i] == ss[i + 1];
      if Fuses(ss) {
        FuseLosesParsers(ss[2..]);
        assert rest[1..] == ss[2..] && rest[0] == ss[1];
        assert Parsers(rest) == Parsers(ss[2..]);
        ParsersCons(Fused(ss[0].parser, ss[1].line), Fuse(ss[2..]));
        assert ss[1 - 1].OfParser? && Negated(ss[1]);
      } else {
        FuseLosesParsers(rest);
        ParsersCons(ss[0], Fuse(rest));
        AmbiguityInRest(ss);
        assert ss == [ss[0]] + rest;
      }
    }
  }

  lemma AmbiguityInRest(ss: seq<Stage>)
    requires ss != [] && !Fuses(ss)
    ensures Unambiguous(ss) <==> Unambiguous(ss[1..])
  {
    var rest := ss[1..];
    assert forall i :: 0 <= i < |rest| ==> rest[i] == ss[i + 1];
    if Unambiguous(rest) {
      forall i {:trigger ss[i]} | 0 < i < |ss| && ss[i - 1].OfParser? ensures !Negated(ss[i]) {
        if i > 1 { assert rest[i - 1] == ss[i] && rest[i - 2] == ss[i - 1]; }
      }
    }
    if Unambiguous(ss) {
      forall i {:trigger rest[i]} | 0 < i < |rest| && rest[i - 1].OfParser? ensures !Negated(rest[i]) {
        assert ss[i + 1] == rest[i] && ss[i + 1 - 1] == rest[i - 1];
      }
    }
  }

  /** Main result: stages in any order read back as what they stand for if and only if no negated line
      filter directly follows a parser stage; otherwise each such pair is read as a label filter, and
      everything else as it was. */
  lemma StagesRoundTrip(ss: seq<Stage>)
    requires ValidStages(ss)
    ensures ParsePipeline(RenderStages(ss)) == Some(Collect(Fuse(ss)))
    ensures ParsePipeline(RenderStages(ss)) == Some(Collect(ss)) <==> Unambiguous(ss)
  {
    hide ParseFrom, RenderStages, Trim, ValidStages, Unambiguous, Fuse, AddAll;
    var gs := Fuse(ss);
    FuseKeepsText(ss);
    FuseIsUnambiguous(ss);
    StagesAreTail(gs);
    TrimTail(RenderStages(gs));
    StagesReadBack(gs, EMPTY);
    FuseLosesParsers(ss);
    CollectedParsers(EMPTY, ss);
    CollectedParsers(EMPTY, gs);
  }

  /** Canonical order */

  lemma {:induction false} AddAllConcat(pipe: Pipeline, a: seq<Stage>, b: seq<Stage>)
    ensures AddAll(pipe, a + b) == AddAll(AddAll(pipe, a), b)
    decreases |a|
  {
    if a == [] {
      assert a + b == b;
    } else {
      assert (a + b)[0] == a[0] && (a + b)[1..] == a[1..] + b;
      AddAllConcat(Add(pipe, a[0]), a[1..], b);
    }
  }

  lemma {:induction false} AddLines(pipe: Pipeline, fs: seq<LineFilter>)
    ensures AddAll(pipe, Map((f: LineFilter) => OfLine(f), fs)) == pipe.(lineFilters := pipe.lineFilters + fs)
    decreases |fs|
  {
    if fs == [] {
      assert pipe.lineFilters + fs == pipe.lineFilters;
    } else {
      MapHead((f: LineFilter) => OfLine(f), fs);
      AddLines(Add(pipe, OfLine(fs[0])), fs[1..]);
      Shift(pipe.lineFilters, fs);
    }
  }

  lemma {:induction false} AddParsers(pipe: Pipeline, ps: seq<ParserStage>)
    ensures AddAll(pipe, Map((q: ParserStage) => OfParser(q), ps)) == pipe.(parsers := pipe.parsers + ps)
    decreases |ps|
  {
    if ps == [] {
      assert pipe.parsers + ps == pipe.parsers;
    } else {
      MapHead((q: ParserStage) => OfParser(q), ps);
      AddParsers(Add(pipe, OfParser(ps[0])), ps[1..]);
      Shift(pipe.parsers, ps);
    }
  }

  lemma {:induction false} AddLabels(pipe: Pipeline, fs: seq<LabelFilter>)
    ensures AddAll(pipe, Map((f: LabelFilter) => OfLabel(f), fs)) == pipe.(labelFilters := pipe.labelFilters + fs)
    decreases |fs|
  {
    if fs == [] {
      assert pipe.labelFilters + fs == pipe.labelFilters;
    } else {
      MapHead((f: LabelFilter) => OfLabel(f), fs);
      AddLabels(Add(pipe, OfLabel(fs[0])), fs[1..]);
      Shift(pipe.labelFilters, fs);
    }
  }

  lemma MapHead<T, U>(f: T -> U, s: seq<T>)
    requires s != []
    ensures Map(f, s) != [] && Map(f, s)[0] == f(s[0]) && Map(f, s)[1..] == Map(f, s[1..])
  {
  }

  lemma Shift<T>(done: seq<T>, todo: seq<T>)
    requires todo != []
    ensures (done + [todo[0]]) + todo[1..] == done + todo
  {
  }

  lemma CollectStages(p: Pipeline)
    ensures Collect(StagesOf(p)) == p
  {
    hide Map, AddAll;
    var a, b := Map((f: LineFilter) => OfLine(f), p.lineFilters), Map((q: ParserStage) => OfParser(q), p.parsers);
    var c := Map((f: LabelFilter) => OfLabel(f), p.labelFilters);
    AddAllConcat(EMPTY, a + b, c);
    AddAllConcat(EMPTY, a, b);
    AddLines(EMPTY, p.lineFilters);
    AddParsers(EMPTY.(lineFilters := [] + p.lineFilters), p.parsers);
    AddLabels(EMPTY.(lineFilters := [] + p.lineFilters, parsers := [] + p.parsers), p.labelFilters);
    assert [] + p.lineFilters == p.lineFilters && [] + p.parsers == p.parsers && [] + p.labelFilters == p.labelFilters;
  }

  lemma CanonicalIsUnambiguous(p: Pipeline)
    requires ValidLabels(p.labelFilters)
    ensures ValidStages(StagesOf(p)) && Unambiguous(StagesOf(p))
  {
    hide IsIdent;
    var ss, n, m := StagesOf(p), |p.lineFilters|, |p.lineFilters| + |p.parsers|;
    assert forall i :: 0 <= i < |ss| ==> (ss[i].OfLine? <==> i < n) && (ss[i].OfLabel? <==> m <= i);
    assert forall i :: m <= i < |ss| ==> ss[i] == OfLabel(p.labelFilters[i - m]);
  }

  /** In canonical order every pipeline whose labels are identifiers reads back exactly as it was, a label
      named json included. */
  lemma PipelineRoundTrip(p: Pipeline)
    requires ValidLabels(p.labelFilters)
    ensures ParsePipeline(Render(p)) == Some(p)
  {
    hide StagesOf, Collect, ParsePipeline, RenderStages, Unambiguous;
    CanonicalIsUnambiguous(p);
    CollectStages(p);
    StagesRoundTrip(StagesOf(p));
  }

  /** Whatever parses */

  lemma IdentifiersAreTaken(s: string)
    ensures var i := TakeIdent(s).value; i == "" || IsIdent(i)
  {
  }

  lemma WithLabelKeeps(pipe: Pipeline, name: string, op: LabelOp, value: string)
    requires ValidLabels(pipe.labelFilters) && IsIdent(name)
    ensures ValidLabels(WithLabel(pipe, name, op, value).labelFilters)
  {
  }

  lemma StageKeepsLabels(s: string, pipe: Pipeline)
    requires ValidLabels(pipe.labelFilters)
    ensures var r := ParsePipeStage(s, pipe); r.Some? ==> ValidLabels(r.value.pipe.labelFilters)
  {
    hide TakeIdent, Trim, TakeQuoted, TakeLabelFilterOp, TakeBareToken, IsIdent, ValidLabels, WithLabel, HasPrefix, StageNamed;
    var name := TakeIdent(s).value;
    IdentifiersAreTaken(s);
    if name != "" {
      forall op: LabelOp, v: string ensures ValidLabels(WithLabel(pipe, name, op, v).labelFilters) {
        WithLabelKeeps(pipe, name, op, v);
      }
    }
  }

  lemma ParsingKeepsLabels(s: string, pipe: Pipeline)
    requires s != "" && ValidLabels(pipe.labelFilters)
    ensures var r := ParseOne(s, pipe); r.Some? ==> ValidLabels(r.value.pipe.labelFilters)
  {
    hide ParsePipeStage, Trim, TakeQuoted, LineOpOf, HasPrefix, ValidLabels;
    StageKeepsLabels(Trim(s[1..]), pipe);
  }

  lemma {:induction false} ParsedLabelsAreValid(s: string, pipe: Pipeline)
    requires ValidLabels(pipe.labelFilters)
    ensures ParseFrom(s, pipe).Some? ==> ValidLabels(ParseFrom(s, pipe).value.labelFilters)
    decreases |s|
  {
    hide ParseOne, Trim, ValidLabels;
    if s != "" {
      ParsingKeepsLabels(s, pipe);
      var r := ParseOne(s, pipe);
      if r.Some? { ParsedLabelsAreValid(Trim(r.value.rest), r.value.pipe); }
    }
  }

  /** Every accepted text means the same as its canonical form. */
  lemma CanonicalFormMeansTheSame(s: string)
    requires ParsePipeline(s).Some?
    ensures ParsePipeline(Render(ParsePipeline(s).value)) == ParsePipeline(s)
  {
    ParsedLabelsAreValid(Trim(s), EMPTY);
    hide ParseFrom, Render;
    PipelineRoundTrip(ParsePipeline(s).value);
  }

  /** The ambiguous pair by itself: a parser stage and a negated line filter become one label filter. */
  lemma NegatedFilterAfterParserIsMisread(p: ParserStage, f: LineFilter)
    requires Negated(OfLine(f))
    ensures ParsePipeline(RenderStages([OfParser(p), OfLine(f)]))
         == Some(Pipeline([], [], [LabelFilter(StageName(p), if f.op.NotRegex? then NotRe else Neq, f.value)]))
  {
    hide *;
    var ss := [OfParser(p), OfLine(f)];
    PairIsValid(p, f);
    StagesRoundTrip(ss);
    FusePair(p, f);
  }

  lemma PairIsValid(p: ParserStage, f: LineFilter)
    ensures ValidStages([OfParser(p), OfLine(f)])
  {
  }

  lemma FusePair(p: ParserStage, f: LineFilter)
    requires Negated(OfLine(f))
    ensures Collect(Fuse([OfParser(p), OfLine(f)]))
         == Pipeline([], [], [LabelFilter(StageName(p), if f.op.NotRegex? then NotRe else Neq, f.value)])
  {
    hide StageName;
    var ss, l := [OfParser(p), OfLine(f)], Fused(p, f);
    assert ss[2..] == [] && Fuse(ss) == [l] + [];
    assert [l][1..] == [] && [l] + [] == [l];
    assert Add(EMPTY, l).labelFilters == [l.filter];
    assert AddAll(Add(EMPTY, l), []) == Add(EMPTY, l);
    assert Collect([l]) == Add(EMPTY, l);
  }

  /** Splitting */

  lemma {:induction false} JoinOfSplitFrom(s: string, sep: char, cur: string, inQuote: bool)
    ensures Join(SplitFrom(s, sep, cur, inQuote), sep) == cur + s
    decreases |s|
  {
    if s == "" {
    } else if s[0] == '\\' && inQuote && |s| > 1 {
      JoinOfSplitFrom(s[2..], sep, cur + s[..2], inQuote);
    } else if s[0] == '"' {
      JoinOfSplitFrom(s[1..], sep, cur + [s[0]], !inQuote);
    } else if s[0] == sep && !inQuote {
      JoinOfSplitFrom(s[1..], sep, "", false);
      var rest := SplitFrom(s[1..], sep, "", false);
      assert ([cur] + rest)[1..] == rest;
    } else {
      JoinOfSplitFrom(s[1..], sep, cur + [s[0]], inQuote);
    }
  }

  /** Joining the parts with the separator gives back the text, whatever it is. */
  lemma JoinOfSplit(s: string, sep: char)
    ensures Join(SplitTopLevel(s, sep), sep) == s
  {
    JoinOfSplitFrom(s, sep, "", false);
  }

  /** Scanning `s` meets no separator outside quotes and ends outside quotes. */
  predicate Whole(s: string, sep: char, inQuote: bool)
    decreases |s|
  {
    if s == "" then !inQuote
    else if s[0] == '\\' && inQuote then |s| > 1 && Whole(s[2..], sep, inQuote)
    else if s[0] == '"' then Whole(s[1..], sep, !inQuote)
    else (s[0] != sep || inQuote) && Whole(s[1..], sep, inQuote)
  }

  lemma {:induction false} SplitSkipsWhole(p: string, rest: string, sep: char, cur: string, inQuote: bool)
    requires sep != '"' && Whole(p, sep, inQuote) && (rest == "" || rest[0] == sep)
    ensures SplitFrom(p + rest, sep, cur, inQuote)
         == if rest == "" then [cur + p] else [cur + p] + SplitFrom(rest[1..], sep, "", false)
    decreases |p|
  {
    var s := p + rest;
    if p == "" {
      assert s == rest && cur + p == cur;
    } else if p[0] == '\\' && inQuote {
      assert s[2..] == p[2..] + rest && s[..2] == p[..2] && cur + p[..2] + p[2..] == cur + p;
      SplitSkipsWhole(p[2..], rest, sep, cur + p[..2], inQuote);
    } else if p[0] == '"' {
      assert s[1..] == p[1..] + rest && cur + [p[0]] + p[1..] == cur + p;
      SplitSkipsWhole(p[1..], rest, sep, cur + [p[0]], !inQuote);
    } else {
      assert s[1..] == p[1..] + rest && cur + [p[0]] + p[1..] == cur + p;
      SplitSkipsWhole(p[1..], rest, sep, cur + [p[0]], inQuote);
    }
  }

  /** And parts with balanced quotes and no bare separator come back one by one. */
  lemma {:induction false} SplitOfJoin(parts: seq<string>, sep: char)
    requires parts != [] && sep != '"' && forall i :: 0 <= i < |parts| ==> Whole(parts[i], sep, false)
    ensures SplitTopLevel(Join(parts, sep), sep) == parts
    decreases |parts|
  {
    if |parts| == 1 {
      SplitSkipsWhole(parts[0], "", sep, "", false);
      assert parts[0] + "" == parts[0] && "" + parts[0] == parts[0] && [parts[0]] == parts;
    } else {
      var rest := [sep] + Join(parts[1..], sep);
      assert Join(parts, sep) == parts[0] + rest && rest[1..] == Join(parts[1..], sep);
      SplitSkipsWhole(parts[0], rest, sep, "", false);
      SplitOfJoin(parts[1..], sep);
      assert "" + parts[0] == parts[0] && [parts[0]] + parts[1..] == parts;
    }
  }
}
