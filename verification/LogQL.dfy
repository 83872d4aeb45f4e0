/** The LogQL stage chain: scanning, parsing and canonical rendering of line filters, parser stages and
    label filters. */
module LogQL {
  import opened Common

  datatype LineOp = Contains | Regex | NotRegex | NotContains
  datatype LineFilter = LineFilter(op: LineOp, value: string)
  datatype ParserStage = Logfmt | Json
  datatype LabelOp = Re | NotRe | Gte | Lte | NumEq | Neq | Eq | Gt | Lt
  datatype LabelFilter = LabelFilter(name: string, op: LabelOp, value: string)
  datatype Pipeline = Pipeline(lineFilters: seq<LineFilter>, parsers: seq<ParserStage>, labelFilters: seq<LabelFilter>)

  const EMPTY := Pipeline([], [], [])

  function LineToken(op: LineOp): string {
    match op case Contains => "|=" case Regex => "|~" case NotRegex => "!~" case NotContains => "!="
  }

  function StageName(p: ParserStage): string { match p case Logfmt => "logfmt" case Json => "json" }

  function LabelToken(op: LabelOp): string {
    match op
    case Re => "=~" case NotRe => "!~" case Gte => ">=" case Lte => "<=" case NumEq => "=="
    case Neq => "!=" case Eq => "=" case Gt => ">" case Lt => "<"
  }

  /** Scanning */

  predicate IsSpace(c: char) {
    || c in {'\t', '\n', '\r', ' ', '\U{000B}', '\U{000C}', '\U{0085}', '\U{00A0}', '\U{1680}'}
    || '\U{2000}' <= c <= '\U{200A}' || c in {'\U{2028}', '\U{2029}', '\U{202F}', '\U{205F}', '\U{3000}'}
  }

  function TrimLeft(s: string): (r: string)
    ensures |r| <= |s| && r == s[|s| - |r|..]
  {
    if s != "" && IsSpace(s[0]) then TrimLeft(s[1..]) else s
  }

  function TrimRight(s: string): (r: string)
    ensures |r| <= |s| && r == s[..|r|]
  {
    if s != "" && IsSpace(s[|s| - 1]) then TrimRight(s[..|s| - 1]) else s
  }

  function Trim(s: string): (r: string)
    ensures |r| <= |s|
  {
    TrimRight(TrimLeft(s))
  }

  predicate HasPrefix(s: string, p: string) { p <= s }

  /** The closing quote at or after `i`, with a backslash covering the next character. */
  function CloseQuote(s: string, i: nat): (r: Option<nat>)
    ensures r.Some? ==> i <= r.value < |s| && s[r.value] == '"'
    decreases |s| - i
  {
    if i >= |s| then None
    else if s[i] == '\\' then (if i + 2 > |s| then None else CloseQuote(s, i + 2))
    else if s[i] == '"' then Some(i)
    else CloseQuote(s, i + 1)
  }

  /** What a backslash and `c` stand for.  Numeric escapes are not modelled. */
  function Escape(c: char): Option<char> {
    match c
    case 'a' => Some('\U{0007}')
    case 'b' => Some('\U{0008}')
    case 'f' => Some('\U{000C}')
    case 'n' => Some('\n')
    case 'r' => Some('\r')
    case 't' => Some('\t')
    case 'v' => Some('\U{000B}')
    case '\\' => Some('\\')
    case '"' => Some('"')
    case _ => None
  }

  /** The text between two double quotes, unescaped. */
  function Unquote(b: string): Option<string> {
    if b == "" then Some("")
    else if b[0] == '\n' || b[0] == '"' then None
    else if b[0] == '\\' then
      if |b| < 2 || Escape(b[1]).None? then None
      else
        var rest := Unquote(b[2..]);
        if rest.None? then None else Some([Escape(b[1]).value] + rest.value)
    else
      var rest := Unquote(b[1..]);
      if rest.None? then None else Some([b[0]] + rest.value)
  }

  /** A value and what is left of the input. */
  datatype Taken = Taken(value: string, rest: string)

  function TakeQuoted(s: string): (r: Option<Taken>)
    ensures r.Some? ==> |r.value.rest| < |s|
  {
    var t := Trim(s);
    if !HasPrefix(t, "\"") then None
    else
      var close := CloseQuote(t, 1);
      if close.None? then None
      else
        var v := Unquote(t[1..close.value]);
        if v.None? then None else Some(Taken(v.value, t[close.value + 1..]))
  }

  predicate IsAlpha(c: char) { c == '_' || 'a' <= c <= 'z' || 'A' <= c <= 'Z' }
  predicate IsIdentChar(c: char) { IsAlpha(c) || '0' <= c <= '9' }

  /** How many leading characters of `s` from `i` on continue an identifier. */
  function IdentEnd(s: string, i: nat): (n: nat)
    requires i <= |s|
    ensures i <= n <= |s| && (forall k :: i <= k < n ==> IsIdentChar(s[k])) && (n < |s| ==> !IsIdentChar(s[n]))
    decreases |s| - i
  {
    if i < |s| && IsIdentChar(s[i]) then IdentEnd(s, i + 1) else i
  }

  function TakeIdent(s: string): (r: Taken)
    ensures r.value + r.rest == s
  {
    if s == "" || !IsAlpha(s[0]) then Taken("", s) else Taken(s[..IdentEnd(s, 1)], s[IdentEnd(s, 1)..])
  }

  const LABEL_OPS := [Re, NotRe, Gte, Lte, NumEq, Neq, Eq, Gt, Lt]

  datatype TakenOp = TakenOp(op: LabelOp, rest: string)

  function TakeOpFrom(s: string, ops: seq<LabelOp>): (r: Option<TakenOp>)
    ensures r.Some? ==> |r.value.rest| < |s|
  {
    if ops == [] then None
    else if HasPrefix(s, LabelToken(ops[0])) then Some(TakenOp(ops[0], s[|LabelToken(ops[0])|..]))
    else TakeOpFrom(s, ops[1..])
  }

  function TakeLabelFilterOp(s: string): Option<TakenOp> { TakeOpFrom(s, LABEL_OPS) }

  predicate EndsBare(c: char) { c == ' ' || c == '\t' || c == '|' }

  function BareEnd(s: string, i: nat): (n: nat)
    requires i <= |s|
    ensures i <= n <= |s| && (forall k :: i <= k < n ==> !EndsBare(s[k])) && (n < |s| ==> EndsBare(s[n]))
    decreases |s| - i
  {
    if i < |s| && !EndsBare(s[i]) then BareEnd(s, i + 1) else i
  }

  function TakeBareToken(s: string): Taken { Taken(s[..BareEnd(s, 0)], s[BareEnd(s, 0)..]) }

  /** Parsing */

  datatype Parsed = Parsed(pipe: Pipeline, rest: string)

  function StageNamed(name: string): Option<ParserStage> {
    if name == "logfmt" then Some(Logfmt) else if name == "json" then Some(Json) else None
  }

  /** What follows a bare '|'. */
  function ParsePipeStage(s: string, pipe: Pipeline): (r: Option<Parsed>)
    ensures r.Some? ==> |r.value.rest| <= |s|
  {
    var ident := TakeIdent(s);
    if ident.value == "" then None
    else
      var rest := Trim(ident.rest);
      var op := TakeLabelFilterOp(rest);
      if op.None? then
        var stage := StageNamed(ident.value);
        if stage.None? then None else Some(Parsed(pipe.(parsers := pipe.parsers + [stage.value]), rest))
      else
        var after := Trim(op.value.rest);
        if HasPrefix(after, "\"") then
          var q := TakeQuoted(after);
          if q.None? then None
          else Some(Parsed(WithLabel(pipe, ident.value, op.value.op, q.value.value), q.value.rest))
        else
          var bare := TakeBareToken(after);
          if bare.value == "" || op.value.op.Re? || op.value.op.NotRe? then None
          else Some(Parsed(WithLabel(pipe, ident.value, op.value.op, bare.value), bare.rest))
  }

  function WithLabel(pipe: Pipeline, name: string, op: LabelOp, value: string): Pipeline {
    pipe.(labelFilters := pipe.labelFilters + [LabelFilter(name, op, value)])
  }

  function LineOpOf(s: string): Option<LineOp> {
    if HasPrefix(s, "|=") then Some(Contains)
    else if HasPrefix(s, "|~") then Some(Regex)
    else if HasPrefix(s, "!~") then Some(NotRegex)
    else if HasPrefix(s, "!=") then Some(NotContains)
    else None
  }

  /** One turn of the loop on a non-empty trimmed input; every turn shortens it. */
  function ParseOne(s: string, pipe: Pipeline): (r: Option<Parsed>)
    requires s != ""
    ensures r.Some? ==> |r.value.rest| < |s|
  {
    var op := LineOpOf(s);
    if op.Some? then
      var q := TakeQuoted(Trim(s[2..]));
      if q.None? then None
      else Some(Parsed(pipe.(lineFilters := pipe.lineFilters + [LineFilter(op.value, q.value.value)]), q.value.rest))
    else if HasPrefix(s, "|") then ParsePipeStage(Trim(s[1..]), pipe)
    else None
  }

  function ParseFrom(s: string, pipe: Pipeline): Option<Pipeline>
    decreases |s|
  {
    if s == "" then Some(pipe)
    else
      var r := ParseOne(s, pipe);
      if r.None? then None else ParseFrom(Trim(r.value.rest), r.value.pipe)
  }

  function ParsePipeline(s: string): Option<Pipeline> { ParseFrom(Trim(s), EMPTY) }

  /** The stages read before the end or the first error, which is what comes back with the error. */
  function ReadFrom(s: string, pipe: Pipeline): Pipeline
    decreases |s|
  {
    if s == "" then pipe
    else
      var r := ParseOne(s, pipe);
      if r.None? then pipe else ReadFrom(Trim(r.value.rest), r.value.pipe)
  }

  /** Rendering, with all values quoted */

  function QuoteBody(v: string): string {
    if v == "" then ""
    else (if v[0] == '\\' then "\\\\" else if v[0] == '"' then "\\\"" else if v[0] == '\n' then "\\n" else [v[0]]) + QuoteBody(v[1..])
  }

  function Quote(v: string): string { "\"" + QuoteBody(v) + "\"" }

  function RenderLine(f: LineFilter): string { LineToken(f.op) + " " + Quote(f.value) }
  function RenderParser(p: ParserStage): string { "| " + StageName(p) }
  function RenderLabel(f: LabelFilter): string { "| " + f.name + " " + LabelToken(f.op) + " " + Quote(f.value) }

  /** A stage of any kind, in whatever order the query has them. */
  datatype Stage = OfLine(line: LineFilter) | OfParser(parser: ParserStage) | OfLabel(filter: LabelFilter)

  function RenderStage(s: Stage): string {
    match s case OfLine(f) => RenderLine(f) case OfParser(p) => RenderParser(p) case OfLabel(f) => RenderLabel(f)
  }

  function RenderStages(ss: seq<Stage>): string {
    if ss == [] then "" else " " + RenderStage(ss[0]) + RenderStages(ss[1..])
  }

  /** The pipeline that a list of stages stands for. */
  function Add(pipe: Pipeline, s: Stage): Pipeline {
    match s
    case OfLine(f) => pipe.(lineFilters := pipe.lineFilters + [f])
    case OfParser(p) => pipe.(parsers := pipe.parsers + [p])
    case OfLabel(f) => pipe.(labelFilters := pipe.labelFilters + [f])
  }

  function AddAll(pipe: Pipeline, ss: seq<Stage>): Pipeline
    decreases |ss|
  {
    if ss == [] then pipe else AddAll(Add(pipe, ss[0]), ss[1..])
  }

  function Collect(ss: seq<Stage>): Pipeline { AddAll(EMPTY, ss) }

  /** Canonical order: line filters, then parser stages, then label filters. */
  function StagesOf(p: Pipeline): seq<Stage> {
    Map((f: LineFilter) => OfLine(f), p.lineFilters) + Map((q: ParserStage) => OfParser(q), p.parsers)
    + Map((f: LabelFilter) => OfLabel(f), p.labelFilters)
  }

  function Render(p: Pipeline): string { RenderStages(StagesOf(p)) }

  /** Splitting at the top level */

  function SplitFrom(s: string, sep: char, cur: string, inQuote: bool): (r: seq<string>)
    ensures r != []
    decreases |s|
  {
    if s == "" then [cur]
    else if s[0] == '\\' && inQuote && |s| > 1 then SplitFrom(s[2..], sep, cur + s[..2], inQuote)
    else if s[0] == '"' then SplitFrom(s[1..], sep, cur + [s[0]], !inQuote)
    else if s[0] == sep && !inQuote then [cur] + SplitFrom(s[1..], sep, "", false)
    else SplitFrom(s[1..], sep, cur + [s[0]], inQuote)
  }

  function SplitTopLevel(s: string, sep: char): seq<string> { SplitFrom(s, sep, "", false) }

  function Join(parts: seq<string>, sep: char): string
    requires parts != []
  {
    if |parts| == 1 then parts[0] else parts[0] + [sep] + Join(parts[1..], sep)
  }
}
