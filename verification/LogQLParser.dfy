/** The scanning loops as the code runs them, advancing an index or shrinking the input. */
module LogQLParser {
  import opened Common
  import opened LogQL

  method ScanIdent(s: string) returns (ident: string, rest: string)
    ensures Taken(ident, rest) == TakeIdent(s)
  {
    var i := 0;
    while i < |s|
      invariant 0 <= i <= |s|
      invariant i > 0 ==> IsAlpha(s[0]) && IdentEnd(s, 1) == IdentEnd(s, i)
    {
      var alpha := IsAlpha(s[i]);
      if i == 0 && !alpha { return "", s; }
      if !alpha && !('0' <= s[i] <= '9') { break; }
      i := i + 1;
    }
    return s[..i], s[i..];
  }

  method ScanBareToken(s: string) returns (token: string, rest: string)
    ensures Taken(token, rest) == TakeBareToken(s)
  {
    var i := 0;
    while i < |s|
      invariant 0 <= i <= |s| && BareEnd(s, 0) == BareEnd(s, i)
    {
      if s[i] == ' ' || s[i] == '\t' || s[i] == '|' { break; }
      i := i + 1;
    }
    return s[..i], s[i..];
  }

  /** The search for the closing quote. */
  method ScanQuoted(input: string) returns (r: Option<Taken>)
    ensures r == TakeQuoted(input)
  {
    var s := Trim(input);
    hide Trim, Unquote;
    if !HasPrefix(s, "\"") { return None; }
    var i := 1;
    while i < |s|
      invariant 1 <= i <= |s| + 1
      invariant CloseQuote(s, 1) == if i <= |s| then CloseQuote(s, i) else None
    {
      if s[i] == '\\' {
        i := i + 2;
        continue;
      }
      if s[i] == '"' {
        var v := Unquote(s[1..i]);
        return if v.None? then None else Some(Taken(v.value, s[i + 1..]));
      }
      i := i + 1;
    }
    return None;
  }

  method ScanOp(s: string) returns (r: Option<TakenOp>)
    ensures r == TakeLabelFilterOp(s)
  {
    hide LabelToken;
    for i := 0 to |LABEL_OPS|
      invariant TakeOpFrom(s, LABEL_OPS) == TakeOpFrom(s, LABEL_OPS[i..])
    {
      assert LABEL_OPS[i..][0] == LABEL_OPS[i] && LABEL_OPS[i..][1..] == LABEL_OPS[i + 1..];
      if HasPrefix(s, LabelToken(LABEL_OPS[i])) {
        return Some(TakenOp(LABEL_OPS[i], s[|LabelToken(LABEL_OPS[i])|..]));
      }
    }
    assert LABEL_OPS[|LABEL_OPS|..] == [];
    return None;
  }

  /** The pipeline under construction, which every stage adds to in place. */
  class Builder {
    var pipe: Pipeline

    constructor ()
      ensures pipe == EMPTY
    {
      pipe := EMPTY;
    }

    /** parsePipeStage: what is left of the input, or none on an error. */
    method ParseStage(s: string) returns (rest: Option<string>)
      modifies this
      ensures var p := ParsePipeStage(s, old(pipe));
              if p.None? then rest == None && pipe == old(pipe) else rest == Some(p.value.rest) && pipe == p.value.pipe
    {
      hide Trim, TakeIdent, TakeQuoted, TakeBareToken, TakeLabelFilterOp, HasPrefix;
      var ident, after := ScanIdent(s);
      if ident == "" { return None; }
      after := Trim(after);
      var op := ScanOp(after);
      if op.None? {
        if ident == "logfmt" || ident == "json" {
          pipe := pipe.(parsers := pipe.parsers + [if ident == "logfmt" then Logfmt else Json]);
          return Some(after);
        }
        return None;
      }
      var afterOp := Trim(op.value.rest);
      var val, remainder := "", "";
      if HasPrefix(afterOp, "\"") {
        var q := ScanQuoted(afterOp);
        if q.None? { return None; }
        val, remainder := q.value.value, q.value.rest;
      } else {
        val, remainder := ScanBareToken(afterOp);
        if val == "" { return None; }
        if op.value.op == Re || op.value.op == NotRe { return None; }
      }
      pipe := pipe.(labelFilters := pipe.labelFilters + [LabelFilter(ident, op.value.op, val)]);
      return Some(remainder);
    }

    method AddLine(op: LineOp, s: string) returns (rest: Option<string>)
      modifies this
      ensures var q := TakeQuoted(s);
              if q.None? then rest == None && pipe == old(pipe)
              else rest == Some(q.value.rest) && pipe == old(pipe).(lineFilters := old(pipe).lineFilters + [LineFilter(op, q.value.value)])
    {
      hide TakeQuoted;
      var q := ScanQuoted(s);
      if q.None? { return None; }
      pipe := pipe.(lineFilters := pipe.lineFilters + [LineFilter(op, q.value.value)]);
      return Some(q.value.rest);
    }

    /** One turn of the loop. */
    method Step(s: string) returns (rest: Option<string>)
      requires s != ""
      modifies this
      ensures var p := ParseOne(s, old(pipe));
              if p.None? then rest == None && pipe == old(pipe) else rest == Some(p.value.rest) && pipe == p.value.pipe
      ensures rest.Some? ==> |rest.value| < |s|
    {
      assert HasPrefix(s, "|=") || HasPrefix(s, "|~") || HasPrefix(s, "!~") || HasPrefix(s, "!=") ==> |s| >= 2;
      hide Trim, TakeQuoted, ParsePipeStage, HasPrefix;
      if HasPrefix(s, "|=") {
        rest := AddLine(Contains, Trim(s[2..]));
      } else if HasPrefix(s, "|~") {
        rest := AddLine(Regex, Trim(s[2..]));
      } else if HasPrefix(s, "!~") {
        rest := AddLine(NotRegex, Trim(s[2..]));
      } else if HasPrefix(s, "!=") {
        rest := AddLine(NotContains, Trim(s[2..]));
      } else if HasPrefix(s, "|") {
        rest := ParseStage(Trim(s[1..]));
      } else {
        rest := None;
      }
    }
  }

  /** parsePipeline; on an error it hands back what it had read. */
  method Parse(input: string) returns (pipe: Pipeline, ok: bool)
    ensures ok <==> ParsePipeline(input).Some?
    ensures ok ==> pipe == ParsePipeline(input).value
    ensures pipe == ReadFrom(Trim(input), EMPTY)
  {
    var s := Trim(input);
    var b := new Builder();
    hide Trim, ParseOne;
    while s != ""
      invariant ParseFrom(s, b.pipe) == ParsePipeline(input) && ReadFrom(s, b.pipe) == ReadFrom(Trim(input), EMPTY)
      decreases |s|
    {
      var rest := b.Step(s);
      if rest.None? { return b.pipe, false; }
      s := Trim(rest.value);
    }
    return b.pipe, true;
  }

  /** splitTopLevel. */
  method Split(s: string, sep: char) returns (parts: seq<string>)
    ensures parts == SplitTopLevel(s, sep)
  {
    parts := [];
    var cur, inQuote, i := "", false, 0;
    assert s[0..] == s;
    while i < |s|
      invariant 0 <= i <= |s|
      invariant parts + SplitFrom(s[i..], sep, cur, inQuote) == SplitTopLevel(s, sep)
    {
      var c := s[i];
      assert s[i..][1..] == s[i + 1..];
      if c == '\\' && inQuote && i + 1 < |s| {
        assert s[i..][2..] == s[i + 2..] && s[i..][..2] == [c, s[i + 1]];
        assert cur + s[i..][..2] == cur + [c] + [s[i + 1]];
        cur := cur + [c];
        cur := cur + [s[i + 1]];
        i := i + 1;
      } else if c == '"' {
        inQuote := !inQuote;
        cur := cur + [c];
      } else if c == sep && !inQuote {
        parts := parts + [cur];
        cur := "";
      } else {
        cur := cur + [c];
      }
      i := i + 1;
    }
    parts := parts + [cur];
  }
}
