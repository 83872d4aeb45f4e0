/** What scanning for template references leaves: every reference is replaced, and only references are. */
module TemplateScanning {
  import opened Common
  import opened Templates

  function Processed(s: string, k: nat): string { Flatten(Tokenize(s, k).toks) }

  lemma ProcessedUnfolds(s: string, k: nat)
    ensures Processed("", k) == ""
    ensures s != "" && RefAt(s).Some? ==> Processed(s, k) == Placeholder(k) + Processed(s[|RefAt(s).value| + 4..], k + 1)
    ensures s != "" && RefAt(s).None? ==> Processed(s, k) == [s[0]] + Processed(s[1..], k)
  {
    hide RefAt, Placeholder;
    if s != "" {
      var toks := Tokenize(s, k).toks;
      if RefAt(s).Some? { assert toks[1..] == Tokenize(s[|RefAt(s).value| + 4..], k + 1).toks; }
      else { assert toks[1..] == Tokenize(s[1..], k).toks; }
    }
  }

  lemma NoBraceInPlaceholder(k: nat, i: nat)
    requires i < |Placeholder(k)|
    ensures Placeholder(k)[i] != '{' && Placeholder(k)[i] != '}'
  {
    var p, d := Placeholder(k), Decimal(k);
    if i < 23 { assert p[i] == Head()[i]; }
    else if i < 23 + |d| { assert p[i] == d[i - 23]; }
    else { assert p[i] == "__"[i - 23 - |d|]; }
  }

  /** Where a closing pair is left in the processed text, there was one at the corresponding place. */
  lemma {:induction false} ClosedBefore(t: string, k: nat, v: string) returns (w: string)
    requires '}' !in v && v + "}}" <= Processed(t, k)
    ensures '}' !in w && w + "}}" <= t && (v != "" ==> w != "")
    decreases |t|
  {
    hide RefAt, Processed, Placeholder;
    ProcessedUnfolds(t, k);
    var p := Processed(t, k);
    if RefAt(t).Some? {
      var u := RefAt(t).value;
      RefIsBracedText(t, u);
      w := "{{" + u;
    } else {
      var rest := Processed(t[1..], k);
      assert p == [t[0]] + rest && p[1..] == rest;
      if v == "" {
        assert p[0] == '}' && p[1] == '}' && rest[0] == '}';
        StartsWithBrace(t[1..], k);
        w := "";
      } else {
        assert (v + "}}")[1..] == v[1..] + "}}" && (v + "}}")[0] == v[0] == t[0];
        var w' := ClosedBefore(t[1..], k, v[1..]);
        w := [t[0]] + w';
        assert w + "}}" == [t[0]] + (w' + "}}") && t == [t[0]] + t[1..];
      }
    }
  }

  lemma StartsWithBrace(t: string, k: nat)
    requires Processed(t, k) != "" && (Processed(t, k)[0] == '}' || Processed(t, k)[0] == '{')
    ensures t != "" && t[0] == Processed(t, k)[0] && RefAt(t).None?
  {
    hide RefAt, Processed, Placeholder;
    PlaceholderIsNotEmpty(k);
    ProcessedUnfolds(t, k);
    NoBraceInPlaceholder(k, 0);
  }

  lemma PlaceholderIsNotEmpty(k: nat)
    ensures |Placeholder(k)| > 0
  {
  }

  lemma ReferenceWasThere(s: string, k: nat)
    requires s != ""
    ensures RefAt(Processed(s, k)).Some? ==> RefAt(s).Some?
  {
    hide RefAt, Processed, Placeholder;
    var p := Processed(s, k);
    ProcessedUnfolds(s, k);
    if RefAt(p).Some? && RefAt(s).None? {
      var v := RefAt(p).value;
      RefIsBracedText(p, v);
      assert p[0] == ("{{" + v + "}}")[0] == '{' && p[1] == ("{{" + v + "}}")[1] == '{';
      StartsWithBrace(s[1..], k);
      ProcessedUnfolds(s[1..], k);
      var rest := Processed(s[2..], k);
      assert s[1..][1..] == s[2..];
      assert p == "{{" + rest;
      assert ("{{" + v + "}}")[2..] == v + "}}" && p[2..] == rest;
      var w := ClosedBefore(s[2..], k, v);
      assert "{{" + w + "}}" <= s;
      RefIsBracedText(s, w);
    }
  }

  /** No reference can be read anywhere in the processed text: all of them, and nothing else, were replaced. */
  lemma {:induction false} NoReferenceIsLeft(s: string, k: nat, i: nat)
    requires i <= |Processed(s, k)|
    ensures RefAt(Processed(s, k)[i..]).None?
    decreases |s|
  {
    hide RefAt, Processed, Placeholder;
    ProcessedUnfolds(s, k);
    var p := Processed(s, k);
    if i == |p| {
      NothingToRead(p[i..]);
    } else if RefAt(s).Some? {
      var h, rest := Placeholder(k), Processed(s[|RefAt(s).value| + 4..], k + 1);
      if i < |h| {
        NoBraceInPlaceholder(k, i);
        assert p[i..][0] == h[i];
        NothingToRead(p[i..]);
      } else {
        NoReferenceIsLeft(s[|RefAt(s).value| + 4..], k + 1, i - |h|);
        assert p[i..] == rest[i - |h|..];
      }
    } else if i == 0 {
      assert p[0..] == p;
      ReferenceWasThere(s, k);
    } else {
      NoReferenceIsLeft(s[1..], k, i - 1);
      assert p[i..] == Processed(s[1..], k)[i - 1..];
    }
  }

  lemma NothingToRead(s: string)
    requires s == "" || s[0] != '{'
    ensures RefAt(s).None?
  {
  }
}
