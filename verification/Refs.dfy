/** Resource references as text: the rune:// URI form and the type:name.namespace.rune form. */
module Refs {
  import opened Common

  datatype ResourceRef = ResourceRef(kind: string, namespace: string, name: string, id: string, key: string)

  datatype Parsed = Ok(ref: ResourceRef) | Invalid

  /** The unreserved characters of section 2.3 of RFC 3986, which no escaping touches. */
  predicate Unreserved(c: char) {
    'a' <= c <= 'z' || 'A' <= c <= 'Z' || '0' <= c <= '9' || c in {'-', '.', '_', '~'}
  }

  predicate Plain(s: string) { forall i :: 0 <= i < |s| ==> Unreserved(s[i]) }

  /** Text as bytes. */
  predicate Bytes(s: string) { forall i :: 0 <= i < |s| ==> s[i] as int < 256 }

  /** Type and namespace are written as they are; name, ID and key are escaped, and may hold any bytes. */
  predicate PlainRef(r: ResourceRef) { Plain(r.kind) && Plain(r.namespace) && Bytes(r.name) && Bytes(r.id) && Bytes(r.key) }

  /** Percent-escaping of a path segment */

  predicate Kept(c: char) { Unreserved(c) || c in {'$', '&', '+', '=', ':', '@'} }

  function HexDigit(n: nat): char
    requires n < 16
  {
    "0123456789ABCDEF"[n]
  }

  function Unhex(c: char): Option<nat> {
    if '0' <= c <= '9' then Some(c as int - '0' as int)
    else if 'a' <= c <= 'f' then Some(c as int - 'a' as int + 10)
    else if 'A' <= c <= 'F' then Some(c as int - 'A' as int + 10)
    else None
  }

  function EscapedByte(c: char): string
    requires c as int < 256
  {
    if Kept(c) then [c] else ['%', HexDigit(c as int / 16), HexDigit(c as int % 16)]
  }

  function PathEscape(s: string): string
    requires Bytes(s)
  {
    if s == "" then "" else EscapedByte(s[0]) + PathEscape(s[1..])
  }

  function PathUnescape(s: string): Option<string> {
    if s == "" then Some("")
    else if s[0] != '%' then
      var rest := PathUnescape(s[1..]);
      if rest.None? then None else Some([s[0]] + rest.value)
    else if |s| < 3 || Unhex(s[1]).None? || Unhex(s[2]).None? then None
    else
      var rest := PathUnescape(s[3..]);
      var n := 16 * Unhex(s[1]).value + Unhex(s[2]).value;
      if rest.None? || n >= 256 then None else Some([n as char] + rest.value)
  }

  /** The code ignores the error and goes on with the empty string. */
  function UnescapeOrEmpty(s: string): string { if PathUnescape(s).None? then "" else PathUnescape(s).value }

  const SCHEME := "rune://"

  function EscapedName(r: ResourceRef): string
    requires PlainRef(r)
  {
    if r.id != "" then "id/" + PathEscape(r.id) else PathEscape(r.name)
  }

  function EscapedKey(r: ResourceRef): string
    requires PlainRef(r)
  {
    if r.key != "" then "/" + PathEscape(r.key) else ""
  }

  function ToURI(r: ResourceRef): string
    requires PlainRef(r)
  {
    SCHEME + (r.kind + "/" + ((r.namespace + "/") + (EscapedName(r) + EscapedKey(r))))
  }

  /** The pieces of `s` between occurrences of `sep`. */
  function Split(s: string, sep: char): (r: seq<string>)
    ensures r != []
    ensures forall i :: 0 <= i < |r| ==> sep !in r[i]
  {
    if s == "" then [""]
    else
      var rest := Split(s[1..], sep);
      if s[0] == sep then [""] + rest else [[s[0]] + rest[0]] + rest[1..]
  }

  function Join(parts: seq<string>, sep: char): string {
    if parts == [] then "" else if |parts| == 1 then parts[0] else parts[0] + [sep] + Join(parts[1..], sep)
  }

  function IndexOf(s: string, c: char): (i: int)
    ensures -1 <= i < |s|
    ensures i == -1 <==> c !in s
    ensures i >= 0 ==> s[i] == c && c !in s[..i]
  {
    if s == "" then -1
    else if s[0] == c then 0
    else
      var j := IndexOf(s[1..], c);
      if j == -1 then -1 else
        assert s[..j + 1] == [s[0]] + s[1..][..j];
        j + 1
  }

  /** What follows "rune://", for text without a query, a fragment, a user or a port: host up to the first
      '/', then the path, which is unescaped as a whole, split, and then unescaped again piece by piece. */
  function ParseURI(s: string): Parsed {
    var slash := IndexOf(s, '/');
    var kind := if slash == -1 then s else s[..slash];
    var path := PathUnescape(if slash == -1 then "" else s[slash + 1..]);
    if path.None? then Invalid else ReadPath(kind, Split(path.value, '/'))
  }

  function ReadPath(kind: string, parts: seq<string>): Parsed {
    if |parts| < 2 then Invalid
    else if |parts| >= 3 && parts[1] == "id" then
      if UnescapeOrEmpty(parts[2]) == "" then Invalid
      else Ok(ResourceRef(kind, parts[0], "", UnescapeOrEmpty(parts[2]), if |parts| >= 4 then UnescapeOrEmpty(parts[3]) else ""))
    else Ok(ResourceRef(kind, parts[0], UnescapeOrEmpty(parts[1]), "", if |parts| >= 3 then UnescapeOrEmpty(parts[2]) else ""))
  }

  predicate HasSuffix(s: string, t: string) { |t| <= |s| && s[|s| - |t|..] == t }

  /** What follows "type:". */
  function ReadName(kind: string, rest: string, key: string): Parsed {
    if HasSuffix(rest, ".rune") then
      var segs := Split(rest, '.');
      if |segs| < 3 || segs[|segs| - 1] != "rune" then Invalid
      else
        var ns, name := segs[|segs| - 2], Join(segs[..|segs| - 2], '.');
        if ns == "" || name == "" then Invalid else Ok(ResourceRef(kind, ns, name, "", key))
    else if rest == "" then Invalid
    else Ok(ResourceRef(kind, "", rest, "", key))
  }

  function ParseShort(text: string): Parsed {
    var slash := IndexOf(text, '/');
    var key := if slash == -1 then "" else text[slash + 1..];
    var s := if slash == -1 then text else text[..slash];
    var i := IndexOf(s, ':');
    if i <= 0 then Invalid else ReadName(s[..i], s[i + 1..], key)
  }

  function Parse(s: string): Parsed {
    if SCHEME <= s then ParseURI(s[|SCHEME|..]) else ParseShort(s)
  }

  /** The fully qualified form, as built for configmaps. */
  function Fqdn(kind: string, name: string, namespace: string): string { kind + ":" + name + "." + namespace + ".rune" }

  /** Splitting and joining */

  lemma {:induction false} SplitPiece(a: string, b: string, sep: char)
    requires sep !in a
    ensures Split(a + [sep] + b, sep) == [a] + Split(b, sep)
  {
    var s := a + [sep] + b;
    if a == "" {
      assert s[0] == sep && s[1..] == b;
    } else {
      assert s[1..] == a[1..] + [sep] + b && s[0] == a[0] && a[0] in a;
      SplitPiece(a[1..], b, sep);
      assert [a[0]] + a[1..] == a;
    }
  }

  lemma {:induction false} SplitWhole(a: string, sep: char)
    requires sep !in a
    ensures Split(a, sep) == [a]
  {
    if a != "" {
      assert a[0] in a;
      SplitWhole(a[1..], sep);
      assert [a[0]] + a[1..] == a;
    }
  }

  lemma SplitHead(s: string, sep: char)
    requires s != ""
    ensures var rest := Split(s[1..], sep);
            Split(s, sep) == if s[0] == sep then [""] + rest else [[s[0]] + rest[0]] + rest[1..]
  {
  }

  lemma FirstOfTwo(x: seq<string>, y: seq<string>, c: char)
    requires x != []
    ensures [""] + (x + y) == ([""] + x) + y
    ensures [[c] + (x + y)[0]] + (x + y)[1..] == ([[c] + x[0]] + x[1..]) + y
  {
    assert (x + y)[0] == x[0] && (x + y)[1..] == x[1..] + y;
  }

  lemma {:induction false} SplitConcat(a: string, b: string, sep: char)
    ensures Split(a + [sep] + b, sep) == Split(a, sep) + Split(b, sep)
  {
    var s := a + [sep] + b;
    if a == "" {
      assert s[0] == sep && s[1..] == b;
    } else {
      SplitConcat(a[1..], b, sep);
      assert s[1..] == a[1..] + [sep] + b && s[0] == a[0];
      SplitHead(a, sep);
      SplitHead(s, sep);
      hide Split;
      FirstOfTwo(Split(a[1..], sep), Split(b, sep), a[0]);
    }
  }

  lemma {:induction false} JoinSplit(s: string, sep: char)
    ensures Join(Split(s, sep), sep) == s
  {
    if s != "" {
      var rest := Split(s[1..], sep);
      JoinSplit(s[1..], sep);
      assert s == [s[0]] + s[1..];
      if s[0] == sep {
        assert ([""] + rest)[1..] == rest;
      } else {
        var r := [[s[0]] + rest[0]] + rest[1..];
        assert r[1..] == rest[1..] && r[0] == [s[0]] + rest[0];
      }
    }
  }

  lemma {:induction false} IndexOfFirst(a: string, b: string, c: char)
    requires c !in a
    ensures IndexOf(a + [c] + b, c) == |a|
    ensures (a + [c] + b)[..|a|] == a && (a + [c] + b)[|a| + 1..] == b
  {
    var s := a + [c] + b;
    assert s[..|a|] == a && s[|a| + 1..] == b;
    if a != "" {
      assert a[0] in a && s[0] == a[0] && s[1..] == a[1..] + [c] + b;
      IndexOfFirst(a[1..], b, c);
    }
  }

  /** Escaping */

  lemma HexReadsBack(n: nat)
    requires n < 16
    ensures Unhex(HexDigit(n)) == Some(n)
  {
  }

  lemma ByteReadsBack(c: char, t: string)
    requires c as int < 256
    ensures PathUnescape(EscapedByte(c) + t) == if PathUnescape(t).None? then None else Some([c] + PathUnescape(t).value)
  {
    var s := EscapedByte(c) + t;
    if Kept(c) {
      assert s[0] == c && s[1..] == t;
    } else {
      var hi, lo := c as int / 16, c as int % 16;
      HexReadsBack(hi);
      HexReadsBack(lo);
      assert s[0] == '%' && s[1] == HexDigit(hi) && s[2] == HexDigit(lo) && s[3..] == t;
      hide HexDigit, Unhex;
      assert 16 * hi + lo == c as int;
    }
  }

  /** Escaped text unescapes to what it was, whatever follows it. */
  lemma {:induction false} EscapeReadsBack(s: string, t: string)
    requires Bytes(s)
    ensures PathUnescape(PathEscape(s) + t) == if PathUnescape(t).None? then None else Some(s + PathUnescape(t).value)
  {
    hide *;
    if s == "" {
      EscapeNothing(t);
    } else {
      BytesRest(s);
      EscapeHead(s, t);
      EscapeReadsBack(s[1..], t);
      ByteReadsBack(s[0], PathEscape(s[1..]) + t);
      if PathUnescape(t).Some? { assert [s[0]] + (s[1..] + PathUnescape(t).value) == s + PathUnescape(t).value; }
    }
  }

  /** A percent sign that two hexadecimal digits do not follow. */
  ghost predicate Malformed(s: string) {
    exists i :: 0 <= i < |s| && s[i] == '%' && !(i + 2 < |s| && Unhex(s[i + 1]).Some? && Unhex(s[i + 2]).Some?)
  }

  lemma MalformedAfter(s: string, n: nat)
    requires n <= |s| && Malformed(s[n..])
    ensures Malformed(s)
  {
    var t := s[n..];
    var i :| 0 <= i < |t| && t[i] == '%' && !(i + 2 < |t| && Unhex(t[i + 1]).Some? && Unhex(t[i + 2]).Some?);
    assert s[n + i] == '%' && (i + 1 < |t| ==> s[n + i + 1] == t[i + 1]) && (i + 2 < |t| ==> s[n + i + 2] == t[i + 2]);
  }

  /** Unescaping fails exactly on malformed text. */
  lemma {:induction false} UnescapeFailsIff(s: string)
    ensures PathUnescape(s).None? <==> Malformed(s)
  {
    if s != "" {
      var n := if s[0] != '%' then 1 else 3;
      if s[0] == '%' && (|s| < 3 || Unhex(s[1]).None? || Unhex(s[2]).None?) {
        assert Malformed(s);
      } else {
        UnescapeFailsIff(s[n..]);
        if Malformed(s[n..]) { MalformedAfter(s, n); }
        if Malformed(s) {
          var i :| 0 <= i < |s| && s[i] == '%' && !(i + 2 < |s| && Unhex(s[i + 1]).Some? && Unhex(s[i + 2]).Some?);
          HexIsNoPercent(s, n);
          assert i >= n;
          var t := s[n..];
          assert t[i - n] == '%' && (i + 1 < |s| ==> t[i + 1 - n] == s[i + 1]) && (i + 2 < |s| ==> t[i + 2 - n] == s[i + 2]);
        }
      }
    }
  }

  lemma HexIsNoPercent(s: string, n: nat)
    requires 0 < n <= |s| && (n == 1 ==> s[0] != '%')
    requires n == 1 || (n == 3 && Unhex(s[1]).Some? && Unhex(s[2]).Some?)
    ensures n == 3 ==> s[1] != '%' && s[2] != '%'
  {
  }

  /** What a path segment keeps unescaped, by character code: letters, digits and - . _ ~ $ & + = : @ */
  lemma KeptLettersAre(c: char)
    ensures var n := c as int;
            Kept(c) <==> 65 <= n <= 90 || 97 <= n <= 122 || 48 <= n <= 57 || n in {45, 46, 95, 126, 36, 38, 43, 61, 58, 64}
  {
  }

  /** By ID, and the ID missing. */
  lemma MissingIdIsInvalid(kind: string, ns: string, rest: seq<string>)
    ensures ReadPath(kind, [ns, "id", ""] + rest) == Invalid
  {
    assert PathUnescape("") == Some("");
  }

  lemma EscapeNothing(t: string)
    ensures PathEscape("") + t == t && (PathUnescape(t).Some? ==> "" + PathUnescape(t).value == PathUnescape(t).value)
  {
    hide PathUnescape;
  }

  lemma BytesRest(s: string)
    requires Bytes(s) && s != ""
    ensures Bytes(s[1..]) && s[0] as int < 256
  {
  }

  lemma EscapeHead(s: string, t: string)
    requires Bytes(s) && s != ""
    ensures s[0] as int < 256 && Bytes(s[1..])
    ensures PathEscape(s) + t == EscapedByte(s[0]) + (PathEscape(s[1..]) + t)
  {
    hide EscapedByte;
  }

  lemma {:induction false} UnescapeShrinks(s: string)
    ensures var r := PathUnescape(s); r.Some? ==> |r.value| <= |s| && (r.value == s <==> '%' !in s)
    ensures '%' !in s ==> PathUnescape(s) == Some(s)
  {
    if s != "" {
      assert s == [s[0]] + s[1..];
      if s[0] != '%' {
        UnescapeShrinks(s[1..]);
        if PathUnescape(s).Some? { assert PathUnescape(s).value[1..] == PathUnescape(s[1..]).value; }
      } else if |s| >= 3 {
        UnescapeShrinks(s[3..]);
      }
    }
  }

  /** Unescaping once more is harmless exactly without a percent sign. */
  lemma UnescapedTwice(s: string)
    ensures |UnescapeOrEmpty(s)| <= |s| && (UnescapeOrEmpty(s) == s <==> '%' !in s)
  {
    UnescapeShrinks(s);
  }

  /** The URI form */

  lemma PlainIsSlashFree(s: string)
    requires Plain(s)
    ensures '/' !in s && '%' !in s
  {
  }

  /** The path of the URI form, unescaped. */
  function RawName(r: ResourceRef): string { if r.id != "" then "id" + "/" + r.id else r.name }
  function RawKey(r: ResourceRef): string { if r.key != "" then "/" + r.key else "" }
  function RawPath(r: ResourceRef): string { (r.namespace + "/") + (RawName(r) + RawKey(r)) }

  lemma PlainThen(s: string, t: string)
    requires '%' !in s
    ensures PathUnescape(s + t) == if PathUnescape(t).None? then None else Some(s + PathUnescape(t).value)
    decreases |s|
  {
    if s == "" {
      assert s + t == t;
      if PathUnescape(t).Some? { assert "" + PathUnescape(t).value == PathUnescape(t).value; }
    } else {
      assert s[0] in s && (s + t)[0] == s[0] && (s + t)[1..] == s[1..] + t;
      PlainThen(s[1..], t);
      if PathUnescape(t).Some? { assert [s[0]] + (s[1..] + PathUnescape(t).value) == s + PathUnescape(t).value; }
    }
  }

  lemma KeyReadsBack(r: ResourceRef)
    requires PlainRef(r)
    ensures PathUnescape(EscapedKey(r)) == Some(RawKey(r))
  {
    EscapeReadsBack(r.key, "");
    PlainThen("/", PathEscape(r.key));
    assert PathEscape(r.key) + "" == PathEscape(r.key) && r.key + "" == r.key && PathUnescape("") == Some("");
  }

  lemma NameAndKeyReadBack(r: ResourceRef, key: string)
    requires PlainRef(r) && PathUnescape(key).Some?
    ensures PathUnescape(EscapedName(r) + key) == Some(RawName(r) + PathUnescape(key).value)
  {
    hide PathUnescape, PathEscape;
    if r.id != "" {
      EscapeReadsBack(r.id, key);
      PlainThen("id/", PathEscape(r.id) + key);
      assert ("id/" + PathEscape(r.id)) + key == "id/" + (PathEscape(r.id) + key);
      assert "id/" + (r.id + PathUnescape(key).value) == ("id" + "/" + r.id) + PathUnescape(key).value;
    } else {
      EscapeReadsBack(r.name, key);
    }
  }

  lemma PathReadsBack(r: ResourceRef)
    requires PlainRef(r)
    ensures PathUnescape((r.namespace + "/") + (EscapedName(r) + EscapedKey(r))) == Some(RawPath(r))
  {
    hide PathUnescape, EscapedName, EscapedKey, RawName, RawKey;
    KeyReadsBack(r);
    NameAndKeyReadBack(r, EscapedKey(r));
    PlainIsSlashFree(r.namespace);
    PlainThen(r.namespace + "/", EscapedName(r) + EscapedKey(r));
  }

  lemma UriIsRead(r: ResourceRef)
    requires PlainRef(r)
    ensures Parse(ToURI(r)) == ReadPath(r.kind, Split(RawPath(r), '/'))
  {
    hide PathUnescape, RawPath, ReadPath, Split, EscapedName, EscapedKey;
    PathReadsBack(r);
    PlainIsSlashFree(r.kind);
    var path := (r.namespace + "/") + (EscapedName(r) + EscapedKey(r));
    var rest := r.kind + "/" + path;
    assert (SCHEME + rest)[|SCHEME|..] == rest && SCHEME <= SCHEME + rest;
    IndexOfFirst(r.kind, path, '/');
    hide IndexOf, ParseShort;
  }

  /** The first piece of a text with a slash is shorter than the text. */
  lemma {:induction false} FirstPiece(a: string, rest: string)
    ensures var x := Split(a, '/');
            && x[0] <= a && (x[0] == a <==> '/' !in a)
            && (|x| == 1 <==> '/' !in a)
            && Split(a + "/" + rest, '/')[0] == x[0]
  {
    SplitConcat(a, rest, '/');
    if a != "" {
      assert a == [a[0]] + a[1..];
      FirstPiece(a[1..], rest);
    }
  }

  lemma SplitName(r: ResourceRef)
    ensures Split(RawName(r), '/') == if r.id != "" then ["id"] + Split(r.id, '/') else Split(r.name, '/')
  {
    if r.id != "" { SplitPiece("id", r.id, '/'); }
    hide Split;
  }

  lemma SplitKey(a: string, r: ResourceRef)
    ensures Split(a + RawKey(r), '/') == Split(a, '/') + (if r.key != "" then Split(r.key, '/') else [])
  {
    SplitConcat(a, r.key, '/');
    hide Split;
    assert a + ("/" + r.key) == a + "/" + r.key && a + "" == a;
  }

  /** What the reader makes of a name or an ID and what follows it. */
  lemma SplitRaw(r: ResourceRef)
    requires PlainRef(r)
    ensures var parts := Split(RawPath(r), '/');
            var key := if r.key != "" then Split(r.key, '/') else [];
            parts == [r.namespace] + ((if r.id != "" then ["id"] + Split(r.id, '/') else Split(r.name, '/')) + key)
  {
    hide Split, RawName, RawKey;
    PlainIsSlashFree(r.namespace);
    SplitPiece(r.namespace, RawName(r) + RawKey(r), '/');
    SplitName(r);
    SplitKey(RawName(r), r);
  }

  /** No piece of the reference holds a slash or a percent sign. */
  predicate Unescaped(r: ResourceRef) {
    forall c :: c in {'/', '%'} ==> c !in r.key && if r.id != "" then c !in r.id else c !in r.name
  }

  /** How the reader takes the pieces `x` of a name or an ID, followed by the pieces `y` of a key. */
  lemma NamePieces(kind: string, ns: string, x: seq<string>, y: seq<string>)
    requires x != []
    ensures var parts := [ns] + (x + y);
            var second := if |x| > 1 then x[1] else if y != [] then y[0] else "";
            ReadPath(kind, parts) ==
              if |parts| >= 3 && x[0] == "id" then
                if UnescapeOrEmpty(second) == "" then Invalid
                else Ok(ResourceRef(kind, ns, "", UnescapeOrEmpty(second), if |parts| >= 4 then UnescapeOrEmpty(parts[3]) else ""))
              else Ok(ResourceRef(kind, ns, UnescapeOrEmpty(x[0]), "", if |parts| >= 3 then UnescapeOrEmpty(second) else ""))
  {
    hide UnescapeOrEmpty;
  }

  lemma IdPieces(kind: string, ns: string, x: seq<string>, y: seq<string>)
    requires x != []
    ensures var parts := [ns] + ((["id"] + x) + y);
            var second := if |x| > 1 then x[1] else if y != [] then y[0] else "";
            ReadPath(kind, parts) ==
              if UnescapeOrEmpty(x[0]) == "" then Invalid
              else Ok(ResourceRef(kind, ns, "", UnescapeOrEmpty(x[0]), if |parts| >= 4 then UnescapeOrEmpty(second) else ""))
  {
    hide UnescapeOrEmpty;
  }

  /** The first piece, unescaped, is the whole text exactly without slashes and percent signs. */
  lemma FirstPieceReads(a: string)
    ensures Split(a, '/') != [] && (|Split(a, '/')| == 1 <==> '/' !in a)
    ensures UnescapeOrEmpty(Split(a, '/')[0]) == a <==> '/' !in a && '%' !in a
    ensures '/' !in a ==> Split(a, '/')[0] == a
  {
    hide UnescapeOrEmpty;
    FirstPiece(a, "");
    hide Split;
    UnescapedTwice(Split(a, '/')[0]);
  }

  lemma EmptyReads()
    ensures UnescapeOrEmpty("") == ""
  {
  }

  /** Name form. */
  lemma NameReadsBack(r: ResourceRef)
    requires PlainRef(r) && r.id == ""
    ensures ReadPath(r.kind, Split(RawPath(r), '/')) == Ok(r) <==> Unescaped(r) && !(r.name == "id" && r.key != "")
  {
    hide Split, RawPath, PlainRef, ReadPath, UnescapeOrEmpty;
    SplitRaw(r);
    FirstPieceReads(r.name);
    FirstPieceReads(r.key);
    EmptyReads();
    var x, y := Split(r.name, '/'), if r.key != "" then Split(r.key, '/') else [];
    NamePieces(r.kind, r.namespace, x, y);
  }

  /** ID form. */
  lemma IdReadsBack(r: ResourceRef)
    requires PlainRef(r) && r.id != ""
    ensures ReadPath(r.kind, Split(RawPath(r), '/')) == Ok(r) <==> Unescaped(r) && r.name == ""
  {
    hide Split, RawPath, PlainRef, ReadPath, UnescapeOrEmpty;
    SplitRaw(r);
    FirstPieceReads(r.id);
    FirstPieceReads(r.key);
    EmptyReads();
    var x, y := Split(r.id, '/'), if r.key != "" then Split(r.key, '/') else [];
    IdPieces(r.kind, r.namespace, x, y);
  }

  /** The URI form reads back if and only if an ID comes without a name, the name is not "id" with a key,
      and neither name, ID nor key holds a slash or a percent sign: the path is unescaped before it is
      split, and its pieces are unescaped a second time. */
  lemma UriRoundTrip(r: ResourceRef)
    requires PlainRef(r)
    ensures Parse(ToURI(r)) == Ok(r) <==>
              (r.id != "" ==> r.name == "") && !(r.id == "" && r.name == "id" && r.key != "") && Unescaped(r)
  {
    hide *;
    UriIsRead(r);
    if r.id == "" { NameReadsBack(r); } else { IdReadsBack(r); }
  }

  /** The fully qualified form */

  lemma FqdnSegments(name: string, ns: string)
    ensures Split(name + "." + ns + ".rune", '.') == Split(name, '.') + Split(ns, '.') + ["rune"]
  {
    SplitConcat(name + "." + ns, "rune", '.');
    SplitConcat(name, ns, '.');
    SplitWhole("rune", '.');
    hide Split;
    assert name + "." + ns + ".rune" == (name + "." + ns) + "." + "rune";
  }

  /** Reading the part after the colon gives back name and namespace if and only if neither is empty
      and the namespace has no dot. */
  lemma SegmentsReadBack(name: string, ns: string)
    ensures var segs := Split(name + "." + ns + ".rune", '.');
            && |segs| >= 3 && segs[|segs| - 1] == "rune"
            && (segs[|segs| - 2] == ns && Join(segs[..|segs| - 2], '.') == name <==> '.' !in ns)
  {
    var segs := Split(name + "." + ns + ".rune", '.');
    var x, y := Split(name, '.'), Split(ns, '.');
    FqdnSegments(name, ns);
    assert segs[|segs| - 2] == y[|y| - 1];
    if '.' !in ns {
      SplitWhole(ns, '.');
      JoinSplit(name, '.');
      assert segs[..|segs| - 2] == x;
    }
    hide Split, Join;
  }

  lemma NoScheme(s: string)
    requires '/' !in s
    ensures !(SCHEME <= s)
  {
    assert SCHEME[5] == '/';
    if |s| > 5 { assert s[5] in s && s[5] != SCHEME[5]; }
  }

  lemma ShortIsRead(kind: string, rest: string)
    requires ':' !in kind && '/' !in kind + ":" + rest
    ensures Parse(kind + ":" + rest) == if kind == "" then Invalid else ReadName(kind, rest, "")
  {
    hide ReadName, IndexOf;
    var s := kind + ":" + rest;
    NoScheme(s);
    IndexOfFirst(kind, rest, ':');
    assert IndexOf(s, '/') == -1;
    hide ParseURI;
  }

  lemma NameIsRead(kind: string, name: string, ns: string)
    ensures var rest := name + "." + ns + ".rune";
            var segs := Split(rest, '.');
            && |segs| >= 3
            && var space, front := segs[|segs| - 2], Join(segs[..|segs| - 2], '.');
               ReadName(kind, rest, "") == if space == "" || front == "" then Invalid else Ok(ResourceRef(kind, space, front, "", ""))
  {
    hide Split, Join;
    SegmentsReadBack(name, ns);
    var rest := name + "." + ns + ".rune";
    assert rest[|rest| - 5..] == ".rune";
  }

  lemma FqdnIsRead(kind: string, name: string, ns: string)
    requires ':' !in kind && '/' !in kind && '/' !in name && '/' !in ns
    ensures var rest := name + "." + ns + ".rune";
            Parse(Fqdn(kind, name, ns)) == if kind == "" then Invalid else ReadName(kind, rest, "")
  {
    hide ReadName, Parse;
    var rest := name + "." + ns + ".rune";
    assert Fqdn(kind, name, ns) == kind + ":" + rest;
    ShortIsRead(kind, rest);
  }

  lemma {:induction false} FirstTwoFit(s: string, sep: char)
    ensures var x := Split(s, sep); |x[0]| <= |s| && (|x| >= 2 ==> |x[0]| + 1 + |x[1]| <= |s|)
  {
    if s != "" { FirstTwoFit(s[1..], sep); }
  }

  /** A reference read from a URI is shorter than the URI by two separators. */
  lemma UriIsLonger(t: string)
    ensures ParseURI(t).Ok? ==> |ParseURI(t).ref.kind| + |ParseURI(t).ref.namespace| + |ParseURI(t).ref.name| + 2 <= |t|
  {
    hide Split, PathUnescape, UnescapeOrEmpty;
    var slash := IndexOf(t, '/');
    if slash == -1 {
      NothingToRead();
    } else {
      var path := PathUnescape(t[slash + 1..]);
      UnescapeShrinks(t[slash + 1..]);
      if path.Some? {
        FirstTwoFit(path.value, '/');
        var parts := Split(path.value, '/');
        if |parts| >= 2 { UnescapedTwice(parts[1]); }
      }
    }
  }

  lemma NothingToRead()
    ensures PathUnescape("") == Some("") && |Split("", '/')| == 1
  {
  }

  lemma FqdnLetters(kind: string, name: string, ns: string)
    ensures var s := Fqdn(kind, name, ns);
            && |s| == |kind| + |name| + |ns| + 7 && s[|s| - 1] == 'e'
            && ('/' in s <==> '/' in kind || '/' in name || '/' in ns)
            && s == kind + ":" + (name + "." + ns + ".rune")
  {
    var s := Fqdn(kind, name, ns);
    assert s == kind + ":" + (name + "." + ns + ".rune");
    assert '/' in s <==> '/' in kind || '/' in ":" || '/' in name || '/' in "." || '/' in ns || '/' in ".rune";
  }

  /** With a slash anywhere the text is read as a URI, which is too short, or as a reference with a key. */
  lemma SlashedFqdn(kind: string, name: string, ns: string)
    requires '/' in kind || '/' in name || '/' in ns
    ensures Parse(Fqdn(kind, name, ns)) != Ok(ResourceRef(kind, ns, name, "", ""))
  {
    FqdnLetters(kind, name, ns);
    var s := Fqdn(kind, name, ns);
    hide Fqdn, ReadName, ParseURI;
    if SCHEME <= s {
      UriIsLonger(s[|SCHEME|..]);
    } else {
      KeyIsKept(s);
    }
  }

  lemma KeyIsKept(s: string)
    requires '/' in s && s[|s| - 1] != '/'
    ensures ParseShort(s).Ok? ==> ParseShort(s).ref.key != ""
  {
    hide Split, Join, HasSuffix;
  }

  lemma ColonInKind(kind: string, rest: string)
    requires ':' in kind && '/' !in kind + ":" + rest
    ensures Parse(kind + ":" + rest).Ok? ==> Parse(kind + ":" + rest).ref.kind != kind
  {
    hide Split, Join, HasSuffix;
    var s := kind + ":" + rest;
    NoScheme(s);
    hide ParseURI;
    assert IndexOf(s, '/') == -1;
    var j :| 0 <= j < |kind| && kind[j] == ':';
    IndexIsFirst(s, ':', j);
    hide IndexOf;
  }

  lemma {:induction false} IndexIsFirst(s: string, c: char, j: nat)
    requires j < |s| && s[j] == c
    ensures 0 <= IndexOf(s, c) <= j
  {
    if s[0] != c { IndexIsFirst(s[1..], c, j - 1); }
  }

  /** The type:name.namespace.rune form reads back, dots in the name included, if and only if type, name
      and namespace are non-empty, none holds a slash, the type has no colon and the namespace no dot. */
  lemma FqdnRoundTrip(kind: string, name: string, ns: string)
    ensures Parse(Fqdn(kind, name, ns)) == Ok(ResourceRef(kind, ns, name, "", "")) <==>
              && kind != "" && name != "" && ns != "" && '.' !in ns && ':' !in kind
              && '/' !in kind && '/' !in name && '/' !in ns
  {
    FqdnLetters(kind, name, ns);
    hide *;
    if '/' in kind || '/' in name || '/' in ns {
      SlashedFqdn(kind, name, ns);
    } else if ':' in kind {
      ColonInKind(kind, name + "." + ns + ".rune");
    } else {
      FqdnIsRead(kind, name, ns);
      NameIsRead(kind, name, ns);
      SegmentsReadBack(name, ns);
    }
  }

  /** Keys */

  function WithKey(p: Parsed, key: string): Parsed { if p.Ok? then Ok(p.ref.(key := key)) else Invalid }

  lemma NoSchemeWithKey(s: string, key: string)
    requires '/' !in s && s != "rune:"
    ensures !(SCHEME <= s + "/" + key)
  {
    var t := s + "/" + key;
    if |s| < 5 {
      assert t[|s|] == '/' && SCHEME[|s|] != '/';
    } else if |s| == 5 {
      assert t[..5] == s && SCHEME[..5] == "rune:";
    } else {
      assert t[5] == s[5] && s[5] in s && SCHEME[5] == '/';
    }
  }

  lemma NoSlashNoKey(s: string)
    requires '/' !in s
    ensures Parse(s).Ok? ==> Parse(s).ref.key == ""
  {
    hide Split, Join, HasSuffix, ParseURI;
    NoScheme(s);
    assert IndexOf(s, '/') == -1;
    hide IndexOf;
  }

  lemma NameTakesKey(kind: string, rest: string, key: string)
    ensures ReadName(kind, rest, key) == WithKey(ReadName(kind, rest, ""), key)
  {
    hide Split, Join, HasSuffix;
  }

  /** Whatever follows the first slash of a short form is its key, slashes included. */
  lemma KeyIsSplitOff(s: string, key: string)
    requires '/' !in s && s != "rune:"
    ensures Parse(s + "/" + key) == WithKey(Parse(s), key)
  {
    hide ReadName, IndexOf, ParseURI;
    NoScheme(s);
    NoSchemeWithKey(s, key);
    IndexOfFirst(s, key, '/');
    assert IndexOf(s, '/') == -1;
    var i := IndexOf(s, ':');
    if i > 0 { NameTakesKey(s[..i], s[i + 1..], key); }
  }

  lemma MinimalIsRead(kind: string, name: string)
    requires '/' !in kind && '/' !in name
    ensures Parse(kind + ":" + name) == Ok(ResourceRef(kind, "", name, "", "")) <==>
              kind != "" && name != "" && ':' !in kind && !HasSuffix(name, ".rune")
  {
    var s := kind + ":" + name;
    assert '/' !in s;
    if ':' in kind {
      ColonInKind(kind, name);
    } else {
      ShortIsRead(kind, name);
      hide Parse, Split, Join;
    }
  }

  /** The short form type:name/key reads back with any key, or with none, if and only if type and name are
      non-empty, the type has no colon and the name does not end in ".rune". */
  lemma ShortRoundTrip(kind: string, name: string, key: string)
    requires '/' !in kind && '/' !in name && kind + ":" + name != "rune:"
    ensures var text := kind + ":" + name + (if key == "" then "" else "/" + key);
            Parse(text) == Ok(ResourceRef(kind, "", name, "", key)) <==>
              kind != "" && name != "" && ':' !in kind && !HasSuffix(name, ".rune")
  {
    var s := kind + ":" + name;
    MinimalIsRead(kind, name);
    hide Parse, HasSuffix;
    if key == "" {
      assert s + "" == s;
    } else {
      assert s + ("/" + key) == s + "/" + key;
      NoSlashNoKey(s);
      KeyIsSplitOff(s, key);
    }
  }

  lemma FqdnWithKey(kind: string, name: string, ns: string, key: string)
    requires '/' !in kind && '/' !in name && '/' !in ns
    ensures Parse(Fqdn(kind, name, ns) + "/" + key) == Ok(ResourceRef(kind, ns, name, "", key)) <==>
              kind != "" && name != "" && ns != "" && '.' !in ns && ':' !in kind
  {
    FqdnLetters(kind, name, ns);
    FqdnRoundTrip(kind, name, ns);
    var s := Fqdn(kind, name, ns);
    hide Fqdn, Parse;
    NoSlashNoKey(s);
    KeyIsSplitOff(s, key);
  }
}
