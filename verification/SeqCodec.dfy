/** The eight-byte big-endian suffix of event keys, which makes key order sequence order. */
module SeqCodec {
  const MAX_SEQ: int := 0x7fff_ffff_ffff_ffff

  type Byte = b: nat | b < 256

  function Pow256(n: nat): nat { if n == 0 then 1 else 256 * Pow256(n - 1) }

  /** The `n` low bytes of `s`, most significant first. */
  function BigEndian(s: nat, n: nat): (b: seq<Byte>)
    ensures |b| == n
  {
    if n == 0 then [] else BigEndian(s / 256, n - 1) + [s % 256]
  }

  function FromBytes(b: seq<Byte>): nat {
    if b == [] then 0 else 256 * FromBytes(b[..|b| - 1]) + b[|b| - 1]
  }

  function EncodeSeq(s: int): seq<Byte> { BigEndian(if s < 0 then 0 else s, 8) }

  function DecodeSeq(b: seq<Byte>): int {
    if |b| < 8 then 0
    else
      var u := FromBytes(b[..8]);
      if u > MAX_SEQ then 0 else u
  }

  lemma {:induction false} BytesRoundTrip(s: nat, n: nat)
    requires s < Pow256(n)
    ensures FromBytes(BigEndian(s, n)) == s
  {
    if n > 0 {
      BytesRoundTrip(s / 256, n - 1);
      assert BigEndian(s, n)[..n - 1] == BigEndian(s / 256, n - 1);
    }
  }

  lemma EightBytes()
    ensures Pow256(8) == 0x1_0000_0000_0000_0000
  {
    assert Pow256(4) == 0x1_0000_0000;
  }

  /** Encoding loses nothing that is a sequence number: the round trip is exact on the non-negative
      int64 values, and only there. */
  lemma SeqRoundTrip(s: int)
    requires s <= MAX_SEQ
    ensures DecodeSeq(EncodeSeq(s)) == s <==> 0 <= s
  {
    var t: nat := if s < 0 then 0 else s;
    EightBytes();
    BytesRoundTrip(t, 8);
    assert EncodeSeq(s)[..8] == EncodeSeq(s);
  }

  lemma {:induction false} BytesReadBack(b: seq<Byte>)
    ensures FromBytes(b) < Pow256(|b|) && BigEndian(FromBytes(b), |b|) == b
  {
    if b != [] {
      var init, last := b[..|b| - 1], b[|b| - 1];
      BytesReadBack(init);
      assert FromBytes(b) == 256 * FromBytes(init) + last;
      assert FromBytes(b) / 256 == FromBytes(init) && FromBytes(b) % 256 == last;
      assert b == init + [last];
    }
  }

  lemma {:induction false} FirstByteWeighs(b: seq<Byte>)
    requires b != []
    ensures b[0] * Pow256(|b| - 1) <= FromBytes(b) < (b[0] + 1) * Pow256(|b| - 1)
  {
    if |b| > 1 {
      var init, last := b[..|b| - 1], b[|b| - 1];
      FirstByteWeighs(init);
      assert FromBytes(b) == 256 * FromBytes(init) + last && Pow256(|b| - 1) == 256 * Pow256(|b| - 2);
      var x: nat := b[0];
      Scaled(x, Pow256(|b| - 2));
      Scaled(x + 1, Pow256(|b| - 2));
    } else {
      assert b[..0] == [];
    }
  }

  lemma Scaled(x: nat, y: nat)
    ensures x * (256 * y) == 256 * (x * y)
  {
  }

  lemma SevenBytes()
    ensures Pow256(7) == 0x100_0000_0000_0000
  {
    assert Pow256(4) == 0x1_0000_0000;
  }

  /** Eight bytes whose first is below 128 decode to the number that encodes to them; anything else decodes to
      0, and negative numbers are encoded as 0. */
  lemma DecodingIsExact(b: seq<Byte>, s: int)
    ensures |b| >= 8 && b[0] < 128 ==> EncodeSeq(DecodeSeq(b)) == b[..8] && 0 <= DecodeSeq(b) <= 0x7fff_ffff_ffff_ffff
    ensures |b| < 8 || b[0] >= 128 ==> DecodeSeq(b) == 0
    ensures s < 0 ==> EncodeSeq(s) == EncodeSeq(0)
  {
    if |b| >= 8 {
      var c := b[..8];
      BytesReadBack(c);
      FirstByteWeighs(c);
      SevenBytes();
    }
  }

  /** Byte-wise order of keys of equal length. */
  predicate Precedes(a: seq<Byte>, b: seq<Byte>)
    requires |a| == |b|
  {
    a != [] && (a[0] < b[0] || (a[0] == b[0] && Precedes(a[1..], b[1..])))
  }

  lemma {:induction false} PrecedesAtEnd(p: seq<Byte>, x: Byte, q: seq<Byte>, y: Byte)
    requires |p| == |q|
    ensures Precedes(p + [x], q + [y]) <==> Precedes(p, q) || (p == q && x < y)
  {
    if p == [] {
      assert p + [x] == [x] && q + [y] == [y];
    } else {
      PrecedesAtEnd(p[1..], x, q[1..], y);
      assert (p + [x])[1..] == p[1..] + [x] && (q + [y])[1..] == q[1..] + [y];
      assert p == [p[0]] + p[1..] && q == [q[0]] + q[1..];
    }
  }

  lemma OrderByParts(a: nat, b: nat)
    ensures a < b <==> a / 256 < b / 256 || (a / 256 == b / 256 && a % 256 < b % 256)
  {
  }

  lemma {:induction false} BytesAreOrdered(a: nat, b: nat, n: nat)
    requires a < Pow256(n) && b < Pow256(n)
    ensures Precedes(BigEndian(a, n), BigEndian(b, n)) <==> a < b
  {
    if n > 0 {
      var p, q := BigEndian(a / 256, n - 1), BigEndian(b / 256, n - 1);
      assert BigEndian(a, n) == p + [a % 256] && BigEndian(b, n) == q + [b % 256];
      assert a / 256 < Pow256(n - 1) && b / 256 < Pow256(n - 1);
      hide *;
      BytesAreOrdered(a / 256, b / 256, n - 1);
      BytesRoundTrip(a / 256, n - 1);
      BytesRoundTrip(b / 256, n - 1);
      PrecedesAtEnd(p, a % 256, q, b % 256);
      OrderByParts(a, b);
    }
  }

  /** Scanning keys in byte order is scanning events in sequence order. */
  lemma SeqOrder(a: int, b: int)
    requires 0 <= a <= MAX_SEQ && 0 <= b <= MAX_SEQ
    ensures Precedes(EncodeSeq(a), EncodeSeq(b)) <==> a < b
  {
    EightBytes();
    BytesAreOrdered(a, b, 8);
  }
}
