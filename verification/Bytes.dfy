/**
 Bytes and little-endian words: how the machine lays out the integers that cross the wire.
 */
module Bytes {

  type Byte = x: int | 0 <= x < 256

  /** The number of values `n` bytes can hold. */
  function Span(n: nat): (s: nat)
    ensures s >= 1
  {
    if n == 0 then 1 else 256 * Span(n - 1)
  }

  /** The lowest `n` bytes of `x`, least significant first. */
  function Encode(x: nat, n: nat): (b: seq<Byte>)
    ensures |b| == n
  {
    if n == 0 then [] else [x % 256] + Encode(x / 256, n - 1)
  }

  function Decode(b: seq<Byte>): (x: nat)
    ensures x < Span(|b|)
  {
    if b == [] then 0 else b[0] + 256 * Decode(b[1..])
  }

  lemma {:induction false} DecodeEncode(x: nat, n: nat)
    requires x < Span(n)
    ensures Decode(Encode(x, n)) == x
  {
    if n > 0 {
      DecodeEncode(x / 256, n - 1);
      assert Encode(x, n)[1..] == Encode(x / 256, n - 1);
    }
  }

  lemma {:induction false} EncodeDecode(b: seq<Byte>)
    ensures Encode(Decode(b), |b|) == b
  {
    if b != [] {
      EncodeDecode(b[1..]);
      var rest := Decode(b[1..]);
      assert (b[0] + 256 * rest) % 256 == b[0] && (b[0] + 256 * rest) / 256 == rest;
    }
  }

  lemma Spans()
    ensures Span(4) == 0x1_0000_0000 && Span(8) == 0x1_0000_0000_0000_0000
  {
    assert Span(2) == 0x1_0000 && Span(4) == 256 * (256 * Span(2));
    assert Span(6) == 256 * (256 * Span(4)) && Span(8) == 256 * (256 * Span(6));
  }

  /** A signed 32-bit integer. */
  predicate IsInt(x: int) {
    -0x8000_0000 <= x < 0x8000_0000
  }

  /** The four bytes of an integer, in two's complement. */
  function EncodeInt(x: int): (b: seq<Byte>)
    ensures |b| == 4
  {
    Encode(x % 0x1_0000_0000, 4)
  }

  function DecodeInt(b: seq<Byte>): (x: int)
    requires |b| == 4
    ensures IsInt(x)
  {
    Spans();
    var w := Decode(b);
    if w >= 0x8000_0000 then w - 0x1_0000_0000 else w
  }

  /** Signed words survive the trip. */
  lemma DecodeEncodeInt(x: int)
    requires IsInt(x)
    ensures DecodeInt(EncodeInt(x)) == x
  {
    Spans();
    var w: nat := x % 0x1_0000_0000;
    DecodeEncode(w, 4);
    assert w == (if x < 0 then x + 0x1_0000_0000 else x);
  }

  /** And so do their bytes. */
  lemma EncodeDecodeInt(b: seq<Byte>)
    requires |b| == 4
    ensures EncodeInt(DecodeInt(b)) == b
  {
    Spans();
    EncodeDecode(b);
    assert DecodeInt(b) % 0x1_0000_0000 == Decode(b);
  }

  /** `b` with `patch` over its bytes from `at` on. */
  function Put(b: seq<Byte>, at: nat, patch: seq<Byte>): (r: seq<Byte>)
    requires at + |patch| <= |b|
    ensures |r| == |b|
    ensures r[at..at + |patch|] == patch
    ensures r[..at] == b[..at] && r[at + |patch|..] == b[at + |patch|..]
  {
    b[..at] + patch + b[at + |patch|..]
  }

  lemma Extend(a: seq<Byte>, i: nat, j: nat, k: nat)
    requires i <= j <= k <= |a|
    ensures a[i..j] + a[j..k] == a[i..k]
    ensures a[i..k][..j - i] == a[i..j] && a[i..k][j - i..] == a[j..k]
  {
  }

  lemma PutEnd(b: seq<Byte>, at: nat, patch: seq<Byte>)
    requires at + |patch| <= |b|
    ensures Put(b, at, patch)[..at + |patch|] == b[..at] + patch
  {
  }
}
