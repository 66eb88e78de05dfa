/** The `struct` formats used on the wire. */
module Bytes {

  type Byte = b: int | 0 <= b < 256

  function Pow256(k: nat): nat {
    if k == 0 then 1 else 256 * Pow256(k - 1)
  }

  /** `k` bytes, most significant first. */
  function BigEndian(n: nat, k: nat): (b: seq<Byte>)
    requires n < Pow256(k)
    ensures |b| == k
  {
    if k == 0 then [] else BigEndian(n / 256, k - 1) + [n % 256]
  }

  function FromBigEndian(b: seq<Byte>): (n: nat)
    ensures n < Pow256(|b|)
  {
    if b == [] then 0 else 256 * FromBigEndian(b[..|b| - 1]) + b[|b| - 1]
  }

  lemma {:induction false} BigEndianRoundTrip(n: nat, k: nat)
    requires n < Pow256(k)
    ensures FromBigEndian(BigEndian(n, k)) == n
  {
    if k > 0 {
      BigEndianRoundTrip(n / 256, k - 1);
      assert BigEndian(n, k)[..k - 1] == BigEndian(n / 256, k - 1);
    }
  }

  function Reverse(b: seq<Byte>): (r: seq<Byte>)
    ensures |r| == |b| && forall i :: 0 <= i < |b| ==> r[i] == b[|b| - 1 - i]
  {
    if b == [] then [] else [b[|b| - 1]] + Reverse(b[..|b| - 1])
  }

  lemma {:induction false} ReverseTwice(b: seq<Byte>)
    ensures Reverse(Reverse(b)) == b
  {
  }

  const TWO_16: nat := 0x1_0000
  const TWO_63: int := 0x8000_0000_0000_0000
  const TWO_64: nat := 0x1_0000_0000_0000_0000

  lemma Widths()
    ensures Pow256(2) == TWO_16 && Pow256(8) == TWO_64
  {
    assert Pow256(1) == 256 && Pow256(2) == 256 * 256;
    assert Pow256(3) == 0x100_0000 && Pow256(4) == 0x1_0000_0000;
    assert Pow256(5) == 0x100_0000_0000 && Pow256(6) == 0x1_0000_0000_0000;
    assert Pow256(7) == 0x100_0000_0000_0000;
  }

  // ----- "!H", "!Q", "!q" and the little-endian word of "<d" -----

  function PackShort(n: nat): (b: seq<Byte>)
    requires n < TWO_16
    ensures |b| == 2
  {
    Widths();
    BigEndian(n, 2)
  }

  function UnpackShort(b: seq<Byte>): (n: nat)
    requires |b| == 2
    ensures n < TWO_16
  {
    Widths();
    FromBigEndian(b)
  }

  function PackUnsigned(n: nat): (b: seq<Byte>)
    requires n < TWO_64
    ensures |b| == 8
  {
    Widths();
    BigEndian(n, 8)
  }

  function UnpackUnsigned(b: seq<Byte>): (n: nat)
    requires |b| == 8
    ensures n < TWO_64
  {
    Widths();
    FromBigEndian(b)
  }

  /** Two's complement. */
  function PackLong(n: int): (b: seq<Byte>)
    requires -TWO_63 <= n < TWO_63
    ensures |b| == 8
  {
    PackUnsigned(if n < 0 then n + TWO_64 else n)
  }

  function UnpackLong(b: seq<Byte>): (n: int)
    requires |b| == 8
    ensures -TWO_63 <= n < TWO_63
  {
    var u := UnpackUnsigned(b);
    if u >= TWO_63 then u - TWO_64 else u
  }

  function PackWord(w: nat): (b: seq<Byte>)
    requires w < TWO_64
    ensures |b| == 8
  {
    Reverse(PackUnsigned(w))
  }

  function UnpackWord(b: seq<Byte>): (w: nat)
    requires |b| == 8
    ensures w < TWO_64
  {
    UnpackUnsigned(Reverse(b))
  }

  lemma ShortRoundTrip(n: nat)
    requires n < TWO_16
    ensures UnpackShort(PackShort(n)) == n
  {
    Widths();
    BigEndianRoundTrip(n, 2);
  }

  lemma UnsignedRoundTrip(n: nat)
    requires n < TWO_64
    ensures UnpackUnsigned(PackUnsigned(n)) == n
  {
    Widths();
    BigEndianRoundTrip(n, 8);
  }

  lemma LongRoundTrip(n: int)
    requires -TWO_63 <= n < TWO_63
    ensures UnpackLong(PackLong(n)) == n
  {
    UnsignedRoundTrip(if n < 0 then n + TWO_64 else n);
  }

  lemma WordRoundTrip(w: nat)
    requires w < TWO_64
    ensures UnpackWord(PackWord(w)) == w
  {
    ReverseTwice(PackUnsigned(w));
    UnsignedRoundTrip(w);
  }

  // ----- ASCII -----

  predicate Ascii(s: string) {
    forall i :: 0 <= i < |s| ==> s[i] as int < 128
  }

  function EncodeAscii(s: string): (b: seq<Byte>)
    requires Ascii(s)
    ensures |b| == |s|
  {
    seq(|s|, i requires 0 <= i < |s| => s[i] as int)
  }

  predicate AsciiBytes(b: seq<Byte>) {
    forall i :: 0 <= i < |b| ==> b[i] < 128
  }

  function DecodeAscii(b: seq<Byte>): (s: string)
    requires AsciiBytes(b)
    ensures |s| == |b| && forall i :: 0 <= i < |b| ==> s[i] as int == b[i]
  {
    seq(|b|, i requires 0 <= i < |b| => b[i] as char)
  }

  lemma AsciiRoundTrip(s: string)
    requires Ascii(s)
    ensures AsciiBytes(EncodeAscii(s)) && DecodeAscii(EncodeAscii(s)) == s
  {
    var t := DecodeAscii(EncodeAscii(s));
    forall i | 0 <= i < |s| ensures t[i] == s[i] {
      assert t[i] as int == s[i] as int;
    }
  }

  /** Python's `b[from:to]`: bounds are clamped, a negative `to` counts from the end. */
  function Slice(b: seq<Byte>, from: nat, to: int): seq<Byte> {
    var end := if to < 0 then |b| + to else if to <= |b| then to else |b|;
    if from <= end then b[from..end] else []
  }
}
