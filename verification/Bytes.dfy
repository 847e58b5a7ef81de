/**
 Little-endian integer fields as `DataView` reads and writes them. A setter
 stores its argument modulo 2^(8k); the signed getter reads two's complement.
 */
module Bytes {
  import Seqs

  type Byte = x: int | 0 <= x < 256

  const TWO_32: int := 0x1_0000_0000
  const TWO_63: int := 0x8000_0000_0000_0000
  const TWO_64: int := 0x1_0000_0000_0000_0000

  function Pow256(k: nat): (p: nat)
    ensures p > 0
  {
    if k == 0 then 1 else 256 * Pow256(k - 1)
  }

  /** The low `k` bytes of `v`, least significant first. */
  function ToLE(v: nat, k: nat): (s: seq<Byte>)
    ensures |s| == k
    decreases k, v
  {
    if k == 0 then [] else [v % 256] + ToLE(v / 256, k - 1)
  }

  lemma DivTwice(v: nat, b: nat)
    requires b > 0
    ensures v / 256 / b == v / (256 * b)
  {
    var q, r := v / 256 / b, v / 256 % b;
    assert v == 256 * (q * b + r) + v % 256;
    assert 256 * (q * b + r) == q * (256 * b) + 256 * r;
    Seqs.DivUnique(v, 256 * b, q, 256 * r + v % 256);
  }

  /** Byte `i` is digit `i` of the number to the base 256, the least significant first. */
  lemma {:induction false} LEDigits(v: nat, k: nat, i: nat)
    requires i < k
    ensures ToLE(v, k)[i] == v / Pow256(i) % 256
    decreases k
  {
    if i > 0 {
      LEDigits(v / 256, k - 1, i - 1);
      DivTwice(v, Pow256(i - 1));
    }
  }

  function FromLE(s: seq<Byte>): nat {
    if s == [] then 0 else s[0] + 256 * FromLE(s[1..])
  }

  lemma {:induction false} LERoundTrip(v: nat, k: nat)
    requires v < Pow256(k)
    ensures FromLE(ToLE(v, k)) == v
    decreases k
  {
    if k > 0 {
      LERoundTrip(v / 256, k - 1);
      assert ToLE(v, k)[1..] == ToLE(v / 256, k - 1);
    }
  }

  lemma {:induction false} FromLEBound(s: seq<Byte>)
    ensures FromLE(s) < Pow256(|s|)
  {
    if s != [] { FromLEBound(s[1..]); }
  }

  lemma Pow256Values()
    ensures Pow256(4) == TWO_32 && Pow256(8) == TWO_64
  {
    assert Pow256(2) == 65536;
    assert Pow256(4) == 65536 * Pow256(2);
    assert Pow256(6) == 65536 * Pow256(4);
    assert Pow256(8) == 65536 * Pow256(6);
  }

  /** Values a signed 64-bit field can hold. */
  predicate FitsI64(v: int) { -TWO_63 <= v < TWO_63 }

  /** Signed and unsigned fields store the same eight bytes. */
  function Put64(v: int): (s: seq<Byte>)
    ensures |s| == 8
  {
    ToLE(v % TWO_64, 8)
  }

  function GetI64(s: seq<Byte>): int
    requires |s| == 8
  {
    var u := FromLE(s);
    if u < TWO_63 then u else u - TWO_64
  }

  function PutU32(v: nat): (s: seq<Byte>)
    ensures |s| == 4
  {
    ToLE(v % TWO_32, 4)
  }

  function GetU32(s: seq<Byte>): (v: nat)
    requires |s| == 4
    ensures v < TWO_32
  {
    FromLEBound(s);
    Pow256Values();
    FromLE(s)
  }

  function GetU64(s: seq<Byte>): nat
    requires |s| == 8
  {
    FromLE(s)
  }

  /** A signed field reads back what was written exactly when the value fits it. */
  lemma I64RoundTrip(v: int)
    ensures GetI64(Put64(v)) == v <==> FitsI64(v)
  {
    Pow256Values();
    LERoundTrip(v % TWO_64, 8);
    var u := v % TWO_64;
    assert FromLE(Put64(v)) == u;
    if FitsI64(v) {
      assert u == if v < 0 then v + TWO_64 else v;
    }
  }

  /** A field holds its value in two's complement, modulo 2^64. */
  lemma I64Wraps(v: int)
    ensures GetI64(Put64(v)) == if v % TWO_64 < TWO_63 then v % TWO_64 else v % TWO_64 - TWO_64
  {
    Pow256Values();
    LERoundTrip(v % TWO_64, 8);
  }

  lemma U32RoundTrip(v: nat)
    ensures GetU32(PutU32(v)) == v <==> v < TWO_32
  {
    Pow256Values();
    LERoundTrip(v % TWO_32, 4);
  }

  lemma U64RoundTrip(v: nat)
    ensures GetU64(Put64(v)) == v <==> v < TWO_64
  {
    Pow256Values();
    LERoundTrip(v % TWO_64, 8);
  }

  lemma LowByte(b: Byte, rest: nat)
    ensures (b + 256 * rest) % 256 == b && (b + 256 * rest) / 256 == rest
  {
  }

  /** The bytes of a field are those of the number they read as. */
  lemma {:induction false} ToFromLE(s: seq<Byte>)
    ensures ToLE(FromLE(s), |s|) == s
  {
    if s != [] {
      var rest := FromLE(s[1..]);
      LowByte(s[0], rest);
      ToFromLE(s[1..]);
      assert s == [s[0]] + s[1..];
    }
  }

  lemma U32FieldRoundTrip(s: seq<Byte>)
    requires |s| == 4
    ensures PutU32(GetU32(s)) == s
  {
    FromLEBound(s);
    Pow256Values();
    ToFromLE(s);
  }

  method Blit(out: array<Byte>, off: nat, src: seq<Byte>)
    requires off + |src| <= out.Length
    modifies out
    ensures out[..off] == old(out[..off])
    ensures out[off..off + |src|] == src
  {
    for i := 0 to |src|
      invariant out[..off] == old(out[..off])
      invariant out[off..off + i] == src[..i]
    {
      out[off + i] := src[i];
    }
    assert src[..|src|] == src;
  }
}
