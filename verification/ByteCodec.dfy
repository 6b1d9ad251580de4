/** Bytes, fixed-width unsigned integers and the little- and big-endian codecs of
    encoding/binary that every stored row is built from.  Go's wrap-around on uint32
    is written out as Add32.
 */
module ByteCodec {

  type byte = b: int | 0 <= b < 256
  type Bytes = seq<byte>

  const W32: int := 0x1_0000_0000
  const W64: int := 0x1_0000_0000_0000_0000

  type uint32 = x: int | 0 <= x < 0x1_0000_0000
  type uint64 = x: int | 0 <= x < 0x1_0000_0000_0000_0000
  type int64 = x: int | -0x8000_0000_0000_0000 <= x < 0x8000_0000_0000_0000

  datatype Option<+T> = None | Some(value: T)

  /** Addition on Go's uint32. */
  function Add32(a: uint32, b: uint32): uint32 {
    (a + b) % W32
  }

  /** The conversion uint32(n) of a length. */
  function Trunc32(n: nat): uint32 {
    n % W32
  }

  function Pow256(w: nat): nat
    ensures Pow256(w) > 0
  {
    if w == 0 then 1 else 256 * Pow256(w - 1)
  }

  /** The w low-order bytes of x, least significant first. */
  function Le(x: nat, w: nat): (b: Bytes)
    ensures |b| == w
    decreases w
  {
    if w == 0 then [] else [x % 256] + Le(x / 256, w - 1)
  }

  /** The number whose little-endian digits are b. */
  function UnLe(b: Bytes): (x: nat)
    ensures x < Pow256(|b|)
  {
    if b == [] then 0 else b[0] + 256 * UnLe(b[1..])
  }

  lemma {:induction false} LeRoundTrip(x: nat, w: nat)
    requires x < Pow256(w)
    ensures UnLe(Le(x, w)) == x
    decreases w
  {
    if w > 0 {
      LeRoundTrip(x / 256, w - 1);
      assert Le(x, w)[1..] == Le(x / 256, w - 1);
    }
  }

  lemma {:induction false} UnLeRoundTrip(b: Bytes)
    ensures Le(UnLe(b), |b|) == b
  {
    if b != [] {
      UnLeRoundTrip(b[1..]);
      assert UnLe(b) % 256 == b[0] && UnLe(b) / 256 == UnLe(b[1..]);
      assert b == [b[0]] + b[1..];
    }
  }

  lemma Pow256Words()
    ensures Pow256(4) == W32 && Pow256(8) == W64
  {
    assert Pow256(2) == 65536;
    assert Pow256(4) == 256 * (256 * Pow256(2));
    assert Pow256(6) == 256 * (256 * Pow256(4));
    assert Pow256(8) == 256 * (256 * Pow256(6));
  }

  function Le32(x: uint32): (b: Bytes)
    ensures |b| == 4
    ensures UnLe(b) == x
  {
    Pow256Words(); LeRoundTrip(x, 4);
    Le(x, 4)
  }

  function Le64(x: uint64): (b: Bytes)
    ensures |b| == 8
    ensures UnLe(b) == x
  {
    Pow256Words(); LeRoundTrip(x, 8);
    Le(x, 8)
  }

  /** binary.LittleEndian.Uint32 on a buffer of exactly four bytes. */
  function UnLe32(b: Bytes): (x: uint32)
    requires |b| == 4
    ensures Le32(x) == b
  {
    Pow256Words(); UnLeRoundTrip(b);
    UnLe(b)
  }

  function UnLe64(b: Bytes): (x: uint64)
    requires |b| == 8
    ensures Le64(x) == b
  {
    Pow256Words(); UnLeRoundTrip(b);
    UnLe(b)
  }

  /** Distinct numbers have distinct little-endian forms, so they are safe bucket keys. */
  lemma Le32Injective(x: uint32, y: uint32)
    ensures Le32(x) == Le32(y) <==> x == y
  {
    assert UnLe(Le32(x)) == x;
    assert UnLe(Le32(y)) == y;
  }

  lemma Le64Injective(x: uint64, y: uint64)
    ensures Le64(x) == Le64(y) <==> x == y
  {
    assert UnLe(Le64(x)) == x;
    assert UnLe(Le64(y)) == y;
  }

  /** Cutting a concatenation at the seam gives back its two parts. */
  lemma Seam(a: Bytes, b: Bytes)
    ensures (a + b)[..|a|] == a
    ensures (a + b)[|a|..] == b
  {
  }

  /** Writing fields one after the other builds the right-nested layout. */
  lemma Nest(done: Bytes, a: Bytes, rest: Bytes)
    ensures done + (a + rest) == (done + a) + rest
  {
  }

  function Reverse(b: Bytes): (r: Bytes)
    ensures |r| == |b|
    ensures forall i :: 0 <= i < |b| ==> r[i] == b[|b| - 1 - i]
  {
    if b == [] then [] else Reverse(b[1..]) + [b[0]]
  }

  /** binary.BigEndian.Uint64. */
  function UnBe64(b: Bytes): (x: uint64)
    requires |b| == 8
  {
    UnLe64(Reverse(b))
  }

  function Zeros(n: nat): (b: Bytes)
    ensures |b| == n
    ensures forall i :: 0 <= i < n ==> b[i] == 0
  {
    seq(n, i => 0)
  }

  /** The conversions uint64(n) and int64(u): two's complement. */
  function ToUnsigned(n: int64): uint64 {
    if n >= 0 then n else n + W64
  }

  function ToSigned(u: uint64): (n: int64)
    ensures ToUnsigned(n) == u
  {
    if u < 0x8000_0000_0000_0000 then u else u - W64
  }
}
