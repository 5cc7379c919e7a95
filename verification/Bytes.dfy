/** Bytes, and 32-bit integers as they lie in memory: two's complement, low byte first. */
module Bytes {

  type byte = x: int | 0 <= x < 256

  const INT_BYTES: nat := 4

  predicate IsInt(x: int) {
    -0x8000_0000 <= x < 0x8000_0000
  }

  /** An int converted to a 64-bit unsigned value. */
  function ToU64(x: int): nat {
    x % 0x1_0000_0000_0000_0000
  }

  function EncodeInt(x: int): (b: seq<byte>)
    ensures |b| == INT_BYTES
  {
    var u := x % 0x1_0000_0000;
    [u % 256, u / 256 % 256, u / 256 / 256 % 256, u / 256 / 256 / 256]
  }

  function DecodeInt(b: seq<byte>): (x: int)
    requires |b| == INT_BYTES
    ensures IsInt(x)
  {
    var b0: int, b1: int, b2: int, b3: int := b[0], b[1], b[2], b[3];
    var u := b0 + 256 * (b1 + 256 * (b2 + 256 * b3));
    if u < 0x8000_0000 then u else u - 0x1_0000_0000
  }

  lemma IntRoundTrip(x: int)
    requires IsInt(x)
    ensures DecodeInt(EncodeInt(x)) == x
  {
    var u := x % 0x1_0000_0000;
    var u1 := u / 256;
    var u2 := u1 / 256;
    assert u == u % 256 + 256 * u1 && u1 == u1 % 256 + 256 * u2 && u2 == u2 % 256 + 256 * (u2 / 256);
  }

  /** The low byte comes first, and negative ints are in two's complement. */
  lemma LowByteFirst()
    ensures EncodeInt(258) == [2, 1, 0, 0] && EncodeInt(-2) == [254, 255, 255, 255]
  {
  }

  /** An array of ints as bytes. */
  function EncodeInts(xs: seq<int>): (b: seq<byte>)
    ensures |b| == INT_BYTES * |xs|
  {
    if xs == [] then [] else EncodeInt(xs[0]) + EncodeInts(xs[1..])
  }

  function DecodeInts(b: seq<byte>, n: nat): (xs: seq<int>)
    requires |b| == INT_BYTES * n
    ensures |xs| == n
    ensures forall x :: x in xs ==> IsInt(x)
  {
    if n == 0 then [] else [DecodeInt(b[..INT_BYTES])] + DecodeInts(b[INT_BYTES..], n - 1)
  }

  lemma {:induction false} IntsRoundTrip(xs: seq<int>)
    requires forall x :: x in xs ==> IsInt(x)
    ensures DecodeInts(EncodeInts(xs), |xs|) == xs
  {
    if xs != [] {
      var b := EncodeInts(xs);
      assert b[..INT_BYTES] == EncodeInt(xs[0]);
      assert b[INT_BYTES..] == EncodeInts(xs[1..]);
      IntRoundTrip(xs[0]);
      IntsRoundTrip(xs[1..]);
    }
  }

  lemma {:induction false} EncodeIntsConcat(a: seq<int>, b: seq<int>)
    ensures EncodeInts(a + b) == EncodeInts(a) + EncodeInts(b)
  {
    if a == [] {
      assert a + b == b;
    } else {
      assert (a + b)[1..] == a[1..] + b;
      EncodeIntsConcat(a[1..], b);
    }
  }
}
