/**
 * Byte strings as the ESP32 sees them: little-endian unsigned integers,
 * zero-filled buffers and the concatenation of a sequence of writes.
 */
module Bytes {

  /** An octet: one element of the files and buffers the firmware handles. */
  type Byte = b: int | 0 <= b < 256

  function Min(a: nat, b: nat): nat
  {
    if a <= b then a else b
  }

  /** 256 to the power n: one more than the largest n-byte unsigned value. */
  function Pow256(n: nat): (r: nat)
    ensures r > 0
  {
    if n == 0 then 1 else 256 * Pow256(n - 1)
  }

  /** The unsigned value of a little-endian byte string (least significant byte first). */
  function DecodeLE(bs: seq<Byte>): (r: nat)
    ensures r < Pow256(|bs|)
  {
    if bs == [] then 0 else bs[0] + 256 * DecodeLE(bs[1..])
  }

  /** The n-byte little-endian representation of x. */
  function EncodeLE(x: nat, n: nat): (r: seq<Byte>)
    requires x < Pow256(n)
    ensures |r| == n
  {
    if n == 0 then [] else [x % 256] + EncodeLE(x / 256, n - 1)
  }

  lemma {:induction false} DecodeEncodeLE(x: nat, n: nat)
    requires x < Pow256(n)
    ensures DecodeLE(EncodeLE(x, n)) == x
  {
    if n > 0 {
      DecodeEncodeLE(x / 256, n - 1);
      assert EncodeLE(x, n)[1..] == EncodeLE(x / 256, n - 1);
    }
  }

  lemma {:induction false} EncodeDecodeLE(bs: seq<Byte>)
    ensures EncodeLE(DecodeLE(bs), |bs|) == bs
  {
    if bs != [] {
      EncodeDecodeLE(bs[1..]);
      var x := DecodeLE(bs);
      assert x % 256 == bs[0] && x / 256 == DecodeLE(bs[1..]);
    }
  }

  /** A buffer of n zero bytes, as left by memset(buf, 0, n). */
  function Zeros(n: nat): (r: seq<Byte>)
    ensures |r| == n
    ensures forall i :: 0 <= i < n ==> r[i] == 0
  {
    seq(n, _ => 0)
  }

  lemma ZerosSplit(m: nat, n: nat)
    ensures Zeros(m) + Zeros(n) == Zeros(m + n)
    ensures m <= n ==> Zeros(n)[..m] == Zeros(m) && Zeros(n)[m..] == Zeros(n - m)
  {
  }

  /** The bytes of a sequence of writes, in order. */
  function Flatten(ws: seq<seq<Byte>>): (r: seq<Byte>)
  {
    if ws == [] then [] else ws[0] + Flatten(ws[1..])
  }

  lemma {:induction false} FlattenAppend(a: seq<seq<Byte>>, b: seq<seq<Byte>>)
    ensures Flatten(a + b) == Flatten(a) + Flatten(b)
  {
    if a != [] {
      assert (a + b)[0] == a[0] && (a + b)[1..] == a[1..] + b;
      FlattenAppend(a[1..], b);
    } else {
      assert a + b == b;
    }
  }

  /** One and two writes in a row, flattened. */
  lemma FlattenPair(a: seq<Byte>, b: seq<Byte>)
    ensures Flatten([a]) == a
    ensures Flatten([a, b]) == a + b
  {
    assert [a][1..] == [];
    assert [a, b][1..] == [b];
    assert [b][1..] == [];
  }
}
