/** Bytes and fixed-width arithmetic shared by the byte-level models. */
module Bytes {
  import opened Wrappers

  type Byte = b: int | 0 <= b < 256 witness 0

  const USIZE_LIMIT := 0x1_0000_0000_0000_0000

  function CheckedAdd(a: nat, b: nat): Option<nat> { if a + b < USIZE_LIMIT then Some(a + b) else None }

  function CheckedMul(a: nat, b: nat): Option<nat> { if a * b < USIZE_LIMIT then Some(a * b) else None }

  /** The big-endian value of some bytes. */
  function Big(bytes: seq<Byte>): nat
    decreases |bytes|
  {
    if bytes == [] then 0 else 256 * Big(bytes[..|bytes| - 1]) + bytes[|bytes| - 1]
  }

  function BigEndian(value: nat, length: nat): (bytes: seq<Byte>)
    ensures |bytes| == length
  {
    if length == 0 then [] else BigEndian(value / 256, length - 1) + [value % 256]
  }

  function Power(n: nat): nat { if n == 0 then 1 else 256 * Power(n - 1) }

  lemma {:induction false} BigOfBigEndian(value: nat, length: nat)
    requires value < Power(length)
    ensures Big(BigEndian(value, length)) == value
    decreases length
  {
    if length > 0 {
      BigOfBigEndian(value / 256, length - 1);
      var bytes := BigEndian(value, length);
      assert bytes[..length - 1] == BigEndian(value / 256, length - 1);
    }
  }

  lemma Regroup(first: nat, p: nat)
    ensures first * (256 * p) == 256 * (first * p)
    ensures (first + 1) * (256 * p) == 256 * ((first + 1) * p)
  {
  }

  /** The first byte bounds the value. */
  lemma {:induction false} FirstByteBounds(bytes: seq<Byte>)
    requires bytes != []
    ensures bytes[0] * Power(|bytes| - 1) <= Big(bytes) < (bytes[0] + 1) * Power(|bytes| - 1)
    decreases |bytes|
  {
    if |bytes| > 1 {
      var front := bytes[..|bytes| - 1];
      FirstByteBounds(front);
      Regroup(bytes[0], Power(|bytes| - 2));
    } else {
      assert bytes[..0] == [];
    }
  }

  /** A stretch that is two pieces is each of them in turn. */
  lemma SplitSlice(bytes: seq<Byte>, offset: nat, x: seq<Byte>, y: seq<Byte>)
    requires offset + |x| + |y| <= |bytes| && bytes[offset..offset + |x| + |y|] == x + y
    ensures bytes[offset..offset + |x|] == x
    ensures bytes[offset + |x|..offset + |x| + |y|] == y
  {
    var part := bytes[offset..offset + |x| + |y|];
    assert part[..|x|] == x && part[|x|..] == y;
  }
}
