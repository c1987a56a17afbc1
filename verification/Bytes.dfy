/** Bytes, big-endian numbers and Python's clamping slices. */
module Bytes {

  type byte = x: int | 0 <= x < 256

  type bytes = seq<byte>

  /** `buf[i:j]` for non-negative bounds: both are clamped to the length. */
  function Slice(buf: bytes, i: nat, j: nat): bytes {
    var lo := if i > |buf| then |buf| else i;
    var hi := if j > |buf| then |buf| else j;
    if lo <= hi then buf[lo..hi] else []
  }

  function Pow256(width: nat): nat {
    if width == 0 then 1 else 256 * Pow256(width - 1)
  }

  function FromBigEndian(bs: bytes): (n: nat)
    ensures n < Pow256(|bs|)
  {
    if bs == [] then 0 else FromBigEndian(bs[..|bs| - 1]) * 256 + bs[|bs| - 1]
  }

  function BigEndian(n: nat, width: nat): (bs: bytes)
    ensures |bs| == width
  {
    if width == 0 then [] else BigEndian(n / 256, width - 1) + [n % 256]
  }

  lemma {:induction false} BigEndianBack(n: nat, width: nat)
    requires n < Pow256(width)
    ensures FromBigEndian(BigEndian(n, width)) == n
  {
    if width > 0 {
      BigEndianBack(n / 256, width - 1);
      var bs := BigEndian(n, width);
      assert bs[..width - 1] == BigEndian(n / 256, width - 1);
    }
  }

  /** What lies at the joint of a prefix, a middle and a rest. */
  lemma SliceMiddle(pre: bytes, mid: bytes, post: bytes)
    ensures Slice(pre + mid + post, |pre|, |pre| + |mid|) == mid
    ensures (pre + mid + post)[|pre|..|pre| + |mid|] == mid
  {
  }
}
