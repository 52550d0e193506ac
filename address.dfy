/** Address decomposition. A 32-bit address splits into tag | index | offset;
    each level has its own split. Addresses are unsigned 32-bit numbers; a
    mask of contiguous low bits followed by a right shift is written as the
    remainder and quotient by the matching power of two, which is what those
    operations compute on unsigned values. */
module Address {

  const TWO_32: int := 0x1_0000_0000

  /** `uint32_t`. */
  type Word32 = x: int | 0 <= x < TWO_32

  /** `x << k` on a `uint32_t`: the bits shifted past bit 31 are lost. */
  function ShiftLeft(x: Word32, k: nat): Word32 {
    (x * Pow2(k)) % TWO_32
  }

  function Pow2(k: nat): (p: nat)
    ensures p >= 1
  {
    if k == 0 then 1 else 2 * Pow2(k - 1)
  }

  datatype Split = Split(tag: Word32, index: nat, offset: nat, memAddress: Word32)

  /** The split of every L1 and of the 2-way L2: offset `a & 0x3F`, index
      `(a & 0x3FC0) >> 6`, tag `(a & 0xFFFFC000) >> 14`, and `memAddress`,
      `(a >> 6) << 6`, the address with its offset bits cleared. */
  function SplitL1(a: Word32): (s: Split)
    ensures s.offset < 64 && s.index < 256 && s.tag < 0x4_0000
    ensures s.memAddress == a - s.offset && s.memAddress % 64 == 0
  {
    Split(a / 0x4000, (a / 64) % 256, a % 64, (a / 64) * 64)
  }

  /** The split of the direct-mapped L2: index `(a & 0x7FC0) >> 6` and tag
      `(a & 0xFFFF8000) >> 15`. */
  function SplitL2(a: Word32): (s: Split)
    ensures s.offset < 64 && s.index < 512 && s.tag < 0x2_0000
    ensures s.memAddress == a - s.offset && s.memAddress % 64 == 0
  {
    Split(a / 0x8000, (a / 64) % 512, a % 64, (a / 64) * 64)
  }

  /** `(Tag << 14) | (index << 6) | offset` gives the address back. */
  lemma SplitL1Recombines(a: Word32)
    ensures var s := SplitL1(a); s.tag * 0x4000 + s.index * 64 + s.offset == a
  {
    var q := a / 64;
    assert a == q * 64 + a % 64;
    assert q == (q / 256) * 256 + q % 256;
    assert q / 256 == a / 0x4000;
  }

  /** `(Tag << 15) | (index << 6) | offset` gives the address back. */
  lemma SplitL2Recombines(a: Word32)
    ensures var s := SplitL2(a); s.tag * 0x8000 + s.index * 64 + s.offset == a
  {
    var q := a / 64;
    assert a == q * 64 + a % 64;
    assert q == (q / 512) * 512 + q % 512;
    assert q / 512 == a / 0x8000;
  }

  /** The two splits agree on the offset and the block; the L2 index is the
      L1 index with the lowest L1 tag bit on top, and the L2 tag drops that
      bit. */
  lemma SplitsCompared(a: Word32)
    ensures SplitL2(a).offset == SplitL1(a).offset
    ensures SplitL2(a).memAddress == SplitL1(a).memAddress
    ensures SplitL2(a).index == (SplitL1(a).tag % 2) * 256 + SplitL1(a).index
    ensures SplitL2(a).tag == SplitL1(a).tag / 2
  {
    var q := a / 64;
    assert q / 256 == a / 0x4000;
    assert q / 512 == a / 0x8000;
    assert (q / 256) / 2 == q / 512;
    assert q % 512 == ((q / 256) % 2) * 256 + q % 256;
  }

  /** `x << 14` has its 14 low bits clear, so `(x << 14) | y` for `y <
      0x4000` is `(x << 14) + y`. */
  lemma ShiftLeft14Aligned(x: Word32)
    ensures ShiftLeft(x, 14) % 0x4000 == 0
  {
    assert Pow2(14) == 0x4000 by {
      assert Pow2(6) == 64;
      assert Pow2(10) == 1024;
    }
    var y := x * 0x4000;
    var q := y / TWO_32;
    assert y % TWO_32 == y - q * TWO_32;
    assert y - q * TWO_32 == (x - q * 0x4_0000) * 0x4000;
  }

  /** `x << 6` is block-aligned whatever the bits lost. */
  lemma ShiftLeft6Aligned(x: Word32)
    ensures ShiftLeft(x, 6) % 64 == 0
  {
    assert Pow2(6) == 64;
    var y := x * 64;
    var q := y / TWO_32;
    assert y % TWO_32 == y - q * TWO_32;
    assert y - q * TWO_32 == (x - q * 0x400_0000) * 64;
  }
}
