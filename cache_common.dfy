/** Vocabulary shared by the three simulator variants: the fixed geometry, the
    configuration constants that are not fixed, cache lines, access modes, the
    steps an access takes and what each costs, byte-block copying and the
    backing store (DRAM) transfer. */
module CacheCommon {
  import opened Address

  type Byte = bv8

  /** Geometry fixed by the address masks: 6 offset bits, 256 L1 lines, and an
      L2 of 512 lines (direct-mapped) or 256 sets of two ways. */
  const BLOCK_SIZE: nat := 64
  const L1_NUM_LINES: nat := 256
  const L2_NUM_LINES: nat := 512
  const NUM_WAYS: nat := 2
  const NUM_SETS: nat := 256
  const L1_SIZE: nat := L1_NUM_LINES * BLOCK_SIZE
  const L2_SIZE: nat := L2_NUM_LINES * BLOCK_SIZE

  /** The build-time constants whose values the sources do not fix. */
  datatype Config = Config(
    wordSize: nat,
    dramSize: nat,
    dramReadTime: nat,
    dramWriteTime: nat,
    l1ReadTime: nat,
    l1WriteTime: nat,
    l2ReadTime: nat,
    l2WriteTime: nat)

  /** A consistent configuration: a word fits in a block and the backing store
      is a whole number of blocks. */
  predicate ValidConfig(c: Config) {
    1 <= c.wordSize <= BLOCK_SIZE && c.dramSize % BLOCK_SIZE == 0 && c.wordSize <= c.dramSize
  }

  datatype Mode = ModeRead | ModeWrite

  /** Metadata of one cache line; its bytes live in the level's byte array. */
  datatype CacheLine = CacheLine(valid: bool, dirty: bool, tag: Word32)

  const EMPTY_LINE := CacheLine(false, false, 0)

  /** The hit test `Valid && Tag == tag`. */
  predicate Hit(line: CacheLine, tag: Word32) {
    line.valid && line.tag == tag
  }

  /** One timed step of an access, in the order the simulator takes them. */
  datatype Step = DramRead(address: nat) | DramWrite(address: nat) | L1Read | L1Write | L2Read | L2Write

  function Cost(c: Config, s: Step): nat {
    match s
    case DramRead(_) => c.dramReadTime
    case DramWrite(_) => c.dramWriteTime
    case L1Read => c.l1ReadTime
    case L1Write => c.l1WriteTime
    case L2Read => c.l2ReadTime
    case L2Write => c.l2WriteTime
  }

  /** The total latency of a sequence of steps. */
  function Latency(c: Config, steps: seq<Step>): nat {
    if steps == [] then 0 else Cost(c, steps[0]) + Latency(c, steps[1..])
  }

  lemma {:induction false} LatencyAppend(c: Config, a: seq<Step>, b: seq<Step>)
    ensures Latency(c, a + b) == Latency(c, a) + Latency(c, b)
  {
    if a == [] {
      assert a + b == b;
    } else {
      assert (a + b)[1..] == a[1..] + b;
      LatencyAppend(c, a[1..], b);
    }
  }

  /** The step at which a level serves the word. */
  function L1Step(mode: Mode): Step {
    if mode == ModeRead then L1Read else L1Write
  }

  function L2Step(mode: Mode): Step {
    if mode == ModeRead then L2Read else L2Write
  }

  /** `memcpy(&s[at], src, |src|)` on a value. */
  function Splice(s: seq<Byte>, at: nat, src: seq<Byte>): (r: seq<Byte>)
    requires at + |src| <= |s|
    ensures |r| == |s|
    ensures r[at..at + |src|] == src
    ensures forall i :: 0 <= i < |s| && !(at <= i < at + |src|) ==> r[i] == s[i]
  {
    s[..at] + src + s[at + |src|..]
  }

  /** `mem` holds `block` at `at` (well defined for any arguments). */
  predicate HoldsAt(mem: seq<Byte>, at: int, block: seq<Byte>) {
    0 <= at && at + |block| <= |mem| && mem[at..at + |block|] == block
  }

  lemma SliceOfSlice(s: seq<Byte>, a: nat, b: nat, i: nat, j: nat)
    requires a <= b <= |s| && i <= j <= b - a
    ensures s[a..b][i..j] == s[a + i..a + j]
  {
    assert forall k :: 0 <= k < j - i ==> s[a..b][i..j][k] == s[a + i + k];
  }

  /** A word read at offset `off` of a block that `m` holds at `base` is the
      block's word at `off`. */
  lemma WordOfBlock(m: seq<Byte>, base: nat, block: seq<Byte>, off: nat, w: nat)
    requires HoldsAt(m, base, block) && off + w <= |block|
    ensures m[base + off..base + off + w] == block[off..off + w]
  {
    SliceOfSlice(m, base, base + |block|, off, off + w);
  }

  /** When `m` holds at `base` the block `d` holds at `mem`, the word at
      offset `off` of the two agrees. */
  lemma CopiedWord(m: seq<Byte>, base: nat, d: seq<Byte>, mem: nat, off: nat, w: nat)
    requires base + BLOCK_SIZE <= |m| && mem + BLOCK_SIZE <= |d| && off + w <= BLOCK_SIZE
    requires m[base..base + BLOCK_SIZE] == d[mem..mem + BLOCK_SIZE]
    ensures m[base + off..base + off + w] == d[mem + off..mem + off + w]
  {
    SliceOfSlice(m, base, base + BLOCK_SIZE, off, off + w);
    SliceOfSlice(d, mem, mem + BLOCK_SIZE, off, off + w);
  }

  /** A block of `m` outside the changed range `[lo, hi)` is the same in `m2`. */
  lemma BlockKept(m: seq<Byte>, m2: seq<Byte>, lo: int, hi: int, other: nat)
    requires |m2| == |m| && other + BLOCK_SIZE <= |m| && (other + BLOCK_SIZE <= lo || hi <= other)
    requires forall i :: 0 <= i < |m| && !(lo <= i < hi) ==> m2[i] == m[i]
    ensures m2[other..other + BLOCK_SIZE] == m[other..other + BLOCK_SIZE]
  {
    var blk := m2[other..other + BLOCK_SIZE];
    assert forall k :: 0 <= k < BLOCK_SIZE ==> blk[k] == m[other + k];
  }

  /** The bytes at `off >= |word|` of `word + rest` come from `rest`. */
  lemma WordOfTail(word: seq<Byte>, rest: seq<Byte>, off: nat, w: nat)
    requires |word| <= off && off + w <= |word| + |rest|
    ensures (word + rest)[off..off + w] == rest[off - |word|..off - |word| + w]
  {
    var r := (word + rest)[off..off + w];
    assert forall k :: 0 <= k < w ==> r[k] == rest[off - |word| + k];
  }

  /** `memcpy(&dst[at], src, |src|)` on an array. */
  method CopyInto(dst: array<Byte>, at: nat, src: seq<Byte>)
    requires at + |src| <= dst.Length
    modifies dst
    ensures dst[..] == Splice(old(dst[..]), at, src)
  {
    forall i | 0 <= i < |src| {
      dst[at + i] := src[i];
    }
    assert dst[..] == Splice(old(dst[..]), at, src);
  }

  /** The abort condition of `accessDRAM`: `address >= DRAM_SIZE - WORD_SIZE + 1`. */
  predicate DramFault(c: Config, a: int) {
    a >= c.dramSize - c.wordSize + 1
  }

  lemma WholeBlocks(n: int, w: int, d: int)
    requires n % 64 == 0 && 1 <= w && d % 64 == 0 && n + w <= d
    ensures n + 64 <= d
  {
    assert n == (n / 64) * 64;
    assert d == (d / 64) * 64;
  }

  /** What one `accessDRAM` call does to the store and the clock. */
  datatype Transfer = Transfer(ok: bool, dram: seq<Byte>, block: seq<Byte>, time: nat)

  /** `accessDRAM(address, data, mode)` at the numeric address `a`; every
      caller passes a block-aligned address. The bound check tests WORD_SIZE
      bytes but the transfer moves BLOCK_SIZE bytes; at an aligned address in
      a store of whole blocks the check still keeps the transfer inside. */
  function DramAccess(c: Config, dram: seq<Byte>, time: nat, a: nat, mode: Mode, data: seq<Byte>): (r: Transfer)
    requires ValidConfig(c) && |dram| == c.dramSize && a % 64 == 0
    requires mode == ModeWrite ==> |data| == BLOCK_SIZE
    ensures |r.dram| == |dram|
  {
    if DramFault(c, a) then
      Transfer(false, dram, [], time)
    else
      WholeBlocks(a, c.wordSize, c.dramSize);
      match mode
      case ModeRead => Transfer(true, dram, dram[a..a + BLOCK_SIZE], time + c.dramReadTime)
      case ModeWrite => Transfer(true, Splice(dram, a, data), [], time + c.dramWriteTime)
  }

  /** What `accessDRAM` promises: it aborts exactly when the word at `a`
      would pass the end of the store, leaving everything as it was; a read
      returns the block at `a` and changes nothing; a write stores `data`
      there and touches no other byte; each adds its latency. */
  lemma DramAccessEffects(c: Config, dram: seq<Byte>, time: nat, a: nat, mode: Mode, data: seq<Byte>)
    requires ValidConfig(c) && |dram| == c.dramSize && a % 64 == 0
    requires mode == ModeWrite ==> |data| == BLOCK_SIZE
    ensures var r := DramAccess(c, dram, time, a, mode, data);
      (r.ok <==> a + c.wordSize <= c.dramSize)
      && (!r.ok ==> r.dram == dram && r.time == time)
      && (r.ok && mode == ModeRead ==>
            r.dram == dram && HoldsAt(dram, a, r.block) && |r.block| == BLOCK_SIZE
            && r.time == time + c.dramReadTime)
      && (r.ok && mode == ModeWrite ==>
            HoldsAt(r.dram, a, data) && r.time == time + c.dramWriteTime
            && forall i :: 0 <= i < |dram| && !(a <= i < a + BLOCK_SIZE) ==> r.dram[i] == dram[i])
  {
    if !DramFault(c, a) {
      WholeBlocks(a, c.wordSize, c.dramSize);
    }
  }
}
