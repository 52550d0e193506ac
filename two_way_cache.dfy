/** The 2-way variant: a direct-mapped L1 of 256 lines over an L2 of 256
    sets of two lines each, with least-recently-used replacement kept by a
    head (most recent) and a tail (least recent) pointer per set; both levels
    write-back and write-allocate (task3/2_way_set_associative.c). Both
    levels split the address the same way: 18 tag bits, 8 index bits, 6
    offset bits. */
module TwoWayCache {
  import opened Address
  import opened CacheCommon

  /** A `CacheLine *` into a set: NULL, `&set.line1` or `&set.line2`. */
  datatype LinePtr = Null | Line1 | Line2

  /** `Set`: two lines, `head` the most recently used, `tail` the least. */
  datatype Set = Set(line1: CacheLine, line2: CacheLine, head: LinePtr, tail: LinePtr)

  /** The set as `initCache` leaves it. */
  const INIT_SET := Set(EMPTY_LINE, EMPTY_LINE, Line1, Line2)

  /** The set as static storage starts: every field zero, both pointers NULL. */
  const ZERO_SET := Set(EMPTY_LINE, EMPTY_LINE, Null, Null)

  /** `*w` for a non-NULL pointer into `set`. */
  function LineOf(st: Set, w: LinePtr): CacheLine
    requires w != Null
  {
    if w == Line1 then st.line1 else st.line2
  }

  /** `*w = line`. */
  function WithLine(st: Set, w: LinePtr, line: CacheLine): (r: Set)
    requires w != Null
    ensures LineOf(r, w) == line && LineOf(r, Other(w)) == LineOf(st, Other(w))
    ensures r.head == st.head && r.tail == st.tail
  {
    if w == Line1 then st.(line1 := line) else st.(line2 := line)
  }

  /** `(w == Line1) ? Line2 : Line1`. */
  function Other(w: LinePtr): (o: LinePtr)
    ensures o != Null && o != w
  {
    if w == Line1 then Line2 else Line1
  }

  /** Where a line's bytes start in `L2Cache`: `index * 2 * BLOCK_SIZE`, plus
      BLOCK_SIZE for anything but `line1`. The slot lies inside the set's
      two blocks and inside the array. */
  function SlotBase(index: nat, w: LinePtr): (b: nat)
    requires index < NUM_SETS
    ensures index * 2 * BLOCK_SIZE <= b && b + BLOCK_SIZE <= index * 2 * BLOCK_SIZE + 2 * BLOCK_SIZE
    ensures b + BLOCK_SIZE <= L2_SIZE
  {
    index * 2 * BLOCK_SIZE + (if w == Line1 then 0 else BLOCK_SIZE)
  }

  /** A set whose pointers are what the replacement policy needs: neither
      NULL, and pointing at different lines. */
  predicate Linked(st: Set) {
    st.head != Null && st.tail != Null && st.head != st.tail
  }

  /** The simulator's globals: `DualCache` (init flag, `L1` lines, `L2`
      sets), the byte arrays `L1Cache`, `L2Cache` and `DRAM`, and `time`. */
  datatype State = State(init: bool, l1Lines: seq<CacheLine>, sets: seq<Set>,
                         l1: seq<Byte>, l2: seq<Byte>, dram: seq<Byte>, time: nat)

  predicate WellFormed(c: Config, s: State) {
    |s.l1Lines| == L1_NUM_LINES && |s.sets| == NUM_SETS
    && |s.l1| == L1_SIZE && |s.l2| == L2_SIZE && |s.dram| == c.dramSize
  }

  /** Every set is linked. `initCache` establishes this and every access
      keeps it. */
  predicate SetsLinked(s: State) {
    forall i :: 0 <= i < |s.sets| ==> Linked(s.sets[i])
  }

  /** What an access did: whether it ran to the end (`ok`, false where the C
      calls `exit(-1)` or dereferences NULL), the state reached, the word
      read, and the steps taken. */
  datatype Outcome = Outcome(ok: bool, post: State, word: seq<Byte>, steps: seq<Step>)

  /** What callers must provide: the word lies inside its block, and a write
      supplies one word. */
  predicate Request(c: Config, address: Word32, mode: Mode, data: seq<Byte>) {
    SplitL1(address).offset + c.wordSize <= BLOCK_SIZE
    && (mode == ModeWrite ==> |data| == c.wordSize)
  }

  /** `is_L1_dirty(address)`: the dirty bit of the L1 line the index bits
      select, whichever block that line holds. */
  function IsL1Dirty(s: State, address: Word32): bool
    requires |s.l1Lines| == L1_NUM_LINES
  {
    s.l1Lines[SplitL1(address).index].dirty
  }

  /** The tag `is_L2_dirty` looks for: `address & 0xFFFF8000`, masked with
      the direct-mapped L2's tag mask and not shifted down, so it is compared
      with the 18-bit shifted tags the lines hold. */
  function UnshiftedTag(address: Word32): (t: Word32)
    ensures t % 0x8000 == 0 && t <= address
  {
    (address / 0x8000) * 0x8000
  }

  /** `is_L2_dirty(address)`: the dirty bit of the first line of the set
      that is valid with tag `UnshiftedTag(address)`; 0 when there is none. */
  function IsL2Dirty(s: State, address: Word32): bool
    requires |s.sets| == NUM_SETS
  {
    var st := s.sets[SplitL1(address).index];
    var t := UnshiftedTag(address);
    if Hit(st.line1, t) then st.line1.dirty
    else if Hit(st.line2, t) then st.line2.dirty
    else false
  }

  /** The empty cache `initCache` leaves: no valid line, every set with
      `head` at `line1` and `tail` at `line2`. */
  function Cleared(s: State): (r: State)
    ensures !r.init && |r.l1Lines| == L1_NUM_LINES && |r.sets| == NUM_SETS
    ensures forall i :: 0 <= i < |r.l1Lines| ==> !r.l1Lines[i].valid && !r.l1Lines[i].dirty
    ensures forall i :: 0 <= i < |r.sets| ==>
      && !r.sets[i].line1.valid && !r.sets[i].line2.valid
      && !r.sets[i].line1.dirty && !r.sets[i].line2.dirty
      && r.sets[i].head == Line1 && r.sets[i].tail == Line2
    ensures r.l1 == s.l1 && r.l2 == s.l2 && r.dram == s.dram && r.time == s.time
  {
    s.(init := false, l1Lines := seq(L1_NUM_LINES, _ => EMPTY_LINE), sets := seq(NUM_SETS, _ => INIT_SET))
  }

  // ---------------------------------------------------------------- L2

  /** The victim's own block address, `(Tag << 14) | (index << 6)`; the two
      operands share no bit, so `|` is `+`. */
  function EvictAddress(tag: Word32, index: nat): (a: Word32)
    requires index < NUM_SETS
    ensures a % BLOCK_SIZE == 0
  {
    ShiftLeft14Aligned(tag);
    var hi := ShiftLeft(tag, 14);
    assert hi <= TWO_32 - 0x4000 by {
      assert hi == (hi / 0x4000) * 0x4000;
    }
    assert hi % 64 == 0 by {
      assert hi == (hi / 0x4000) * 256 * 64;
    }
    hi + index * BLOCK_SIZE
  }

  /** The eviction write-back: a valid and dirty victim goes back to DRAM at
      `EvictAddress` of its tag and the set index. */
  function L2WriteBack(c: Config, s: State, index: nat, victim: LinePtr): (r: Outcome)
    requires ValidConfig(c) && WellFormed(c, s) && index < NUM_SETS && victim != Null
    ensures WellFormed(c, r.post)
  {
    var line := LineOf(s.sets[index], victim);
    if line.valid && line.dirty then
      var at := EvictAddress(line.tag, index);
      var base := SlotBase(index, victim);
      var back := DramAccess(c, s.dram, s.time, at, ModeWrite, s.l2[base..base + BLOCK_SIZE]);
      if !back.ok then Outcome(false, s, [], [])
      else Outcome(true, s.(dram := back.dram, time := back.time), [], [DramWrite(at)])
    else
      Outcome(true, s, [], [])
  }

  /** The fetched block copied into the victim's slot; the victim becomes
      valid and clean with the new tag, and the most recently used line. */
  function L2Install(s: State, sp: Split, victim: LinePtr, block: seq<Byte>): State
    requires |s.sets| == NUM_SETS && |s.l2| == L2_SIZE && sp.index < NUM_SETS && victim != Null
    requires |block| == BLOCK_SIZE
  {
    var st := s.sets[sp.index];
    s.(l2 := Splice(s.l2, SlotBase(sp.index, victim), block),
       sets := s.sets[sp.index := WithLine(st, victim, CacheLine(true, false, sp.tag)).(head := victim, tail := Other(victim))])
  }

  /** The double-miss branch of `accessL2`: fetch the block at `memAddress`,
      take `tail` as the victim (dereferencing it even when it is NULL),
      write it back, install the fetched block. */
  function L2Fill(c: Config, s: State, sp: Split): (r: Outcome)
    requires ValidConfig(c) && WellFormed(c, s) && sp.index < NUM_SETS && sp.memAddress % 64 == 0
    ensures WellFormed(c, r.post)
    ensures r.ok ==> r.post.sets[sp.index].head == s.sets[sp.index].tail != Null
  {
    var fetch := DramAccess(c, s.dram, s.time, sp.memAddress, ModeRead, []);
    DramAccessEffects(c, s.dram, s.time, sp.memAddress, ModeRead, []);
    if !fetch.ok then Outcome(false, s, [], [])
    else
      var s1 := s.(time := fetch.time);
      var victim := s.sets[sp.index].tail;
      if victim == Null then Outcome(false, s1, [], [DramRead(sp.memAddress)])
      else
        var w := L2WriteBack(c, s1, sp.index, victim);
        if !w.ok then Outcome(false, w.post, [], [DramRead(sp.memAddress)])
        else Outcome(true, L2Install(w.post, sp, victim, fetch.block), [], [DramRead(sp.memAddress)] + w.steps)
  }

  /** A hit on line `w`: it becomes the head, the other line the tail. */
  function Touch(s: State, index: nat, w: LinePtr): (r: State)
    requires |s.sets| == NUM_SETS && index < NUM_SETS
    ensures |r.sets| == NUM_SETS && r.sets[index].head == w
    ensures w != Null ==> Linked(r.sets[index])
    ensures r.sets[index].line1 == s.sets[index].line1 && r.sets[index].line2 == s.sets[index].line2
    ensures forall j :: 0 <= j < NUM_SETS && j != index ==> r.sets[j] == s.sets[j]
    ensures r.init == s.init && r.l1Lines == s.l1Lines && r.l1 == s.l1 && r.l2 == s.l2
      && r.dram == s.dram && r.time == s.time
  {
    s.(sets := s.sets[index := s.sets[index].(head := w, tail := Other(w))])
  }

  /** Serving the word from the slot of line `w`, which is the head: a read
      copies it out; a write copies it in and sets the head's dirty bit to
      `is_L1_dirty(address)`. */
  function L2Serve(c: Config, s: State, address: Word32, w: LinePtr, mode: Mode, data: seq<Byte>, steps: seq<Step>): (r: Outcome)
    requires WellFormed(c, s) && Request(c, address, mode, data)
    requires w != Null && s.sets[SplitL1(address).index].head == w
    ensures WellFormed(c, r.post)
  {
    var sp := SplitL1(address);
    var st := s.sets[sp.index];
    var at := SlotBase(sp.index, w) + sp.offset;
    match mode
    case ModeRead =>
      Outcome(true, s.(time := s.time + c.l2ReadTime), s.l2[at..at + c.wordSize], steps + [L2Read])
    case ModeWrite =>
      var head := LineOf(st, st.head);
      Outcome(true, s.(l2 := Splice(s.l2, at, data), time := s.time + c.l2WriteTime,
                       sets := s.sets[sp.index := WithLine(st, st.head, head.(dirty := IsL1Dirty(s, address)))]),
              [], steps + [L2Write])
  }

  /** `accessL2(address, data, mode)`: `line1` is tried first, then `line2`,
      and only when both miss is a block fetched. */
  function L2Access(c: Config, s: State, address: Word32, mode: Mode, data: seq<Byte>): (r: Outcome)
    requires ValidConfig(c) && WellFormed(c, s) && Request(c, address, mode, data)
    ensures WellFormed(c, r.post)
  {
    var p := s.(init := true);
    var sp := SplitL1(address);
    var st := p.sets[sp.index];
    if Hit(st.line1, sp.tag) then
      L2Serve(c, Touch(p, sp.index, Line1), address, Line1, mode, data, [])
    else if Hit(st.line2, sp.tag) then
      L2Serve(c, Touch(p, sp.index, Line2), address, Line2, mode, data, [])
    else
      var f := L2Fill(c, p, sp);
      if !f.ok then f else L2Serve(c, f.post, address, st.tail, mode, data, f.steps)
  }

  // ---------------------------------------------------------------- L1

  /** L1 miss handling, as in the direct-mapped two-level variant: the block
      comes from `accessL2(address, TempBlock, MODE_READ)`, which fills only
      the first WORD_SIZE bytes of `TempBlock`, the rest being the stack's
      `stale` bytes; a valid dirty victim is handed to `accessL2(address,
      block_ptr, MODE_WRITE)`, which stores its first WORD_SIZE bytes at the
      request's own L2 offset; the line is installed with `is_L2_dirty`. */
  function L1Fill(c: Config, s: State, address: Word32, stale: seq<Byte>): (r: Outcome)
    requires ValidConfig(c) && WellFormed(c, s) && Request(c, address, ModeRead, []) && |stale| == BLOCK_SIZE
    ensures WellFormed(c, r.post)
  {
    var sp := SplitL1(address);
    var base := sp.index * BLOCK_SIZE;
    var rd := L2Access(c, s, address, ModeRead, []);
    if !rd.ok then Outcome(false, rd.post, [], rd.steps)
    else
      var temp := rd.word + stale[c.wordSize..];
      var line := rd.post.l1Lines[sp.index];
      var wr := if line.valid && line.dirty
                then L2Access(c, rd.post, address, ModeWrite, rd.post.l1[base..base + c.wordSize])
                else Outcome(true, rd.post, [], []);
      if !wr.ok then Outcome(false, wr.post, [], rd.steps + wr.steps)
      else
        var s3 := wr.post;
        Outcome(true, s3.(l1 := Splice(s3.l1, base, temp),
                          l1Lines := s3.l1Lines[sp.index := CacheLine(true, IsL2Dirty(s3, address), sp.tag)]),
                [], rd.steps + wr.steps)
  }

  /** Serving the word in L1: a read copies it out; a write copies it in and
      marks the line dirty. */
  function L1Serve(c: Config, s: State, address: Word32, mode: Mode, data: seq<Byte>, steps: seq<Step>): (r: Outcome)
    requires WellFormed(c, s) && Request(c, address, mode, data)
    ensures WellFormed(c, r.post)
  {
    var sp := SplitL1(address);
    var at := sp.index * BLOCK_SIZE + sp.offset;
    match mode
    case ModeRead =>
      Outcome(true, s.(time := s.time + c.l1ReadTime), s.l1[at..at + c.wordSize], steps + [L1Read])
    case ModeWrite =>
      Outcome(true, s.(l1 := Splice(s.l1, at, data), time := s.time + c.l1WriteTime,
                       l1Lines := s.l1Lines[sp.index := s.l1Lines[sp.index].(dirty := true)]),
              [], steps + [L1Write])
  }

  /** `accessL1(address, data, mode)`, with `stale` the initial bytes of its
      local `TempBlock`. */
  function Access(c: Config, s: State, address: Word32, mode: Mode, data: seq<Byte>, stale: seq<Byte>): (r: Outcome)
    requires ValidConfig(c) && WellFormed(c, s) && Request(c, address, mode, data) && |stale| == BLOCK_SIZE
    ensures WellFormed(c, r.post)
  {
    var p := s.(init := true);
    var sp := SplitL1(address);
    if Hit(p.l1Lines[sp.index], sp.tag) then
      L1Serve(c, p, address, mode, data, [])
    else
      var f := L1Fill(c, p, address, stale);
      if !f.ok then f else L1Serve(c, f.post, address, mode, data, f.steps)
  }

  class Simulator {
    const cfg: Config
    var init: bool
    const l1Lines: array<CacheLine>
    const sets: array<Set>
    const l1Cache: array<Byte>
    const l2Cache: array<Byte>
    const dram: array<Byte>
    var time: nat

    ghost predicate Valid() {
      ValidConfig(cfg) && l1Lines.Length == L1_NUM_LINES && sets.Length == NUM_SETS
      && l1Cache.Length == L1_SIZE && l2Cache.Length == L2_SIZE && dram.Length == cfg.dramSize
      && l1Lines as object != sets && l1Cache != l2Cache && l1Cache != dram && l2Cache != dram
      && l1Lines as object != l1Cache && l1Lines as object != l2Cache && l1Lines as object != dram
      && sets as object != l1Cache && sets as object != l2Cache && sets as object != dram
    }

    ghost function Abs(): (s: State)
      reads this, l1Lines, sets, l1Cache, l2Cache, dram
      ensures Valid() ==> WellFormed(cfg, s)
    {
      State(init, l1Lines[..], sets[..], l1Cache[..], l2Cache[..], dram[..], time)
    }

    /** The globals as the program starts: all of static storage is zero,
        so every `head` and `tail` is NULL until `initCache` runs. */
    constructor (c: Config)
      requires ValidConfig(c)
      ensures Valid() && cfg == c
      ensures fresh(l1Lines) && fresh(sets) && fresh(l1Cache) && fresh(l2Cache) && fresh(dram)
      ensures Abs() == State(false, seq(L1_NUM_LINES, _ => EMPTY_LINE), seq(NUM_SETS, _ => ZERO_SET),
                             seq(L1_SIZE, _ => 0), seq(L2_SIZE, _ => 0), seq(c.dramSize, _ => 0), 0)
    {
      cfg := c;
      init := false;
      l1Lines := new CacheLine[L1_NUM_LINES](_ => EMPTY_LINE);
      sets := new Set[NUM_SETS](_ => ZERO_SET);
      l1Cache := new Byte[L1_SIZE](_ => 0);
      l2Cache := new Byte[L2_SIZE](_ => 0);
      dram := new Byte[c.dramSize](_ => 0);
      time := 0;
    }

    method ResetTime()
      modifies this`time
      ensures time == 0
    {
      time := 0;
    }

    method GetTime() returns (t: nat)
      ensures t == time
    {
      t := time;
    }

    /** `accessDRAM` at the numeric address `a`. */
    method AccessDram(a: nat, data: seq<Byte>, mode: Mode) returns (ok: bool, block: seq<Byte>)
      requires Valid() && a % 64 == 0 && (mode == ModeWrite ==> |data| == BLOCK_SIZE)
      modifies this`time, dram
      ensures var r := DramAccess(cfg, old(dram[..]), old(time), a, mode, data);
        ok == r.ok && block == r.block && dram[..] == r.dram && time == r.time
    {
      if a >= cfg.dramSize - cfg.wordSize + 1 {
        return false, [];
      }
      WholeBlocks(a, cfg.wordSize, cfg.dramSize);
      ok, block := true, [];
      if mode == ModeRead {
        block := dram[a..a + BLOCK_SIZE];
        time := time + cfg.dramReadTime;
      } else {
        CopyInto(dram, a, data);
        time := time + cfg.dramWriteTime;
      }
    }

    /** `initCache`: clears the flag and every L1 line, and empties every
        set with `head` at `line1` and `tail` at `line2`. */
    method InitCache()
      requires Valid()
      modifies this`init, l1Lines, sets
      ensures Abs() == Cleared(old(Abs()))
    {
      init := false;
      for i := 0 to L1_NUM_LINES
        modifies l1Lines
        invariant forall j :: 0 <= j < i ==> l1Lines[j] == EMPTY_LINE
      {
        l1Lines[i] := EMPTY_LINE;
      }
      for i := 0 to NUM_SETS
        modifies sets
        invariant forall j :: 0 <= j < i ==> sets[j] == INIT_SET
        invariant forall j :: 0 <= j < L1_NUM_LINES ==> l1Lines[j] == EMPTY_LINE
      {
        sets[i] := Set(EMPTY_LINE, EMPTY_LINE, Line1, Line2);
      }
      assert l1Lines[..] == seq(L1_NUM_LINES, _ => EMPTY_LINE);
      assert sets[..] == seq(NUM_SETS, _ => INIT_SET);
    }

    /** `is_L1_dirty(address)`. */
    method IsL1DirtyBit(address: Word32) returns (d: bool)
      requires Valid()
      ensures d == IsL1Dirty(Abs(), address)
    {
      d := l1Lines[SplitL1(address).index].dirty;
    }

    /** `is_L2_dirty(address)`. */
    method IsL2DirtyBit(address: Word32) returns (d: bool)
      requires Valid()
      ensures d == IsL2Dirty(Abs(), address)
    {
      var st := sets[SplitL1(address).index];
      var t := UnshiftedTag(address);
      if st.line1.valid && st.line1.tag == t {
        return st.line1.dirty;
      }
      if st.line2.valid && st.line2.tag == t {
        return st.line2.dirty;
      }
      return false;
    }

    /** Lines 174-177: a valid dirty victim goes back to DRAM at its own
        block address. */
    method L2WriteBackVictim(index: nat, victim: LinePtr) returns (ok: bool)
      requires Valid() && index < NUM_SETS && victim != Null
      modifies this`time, dram
      ensures var r := L2WriteBack(cfg, old(Abs()), index, victim); ok == r.ok && Abs() == r.post
    {
      var line := LineOf(sets[index], victim);
      ok := true;
      if line.valid && line.dirty {
        var at := EvictAddress(line.tag, index);
        var base := SlotBase(index, victim);
        DramAccessEffects(cfg, dram[..], time, at, ModeWrite, l2Cache[base..base + BLOCK_SIZE]);
        var unused;
        ok, unused := AccessDram(at, l2Cache[base..base + BLOCK_SIZE], ModeWrite);
      }
    }

    /** The double-miss branch of `accessL2`. */
    method L2Miss(sp: Split) returns (ok: bool)
      requires Valid() && sp.index < NUM_SETS && sp.memAddress % 64 == 0
      modifies this`time, sets, l2Cache, dram
      ensures var r := L2Fill(cfg, old(Abs()), sp); ok == r.ok && Abs() == r.post
    {
      ghost var fetch := DramAccess(cfg, dram[..], time, sp.memAddress, ModeRead, []);
      DramAccessEffects(cfg, dram[..], time, sp.memAddress, ModeRead, []);
      var temp;
      ok, temp := AccessDram(sp.memAddress, [], ModeRead);
      if !ok {
        return;
      }
      var victim := sets[sp.index].tail;
      if victim == Null {
        return false;
      }
      ok := L2WriteBackVictim(sp.index, victim);
      if !ok {
        return;
      }
      ghost var w := Abs();
      CopyInto(l2Cache, SlotBase(sp.index, victim), temp);
      var st := sets[sp.index];
      sets[sp.index] := WithLine(st, victim, CacheLine(valid := true, dirty := false, tag := sp.tag)).(head := victim, tail := Other(victim));
      assert Abs() == L2Install(w, sp, victim, fetch.block);
    }

    /** Lines 210-219: the word is copied out of or into the slot of line
        `w`, the head. */
    method L2ServeWord(address: Word32, w: LinePtr, mode: Mode, data: seq<Byte>) returns (word: seq<Byte>)
      requires Valid() && Request(cfg, address, mode, data)
      requires w != Null && sets[SplitL1(address).index].head == w
      modifies this`time, sets, l2Cache
      ensures var r := L2Serve(cfg, old(Abs()), address, w, mode, data, []); word == r.word && Abs() == r.post
    {
      var sp := SplitL1(address);
      var at := SlotBase(sp.index, w) + sp.offset;
      word := [];
      if mode == ModeRead {
        word := l2Cache[at..at + cfg.wordSize];
        time := time + cfg.l2ReadTime;
      }
      if mode == ModeWrite {
        CopyInto(l2Cache, at, data);
        time := time + cfg.l2WriteTime;
        var d := IsL1DirtyBit(address);
        var st := sets[sp.index];
        sets[sp.index] := WithLine(st, st.head, LineOf(st, st.head).(dirty := d));
      }
    }

    /** `accessL2(address, data, mode)`. */
    method AccessL2(address: Word32, data: seq<Byte>, mode: Mode) returns (ok: bool, word: seq<Byte>)
      requires Valid() && Request(cfg, address, mode, data)
      modifies this`init, this`time, sets, l2Cache, dram
      ensures var r := L2Access(cfg, old(Abs()), address, mode, data);
        ok == r.ok && word == r.word && Abs() == r.post
    {
      init := true;
      var sp := SplitL1(address);
      var st := sets[sp.index];
      var w: LinePtr;
      if !st.line1.valid || st.line1.tag != sp.tag {
        if !st.line2.valid || st.line2.tag != sp.tag {
          ok := L2Miss(sp);
          if !ok {
            return ok, [];
          }
          w := st.tail;
        } else {
          w := Line2;
          sets[sp.index] := st.(head := Line2, tail := Line1);
        }
      } else {
        w := Line1;
        sets[sp.index] := st.(head := Line1, tail := Line2);
      }
      ok := true;
      word := L2ServeWord(address, w, mode, data);
    }

    /** The miss branch of `accessL1`. */
    method L1Miss(address: Word32, stale: seq<Byte>) returns (ok: bool)
      requires Valid() && Request(cfg, address, ModeRead, []) && |stale| == BLOCK_SIZE
      modifies this`init, this`time, l1Lines, l1Cache, sets, l2Cache, dram
      ensures var r := L1Fill(cfg, old(Abs()), address, stale); ok == r.ok && Abs() == r.post
    {
      var sp := SplitL1(address);
      var base := sp.index * BLOCK_SIZE;
      var line := l1Lines[sp.index];
      ghost var rd := L2Access(cfg, Abs(), address, ModeRead, []);
      var word;
      ok, word := AccessL2(address, [], ModeRead);
      if !ok {
        return;
      }
      assert Abs() == rd.post && line == rd.post.l1Lines[sp.index];
      var temp := word + stale[cfg.wordSize..];
      ghost var wr := Outcome(true, rd.post, [], []);
      if line.valid && line.dirty {
        wr := L2Access(cfg, rd.post, address, ModeWrite, rd.post.l1[base..base + cfg.wordSize]);
        var unused;
        ok, unused := AccessL2(address, l1Cache[base..base + cfg.wordSize], ModeWrite);
        if !ok {
          return;
        }
      }
      assert Abs() == wr.post;
      L1Install(address, temp);
      assert L1Fill(cfg, old(Abs()), address, stale)
          == Outcome(true, wr.post.(l1 := Splice(wr.post.l1, base, temp),
                                    l1Lines := wr.post.l1Lines[sp.index := CacheLine(true, IsL2Dirty(wr.post, address), sp.tag)]),
                     [], rd.steps + wr.steps);
    }

    /** Lines 101-104: the block is copied into the L1 line, which becomes
        valid with the request tag and the dirty bit `is_L2_dirty` reports. */
    method L1Install(address: Word32, temp: seq<Byte>)
      requires Valid() && |temp| == BLOCK_SIZE
      modifies l1Lines, l1Cache
      ensures var s := old(Abs()); var sp := SplitL1(address);
        Abs() == s.(l1 := Splice(s.l1, sp.index * BLOCK_SIZE, temp),
                    l1Lines := s.l1Lines[sp.index := CacheLine(true, IsL2Dirty(s, address), sp.tag)])
    {
      var sp := SplitL1(address);
      var d := IsL2DirtyBit(address);
      CopyInto(l1Cache, sp.index * BLOCK_SIZE, temp);
      l1Lines[sp.index] := CacheLine(valid := true, dirty := d, tag := sp.tag);
    }

    /** Lines 108-117: the word is copied out of or into the L1 line. */
    method L1ServeWord(address: Word32, mode: Mode, data: seq<Byte>) returns (word: seq<Byte>)
      requires Valid() && Request(cfg, address, mode, data)
      modifies this`time, l1Lines, l1Cache
      ensures var r := L1Serve(cfg, old(Abs()), address, mode, data, []); word == r.word && Abs() == r.post
    {
      var sp := SplitL1(address);
      var at := sp.index * BLOCK_SIZE + sp.offset;
      word := [];
      if mode == ModeRead {
        word := l1Cache[at..at + cfg.wordSize];
        time := time + cfg.l1ReadTime;
      }
      if mode == ModeWrite {
        CopyInto(l1Cache, at, data);
        time := time + cfg.l1WriteTime;
        l1Lines[sp.index] := l1Lines[sp.index].(dirty := true);
      }
    }

    /** `accessL1(address, data, mode)`; `stale` stands for the uninitialised
        bytes of its local `TempBlock`. */
    method AccessL1(address: Word32, data: seq<Byte>, mode: Mode, stale: seq<Byte>) returns (ok: bool, word: seq<Byte>)
      requires Valid() && Request(cfg, address, mode, data) && |stale| == BLOCK_SIZE
      modifies this, l1Lines, l1Cache, sets, l2Cache, dram
      ensures Valid()
      ensures var r := Access(cfg, old(Abs()), address, mode, data, stale);
        ok == r.ok && word == r.word && Abs() == r.post
    {
      init := true;
      var sp := SplitL1(address);
      var line := l1Lines[sp.index];
      if !line.valid || line.tag != sp.tag {
        ok := L1Miss(address, stale);
        if !ok {
          return ok, [];
        }
      }
      ok := true;
      word := L1ServeWord(address, mode, data);
    }

    method Read(address: Word32, stale: seq<Byte>) returns (ok: bool, word: seq<Byte>)
      requires Valid() && Request(cfg, address, ModeRead, []) && |stale| == BLOCK_SIZE
      modifies this, l1Lines, l1Cache, sets, l2Cache, dram
      ensures Valid()
      ensures var r := Access(cfg, old(Abs()), address, ModeRead, [], stale);
        ok == r.ok && word == r.word && Abs() == r.post
    {
      ok, word := AccessL1(address, [], ModeRead, stale);
    }

    method Write(address: Word32, data: seq<Byte>, stale: seq<Byte>) returns (ok: bool)
      requires Valid() && Request(cfg, address, ModeWrite, data) && |stale| == BLOCK_SIZE
      modifies this, l1Lines, l1Cache, sets, l2Cache, dram
      ensures Valid()
      ensures ok == Access(cfg, old(Abs()), address, ModeWrite, data, stale).ok
      ensures Abs() == Access(cfg, old(Abs()), address, ModeWrite, data, stale).post
    {
      var unused;
      ok, unused := AccessL1(address, data, ModeWrite, stale);
    }
  }
}
