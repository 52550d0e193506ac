/** The two-level variant: a direct-mapped L1 of 256 lines over a
    direct-mapped L2 of 512 lines over DRAM, both write-back and
    write-allocate (task2/L2Cache.c). */
module L2Cache {
  import opened Address
  import opened CacheCommon

  /** The simulator's globals: `DualCache` (init flag, `L1` and `L2` line
      arrays), the byte arrays `L1Cache`, `L2Cache` and `DRAM`, and `time`. */
  datatype State = State(init: bool, l1Lines: seq<CacheLine>, l2Lines: seq<CacheLine>,
                         l1: seq<Byte>, l2: seq<Byte>, dram: seq<Byte>, time: nat)

  predicate WellFormed(c: Config, s: State) {
    |s.l1Lines| == L1_NUM_LINES && |s.l2Lines| == L2_NUM_LINES
    && |s.l1| == L1_SIZE && |s.l2| == L2_SIZE && |s.dram| == c.dramSize
  }

  /** What an access did: whether it ran to the end (`ok`, false where the C
      calls `exit(-1)`), the state reached, the word read, and the steps taken. */
  datatype Outcome = Outcome(ok: bool, post: State, word: seq<Byte>, steps: seq<Step>)

  /** What callers must provide: the word lies inside its block (the offset is
      the same in both splits), and a write supplies one word. */
  predicate Request(c: Config, address: Word32, mode: Mode, data: seq<Byte>) {
    SplitL1(address).offset + c.wordSize <= BLOCK_SIZE
    && (mode == ModeWrite ==> |data| == c.wordSize)
  }

  /** `is_L1_dirty(address)`: the dirty bit of the L1 line the index bits
      select, whichever block that line holds. */
  function IsL1Dirty(s: State, address: Word32): bool
    requires |s.l1Lines| == L1_NUM_LINES
  {
    s.l1Lines[SplitL1(address).index].dirty
  }

  /** `is_L2_dirty(address)`: the dirty bit of the L2 line the index bits
      select, whichever block that line holds. */
  function IsL2Dirty(s: State, address: Word32): bool
    requires |s.l2Lines| == L2_NUM_LINES
  {
    s.l2Lines[SplitL2(address).index].dirty
  }

  /** The empty cache `initCache` leaves: no valid line in either level. */
  function Cleared(s: State): (r: State)
    ensures !r.init && |r.l1Lines| == L1_NUM_LINES && |r.l2Lines| == L2_NUM_LINES
    ensures forall i :: 0 <= i < |r.l1Lines| ==> !r.l1Lines[i].valid && !r.l1Lines[i].dirty
    ensures forall i :: 0 <= i < |r.l2Lines| ==> !r.l2Lines[i].valid && !r.l2Lines[i].dirty
    ensures r.l1 == s.l1 && r.l2 == s.l2 && r.dram == s.dram && r.time == s.time
  {
    s.(init := false, l1Lines := seq(L1_NUM_LINES, _ => EMPTY_LINE), l2Lines := seq(L2_NUM_LINES, _ => EMPTY_LINE))
  }

  // ---------------------------------------------------------------- L2

  /** The victim write-back of an L2 miss: a valid and dirty line is written
      to DRAM at the block address of the request that missed, not at the
      victim's own address (the victim's address is left commented out in
      the source). */
  function L2WriteBack(c: Config, s: State, sp: Split): (r: Outcome)
    requires ValidConfig(c) && WellFormed(c, s) && sp.index < L2_NUM_LINES && sp.memAddress % 64 == 0
    ensures WellFormed(c, r.post)
  {
    var line := s.l2Lines[sp.index];
    if line.valid && line.dirty then
      var back := DramAccess(c, s.dram, s.time, sp.memAddress, ModeWrite, s.l2[sp.index * BLOCK_SIZE..sp.index * BLOCK_SIZE + BLOCK_SIZE]);
      if !back.ok then Outcome(false, s, [], [])
      else Outcome(true, s.(dram := back.dram, time := back.time), [], [DramWrite(sp.memAddress)])
    else
      Outcome(true, s, [], [])
  }

  /** The fetched block copied into L2 line `index`, which becomes valid and
      clean. */
  function L2Install(s: State, sp: Split, block: seq<Byte>): State
    requires |s.l2Lines| == L2_NUM_LINES && |s.l2| == L2_SIZE && sp.index < L2_NUM_LINES && |block| == BLOCK_SIZE
  {
    s.(l2 := Splice(s.l2, sp.index * BLOCK_SIZE, block), l2Lines := s.l2Lines[sp.index := CacheLine(true, false, sp.tag)])
  }

  /** L2 miss handling: fetch the block at `memAddress`, write the victim
      back, install the fetched block. */
  function L2Fill(c: Config, s: State, sp: Split): (r: Outcome)
    requires ValidConfig(c) && WellFormed(c, s) && sp.index < L2_NUM_LINES && sp.memAddress % 64 == 0
    ensures WellFormed(c, r.post)
  {
    var fetch := DramAccess(c, s.dram, s.time, sp.memAddress, ModeRead, []);
    DramAccessEffects(c, s.dram, s.time, sp.memAddress, ModeRead, []);
    if !fetch.ok then Outcome(false, s, [], [])
    else
      var w := L2WriteBack(c, s.(time := fetch.time), sp);
      if !w.ok then Outcome(false, w.post, [], [DramRead(sp.memAddress)])
      else Outcome(true, L2Install(w.post, sp, fetch.block), [], [DramRead(sp.memAddress)] + w.steps)
  }

  /** Serving the word in L2: a read copies it out; a write copies it in and
      sets the line's dirty bit to `is_L1_dirty(address)`. */
  function L2Serve(c: Config, s: State, address: Word32, mode: Mode, data: seq<Byte>, steps: seq<Step>): (r: Outcome)
    requires WellFormed(c, s) && Request(c, address, mode, data)
    ensures WellFormed(c, r.post)
  {
    var sp := SplitL2(address);
    var at := sp.index * BLOCK_SIZE + sp.offset;
    match mode
    case ModeRead =>
      Outcome(true, s.(time := s.time + c.l2ReadTime), s.l2[at..at + c.wordSize], steps + [L2Read])
    case ModeWrite =>
      Outcome(true, s.(l2 := Splice(s.l2, at, data), time := s.time + c.l2WriteTime,
                       l2Lines := s.l2Lines[sp.index := s.l2Lines[sp.index].(dirty := IsL1Dirty(s, address))]),
              [], steps + [L2Write])
  }

  /** `accessL2(address, data, mode)`. */
  function L2Access(c: Config, s: State, address: Word32, mode: Mode, data: seq<Byte>): (r: Outcome)
    requires ValidConfig(c) && WellFormed(c, s) && Request(c, address, mode, data)
    ensures WellFormed(c, r.post)
  {
    var p := s.(init := true);
    var sp := SplitL2(address);
    if Hit(p.l2Lines[sp.index], sp.tag) then
      L2Serve(c, p, address, mode, data, [])
    else
      var f := L2Fill(c, p, sp);
      if !f.ok then f else L2Serve(c, f.post, address, mode, data, f.steps)
  }

  // ---------------------------------------------------------------- L1

  /** L1 miss handling. The block comes from `accessL2(address, TempBlock,
      MODE_READ)`, which fills only the first WORD_SIZE bytes of `TempBlock`
      (with the word at the request's offset); the rest of `TempBlock` is
      whatever the stack held, given here as `stale`. A valid dirty victim is
      then handed to `accessL2(address, block_ptr, MODE_WRITE)`, which stores
      the first WORD_SIZE bytes of the victim at the request's own L2
      offset. The line is installed with the dirty bit of the L2 line. */
  function L1Fill(c: Config, s: State, address: Word32, stale: seq<Byte>): (r: Outcome)
    requires ValidConfig(c) && WellFormed(c, s) && Request(c, address, ModeRead, []) && |stale| == BLOCK_SIZE
    ensures WellFormed(c, r.post)
  {
    var sp := SplitL1(address);
    var base := sp.index * BLOCK_SIZE;
    var rd := L2Access(c, s, address, ModeRead, []);
    if !rd.ok then Outcome(false, rd.post, [], rd.steps)
    else
      var temp := rd.word + stale[c.wordSize..];
      var line := rd.post.l1Lines[sp.index];
      var wr := if line.valid && line.dirty
                then L2Access(c, rd.post, address, ModeWrite, rd.post.l1[base..base + c.wordSize])
                else Outcome(true, rd.post, [], []);
      if !wr.ok then Outcome(false, wr.post, [], rd.steps + wr.steps)
      else
        var s3 := wr.post;
        Outcome(true, s3.(l1 := Splice(s3.l1, base, temp),
                          l1Lines := s3.l1Lines[sp.index := CacheLine(true, IsL2Dirty(s3, address), sp.tag)]),
                [], rd.steps + wr.steps)
  }

  /** Serving the word in L1: a read copies it out; a write copies it in and
      marks the line dirty. */
  function L1Serve(c: Config, s: State, address: Word32, mode: Mode, data: seq<Byte>, steps: seq<Step>): (r: Outcome)
    requires WellFormed(c, s) && Request(c, address, mode, data)
    ensures WellFormed(c, r.post)
  {
    var sp := SplitL1(address);
    var at := sp.index * BLOCK_SIZE + sp.offset;
    match mode
    case ModeRead =>
      Outcome(true, s.(time := s.time + c.l1ReadTime), s.l1[at..at + c.wordSize], steps + [L1Read])
    case ModeWrite =>
      Outcome(true, s.(l1 := Splice(s.l1, at, data), time := s.time + c.l1WriteTime,
                       l1Lines := s.l1Lines[sp.index := s.l1Lines[sp.index].(dirty := true)]),
              [], steps + [L1Write])
  }

  /** `accessL1(address, data, mode)`, with `stale` the initial bytes of its
      local `TempBlock`. */
  function Access(c: Config, s: State, address: Word32, mode: Mode, data: seq<Byte>, stale: seq<Byte>): (r: Outcome)
    requires ValidConfig(c) && WellFormed(c, s) && Request(c, address, mode, data) && |stale| == BLOCK_SIZE
    ensures WellFormed(c, r.post)
  {
    var p := s.(init := true);
    var sp := SplitL1(address);
    if Hit(p.l1Lines[sp.index], sp.tag) then
      L1Serve(c, p, address, mode, data, [])
    else
      var f := L1Fill(c, p, address, stale);
      if !f.ok then f else L1Serve(c, f.post, address, mode, data, f.steps)
  }

  class Simulator {
    const cfg: Config
    var init: bool
    const l1Lines: array<CacheLine>
    const l2Lines: array<CacheLine>
    const l1Cache: array<Byte>
    const l2Cache: array<Byte>
    const dram: array<Byte>
    var time: nat

    ghost predicate Valid() {
      ValidConfig(cfg) && l1Lines.Length == L1_NUM_LINES && l2Lines.Length == L2_NUM_LINES
      && l1Cache.Length == L1_SIZE && l2Cache.Length == L2_SIZE && dram.Length == cfg.dramSize
      && l1Lines != l2Lines && l1Cache != l2Cache && l1Cache != dram && l2Cache != dram
      && l1Lines as object != l1Cache && l1Lines as object != l2Cache && l1Lines as object != dram
      && l2Lines as object != l1Cache && l2Lines as object != l2Cache && l2Lines as object != dram
    }

    ghost function Abs(): (s: State)
      reads this, l1Lines, l2Lines, l1Cache, l2Cache, dram
      ensures Valid() ==> WellFormed(cfg, s)
    {
      State(init, l1Lines[..], l2Lines[..], l1Cache[..], l2Cache[..], dram[..], time)
    }

    /** The globals as the program starts: all of static storage is zero. */
    constructor (c: Config)
      requires ValidConfig(c)
      ensures Valid() && cfg == c
      ensures fresh(l1Lines) && fresh(l2Lines) && fresh(l1Cache) && fresh(l2Cache) && fresh(dram)
      ensures Abs() == State(false, seq(L1_NUM_LINES, _ => EMPTY_LINE), seq(L2_NUM_LINES, _ => EMPTY_LINE),
                             seq(L1_SIZE, _ => 0), seq(L2_SIZE, _ => 0), seq(c.dramSize, _ => 0), 0)
    {
      cfg := c;
      init := false;
      l1Lines := new CacheLine[L1_NUM_LINES](_ => EMPTY_LINE);
      l2Lines := new CacheLine[L2_NUM_LINES](_ => EMPTY_LINE);
      l1Cache := new Byte[L1_SIZE](_ => 0);
      l2Cache := new Byte[L2_SIZE](_ => 0);
      dram := new Byte[c.dramSize](_ => 0);
      time := 0;
    }

    method ResetTime()
      modifies this`time
      ensures time == 0
    {
      time := 0;
    }

    method GetTime() returns (t: nat)
      ensures t == time
    {
      t := time;
    }

    /** `accessDRAM` at the numeric address `a`. */
    method AccessDram(a: nat, data: seq<Byte>, mode: Mode) returns (ok: bool, block: seq<Byte>)
      requires Valid() && a % 64 == 0 && (mode == ModeWrite ==> |data| == BLOCK_SIZE)
      modifies this`time, dram
      ensures var r := DramAccess(cfg, old(dram[..]), old(time), a, mode, data);
        ok == r.ok && block == r.block && dram[..] == r.dram && time == r.time
    {
      if a >= cfg.dramSize - cfg.wordSize + 1 {
        return false, [];
      }
      WholeBlocks(a, cfg.wordSize, cfg.dramSize);
      ok, block := true, [];
      if mode == ModeRead {
        block := dram[a..a + BLOCK_SIZE];
        time := time + cfg.dramReadTime;
      } else {
        CopyInto(dram, a, data);
        time := time + cfg.dramWriteTime;
      }
    }

    /** `initCache`: clears the flag and every line of both levels. */
    method InitCache()
      requires Valid()
      modifies this`init, l1Lines, l2Lines
      ensures Abs() == Cleared(old(Abs()))
    {
      init := false;
      for i := 0 to L1_NUM_LINES
        modifies l1Lines
        invariant forall j :: 0 <= j < i ==> l1Lines[j] == EMPTY_LINE
      {
        l1Lines[i] := EMPTY_LINE;
      }
      for i := 0 to L2_NUM_LINES
        modifies l2Lines
        invariant forall j :: 0 <= j < i ==> l2Lines[j] == EMPTY_LINE
        invariant forall j :: 0 <= j < L1_NUM_LINES ==> l1Lines[j] == EMPTY_LINE
      {
        l2Lines[i] := EMPTY_LINE;
      }
      assert l1Lines[..] == seq(L1_NUM_LINES, _ => EMPTY_LINE);
      assert l2Lines[..] == seq(L2_NUM_LINES, _ => EMPTY_LINE);
    }

    /** `is_L1_dirty(address)`. */
    method IsL1DirtyBit(address: Word32) returns (d: bool)
      requires Valid()
      ensures d == IsL1Dirty(Abs(), address)
    {
      d := l1Lines[SplitL1(address).index].dirty;
    }

    /** `is_L2_dirty(address)`. */
    method IsL2DirtyBit(address: Word32) returns (d: bool)
      requires Valid()
      ensures d == IsL2Dirty(Abs(), address)
    {
      d := l2Lines[SplitL2(address).index].dirty;
    }

    /** Lines 154-157: the L2 victim goes back to DRAM at the incoming
        `MemAddress` when it is valid and dirty. */
    method L2WriteBackVictim(sp: Split) returns (ok: bool)
      requires Valid() && sp.index < L2_NUM_LINES && sp.memAddress % 64 == 0
      modifies this`time, dram
      ensures var r := L2WriteBack(cfg, old(Abs()), sp); ok == r.ok && Abs() == r.post
    {
      var line := l2Lines[sp.index];
      ok := true;
      if line.valid && line.dirty {
        var base := sp.index * BLOCK_SIZE;
        DramAccessEffects(cfg, dram[..], time, sp.memAddress, ModeWrite, l2Cache[base..base + BLOCK_SIZE]);
        var unused;
        ok, unused := AccessDram(sp.memAddress, l2Cache[base..base + BLOCK_SIZE], ModeWrite);
      }
    }

    /** The miss branch of `accessL2`. */
    method L2Miss(sp: Split) returns (ok: bool)
      requires Valid() && sp.index < L2_NUM_LINES && sp.memAddress % 64 == 0
      modifies this`time, l2Lines, l2Cache, dram
      ensures var r := L2Fill(cfg, old(Abs()), sp); ok == r.ok && Abs() == r.post
    {
      ghost var fetch := DramAccess(cfg, dram[..], time, sp.memAddress, ModeRead, []);
      DramAccessEffects(cfg, dram[..], time, sp.memAddress, ModeRead, []);
      var temp;
      ok, temp := AccessDram(sp.memAddress, [], ModeRead);
      if !ok {
        return;
      }
      ok := L2WriteBackVictim(sp);
      if !ok {
        return;
      }
      ghost var w := Abs();
      CopyInto(l2Cache, sp.index * BLOCK_SIZE, temp);
      l2Lines[sp.index] := CacheLine(valid := true, dirty := false, tag := sp.tag);
      assert Abs() == L2Install(w, sp, fetch.block);
    }

    /** Lines 166-175: the word is copied out of or into the L2 line. */
    method L2ServeWord(address: Word32, mode: Mode, data: seq<Byte>) returns (word: seq<Byte>)
      requires Valid() && Request(cfg, address, mode, data)
      modifies this`time, l2Lines, l2Cache
      ensures var r := L2Serve(cfg, old(Abs()), address, mode, data, []); word == r.word && Abs() == r.post
    {
      var sp := SplitL2(address);
      var at := sp.index * BLOCK_SIZE + sp.offset;
      word := [];
      if mode == ModeRead {
        word := l2Cache[at..at + cfg.wordSize];
        time := time + cfg.l2ReadTime;
      }
      if mode == ModeWrite {
        ghost var s := Abs();
        CopyInto(l2Cache, at, data);
        time := time + cfg.l2WriteTime;
        var d := IsL1DirtyBit(address);
        assert d == IsL1Dirty(s, address);
        l2Lines[sp.index] := l2Lines[sp.index].(dirty := d);
        assert l1Lines[..] == s.l1Lines && l1Cache[..] == s.l1 && dram[..] == s.dram;
      }
    }

    /** `accessL2(address, data, mode)`. */
    method AccessL2(address: Word32, data: seq<Byte>, mode: Mode) returns (ok: bool, word: seq<Byte>)
      requires Valid() && Request(cfg, address, mode, data)
      modifies this`init, this`time, l2Lines, l2Cache, dram
      ensures var r := L2Access(cfg, old(Abs()), address, mode, data);
        ok == r.ok && word == r.word && Abs() == r.post
    {
      init := true;
      var sp := SplitL2(address);
      var line := l2Lines[sp.index];
      if !line.valid || line.tag != sp.tag {
        ok := L2Miss(sp);
        if !ok {
          return ok, [];
        }
      }
      ok := true;
      word := L2ServeWord(address, mode, data);
    }

    /** The miss branch of `accessL1`. */
    method L1Miss(address: Word32, stale: seq<Byte>) returns (ok: bool)
      requires Valid() && Request(cfg, address, ModeRead, []) && |stale| == BLOCK_SIZE
      modifies this`init, this`time, l1Lines, l1Cache, l2Lines, l2Cache, dram
      ensures var r := L1Fill(cfg, old(Abs()), address, stale); ok == r.ok && Abs() == r.post
    {
      var sp := SplitL1(address);
      var base := sp.index * BLOCK_SIZE;
      var line := l1Lines[sp.index];
      ghost var rd := L2Access(cfg, Abs(), address, ModeRead, []);
      var word;
      ok, word := AccessL2(address, [], ModeRead);
      if !ok {
        return;
      }
      assert Abs() == rd.post && line == rd.post.l1Lines[sp.index];
      var temp := word + stale[cfg.wordSize..];
      ghost var wr := if line.valid && line.dirty
                      then L2Access(cfg, rd.post, address, ModeWrite, rd.post.l1[base..base + cfg.wordSize])
                      else Outcome(true, rd.post, [], []);
      ok := L1WriteBack(address);
      if !ok {
        return;
      }
      L1Install(address, temp);
      assert L1Fill(cfg, old(Abs()), address, stale)
          == Outcome(true, wr.post.(l1 := Splice(wr.post.l1, base, temp),
                                    l1Lines := wr.post.l1Lines[sp.index := CacheLine(true, IsL2Dirty(wr.post, address), sp.tag)]),
                     [], rd.steps + wr.steps);
    }

    /** Lines 89-92: a valid dirty victim line is written to L2 through
        `accessL2(address, block_ptr, MODE_WRITE)`, which stores its first
        `WORD_SIZE` bytes. */
    method L1WriteBack(address: Word32) returns (ok: bool)
      requires Valid() && Request(cfg, address, ModeRead, [])
      modifies this`init, this`time, l2Lines, l2Cache, dram
      ensures var s := old(Abs()); var line := s.l1Lines[SplitL1(address).index];
        var base := SplitL1(address).index * BLOCK_SIZE;
        var wr := if line.valid && line.dirty
                  then L2Access(cfg, s, address, ModeWrite, s.l1[base..base + cfg.wordSize])
                  else Outcome(true, s, [], []);
        ok == wr.ok && Abs() == wr.post
    {
      var sp := SplitL1(address);
      var base := sp.index * BLOCK_SIZE;
      var line := l1Lines[sp.index];
      ok := true;
      if line.valid && line.dirty {
        var unused;
        ok, unused := AccessL2(address, l1Cache[base..base + cfg.wordSize], ModeWrite);
      }
    }

    /** Lines 94-97: the block is copied into the L1 line, which becomes
        valid with the request tag and the dirty bit `is_L2_dirty` reports. */
    method L1Install(address: Word32, temp: seq<Byte>)
      requires Valid() && |temp| == BLOCK_SIZE
      modifies l1Lines, l1Cache
      ensures var s := old(Abs()); var sp := SplitL1(address);
        Abs() == s.(l1 := Splice(s.l1, sp.index * BLOCK_SIZE, temp),
                    l1Lines := s.l1Lines[sp.index := CacheLine(true, IsL2Dirty(s, address), sp.tag)])
    {
      var sp := SplitL1(address);
      ghost var s := Abs();
      CopyInto(l1Cache, sp.index * BLOCK_SIZE, temp);
      var d := IsL2DirtyBit(address);
      assert d == IsL2Dirty(s, address);
      l1Lines[sp.index] := CacheLine(valid := true, dirty := d, tag := sp.tag);
    }

    /** Lines 101-110: the word is copied out of or into the L1 line. */
    method L1ServeWord(address: Word32, mode: Mode, data: seq<Byte>) returns (word: seq<Byte>)
      requires Valid() && Request(cfg, address, mode, data)
      modifies this`time, l1Lines, l1Cache
      ensures var r := L1Serve(cfg, old(Abs()), address, mode, data, []); word == r.word && Abs() == r.post
    {
      var sp := SplitL1(address);
      var at := sp.index * BLOCK_SIZE + sp.offset;
      word := [];
      if mode == ModeRead {
        word := l1Cache[at..at + cfg.wordSize];
        time := time + cfg.l1ReadTime;
      }
      if mode == ModeWrite {
        ghost var s := Abs();
        CopyInto(l1Cache, at, data);
        time := time + cfg.l1WriteTime;
        l1Lines[sp.index] := l1Lines[sp.index].(dirty := true);
        assert l2Lines[..] == s.l2Lines && l2Cache[..] == s.l2 && dram[..] == s.dram;
        assert l1Cache[..] == Splice(s.l1, at, data);
        assert l1Lines[..] == s.l1Lines[sp.index := s.l1Lines[sp.index].(dirty := true)];
      }
    }

    /** `accessL1(address, data, mode)`; `stale` stands for the uninitialised
        bytes of its local `TempBlock`. */
    method AccessL1(address: Word32, data: seq<Byte>, mode: Mode, stale: seq<Byte>) returns (ok: bool, word: seq<Byte>)
      requires Valid() && Request(cfg, address, mode, data) && |stale| == BLOCK_SIZE
      modifies this, l1Lines, l1Cache, l2Lines, l2Cache, dram
      ensures Valid()
      ensures var r := Access(cfg, old(Abs()), address, mode, data, stale);
        ok == r.ok && word == r.word && Abs() == r.post
    {
      init := true;
      var sp := SplitL1(address);
      var line := l1Lines[sp.index];
      if !line.valid || line.tag != sp.tag {
        ok := L1Miss(address, stale);
        if !ok {
          return ok, [];
        }
      }
      ok := true;
      word := L1ServeWord(address, mode, data);
    }

    method Read(address: Word32, stale: seq<Byte>) returns (ok: bool, word: seq<Byte>)
      requires Valid() && Request(cfg, address, ModeRead, []) && |stale| == BLOCK_SIZE
      modifies this, l1Lines, l1Cache, l2Lines, l2Cache, dram
      ensures Valid()
      ensures var r := Access(cfg, old(Abs()), address, ModeRead, [], stale);
        ok == r.ok && word == r.word && Abs() == r.post
    {
      ok, word := AccessL1(address, [], ModeRead, stale);
    }

    method Write(address: Word32, data: seq<Byte>, stale: seq<Byte>) returns (ok: bool)
      requires Valid() && Request(cfg, address, ModeWrite, data) && |stale| == BLOCK_SIZE
      modifies this, l1Lines, l1Cache, l2Lines, l2Cache, dram
      ensures Valid()
      ensures ok == Access(cfg, old(Abs()), address, ModeWrite, data, stale).ok
      ensures Abs() == Access(cfg, old(Abs()), address, ModeWrite, data, stale).post
    {
      var unused;
      ok, unused := AccessL1(address, data, ModeWrite, stale);
    }
  }
}
