/** The single-level variant: one direct-mapped, write-back, write-allocate L1
    of 256 lines over DRAM (task1/L1Cache.c). */
module L1Cache {
  import opened CacheCommon
  import opened Address

  /** The simulator's globals: `SimpleCache1` (init flag and lines), the byte
      arrays `L1Cache` and `DRAM`, and `time`. */
  datatype State = State(init: bool, lines: seq<CacheLine>, l1: seq<Byte>, dram: seq<Byte>, time: nat)

  predicate WellFormed(c: Config, s: State) {
    |s.lines| == L1_NUM_LINES && |s.l1| == L1_SIZE && |s.dram| == c.dramSize
  }

  /** What an access did: whether it ran to the end (`ok`, false where the C
      calls `exit(-1)`), the state reached, the word read, and the steps taken. */
  datatype Outcome = Outcome(ok: bool, post: State, word: seq<Byte>, steps: seq<Step>)

  /** What callers must provide: the word lies inside its block, and a write
      supplies one word. */
  predicate Request(c: Config, address: Word32, mode: Mode, data: seq<Byte>) {
    SplitL1(address).offset as int + c.wordSize <= BLOCK_SIZE
    && (mode == ModeWrite ==> |data| == c.wordSize)
  }

  /** The state after the lazy clearing at the top of `accessL1`: the first
      access after `initCache` resets every line. */
  function Prepared(s: State): (r: State)
    ensures r.init && (s.init ==> r == s)
    ensures !s.init ==> |r.lines| == L1_NUM_LINES && forall i :: 0 <= i < |r.lines| ==> !r.lines[i].valid && !r.lines[i].dirty
    ensures r.l1 == s.l1 && r.dram == s.dram && r.time == s.time
  {
    if s.init then s else s.(init := true, lines := seq(L1_NUM_LINES, _ => EMPTY_LINE))
  }

  /** The victim write-back of a miss: a valid and dirty line `idx` is
      written to DRAM at `Tag << 6`; any other line is dropped. */
  function WriteBack(c: Config, s: State, idx: nat): (r: Outcome)
    requires ValidConfig(c) && WellFormed(c, s) && idx < L1_NUM_LINES
    ensures WellFormed(c, r.post)
  {
    var line := s.lines[idx];
    if line.valid && line.dirty then
      var victimAddress := ShiftLeft(line.tag, 6);
      ShiftLeft6Aligned(line.tag);
      var back := DramAccess(c, s.dram, s.time, victimAddress, ModeWrite, s.l1[idx * BLOCK_SIZE..idx * BLOCK_SIZE + BLOCK_SIZE]);
      if !back.ok then Outcome(false, s, [], [])
      else Outcome(true, s.(dram := back.dram, time := back.time), [], [DramWrite(victimAddress)])
    else
      Outcome(true, s, [], [])
  }

  /** The new block copied into line `idx`, which becomes valid and clean. */
  function Install(s: State, sp: Split, block: seq<Byte>): (r: State)
    requires |s.lines| == L1_NUM_LINES && |s.l1| == L1_SIZE && sp.index < L1_NUM_LINES && |block| == BLOCK_SIZE
  {
    s.(l1 := Splice(s.l1, sp.index * BLOCK_SIZE, block), lines := s.lines[sp.index := CacheLine(true, false, sp.tag)])
  }

  /** Miss handling: fetch the block at `memAddress`, write the victim back,
      then install the fetched block. */
  function Fill(c: Config, s: State, sp: Split): (r: Outcome)
    requires ValidConfig(c) && WellFormed(c, s) && sp.index < L1_NUM_LINES && sp.memAddress % 64 == 0
    ensures WellFormed(c, r.post)
  {
    var fetch := DramAccess(c, s.dram, s.time, sp.memAddress, ModeRead, []);
    DramAccessEffects(c, s.dram, s.time, sp.memAddress, ModeRead, []);
    if !fetch.ok then Outcome(false, s, [], [])
    else
      var w := WriteBack(c, s.(time := fetch.time), sp.index);
      if !w.ok then Outcome(false, w.post, [], [DramRead(sp.memAddress)])
      else Outcome(true, Install(w.post, sp, fetch.block), [], [DramRead(sp.memAddress)] + w.steps)
  }

  /** Serving the word: a read copies it out, a write copies it in and marks
      the line dirty; each adds the L1 latency. */
  function Serve(c: Config, s: State, sp: Split, mode: Mode, data: seq<Byte>, steps: seq<Step>): (r: Outcome)
    requires WellFormed(c, s) && sp.index < 256 && sp.offset + c.wordSize <= BLOCK_SIZE
    requires mode == ModeWrite ==> |data| == c.wordSize
    ensures WellFormed(c, r.post)
  {
    var idx := sp.index;
    var at := idx * BLOCK_SIZE + sp.offset;
    match mode
    case ModeRead =>
      Outcome(true, s.(time := s.time + c.l1ReadTime), s.l1[at..at + c.wordSize], steps + [L1Read])
    case ModeWrite =>
      Outcome(true, s.(l1 := Splice(s.l1, at, data), time := s.time + c.l1WriteTime,
                       lines := s.lines[idx := s.lines[idx].(dirty := true)]),
              [], steps + [L1Write])
  }

  /** `accessL1(address, data, mode)`. */
  function Access(c: Config, s: State, address: Word32, mode: Mode, data: seq<Byte>): (r: Outcome)
    requires ValidConfig(c) && WellFormed(c, s) && Request(c, address, mode, data)
    ensures WellFormed(c, r.post)
  {
    var p := Prepared(s);
    var sp := SplitL1(address);
    if Hit(p.lines[sp.index], sp.tag) then
      Serve(c, p, sp, mode, data, [])
    else
      var f := Fill(c, p, sp);
      if !f.ok then f else Serve(c, f.post, sp, mode, data, f.steps)
  }

  class Simulator {
    const cfg: Config
    var init: bool
    const lines: array<CacheLine>
    const l1Cache: array<Byte>
    const dram: array<Byte>
    var time: nat

    ghost predicate Valid() {
      ValidConfig(cfg) && lines.Length == L1_NUM_LINES && l1Cache.Length == L1_SIZE
      && dram.Length == cfg.dramSize && l1Cache != dram
      && lines as object != l1Cache && lines as object != dram
    }

    ghost function Abs(): (s: State)
      reads this, lines, l1Cache, dram
      ensures Valid() ==> WellFormed(cfg, s)
    {
      State(init, lines[..], l1Cache[..], dram[..], time)
    }

    /** The globals as the program starts: all of static storage is zero. */
    constructor (c: Config)
      requires ValidConfig(c)
      ensures Valid() && fresh(lines) && fresh(l1Cache) && fresh(dram)
      ensures cfg == c
      ensures Abs() == State(false, seq(L1_NUM_LINES, _ => EMPTY_LINE), seq(L1_SIZE, _ => 0), seq(c.dramSize, _ => 0), 0)
    {
      cfg := c;
      init := false;
      lines := new CacheLine[L1_NUM_LINES](_ => EMPTY_LINE);
      l1Cache := new Byte[L1_SIZE](_ => 0);
      dram := new Byte[c.dramSize](_ => 0);
      time := 0;
    }

    method ResetTime()
      modifies this`time
      ensures time == 0
    {
      time := 0;
    }

    method GetTime() returns (t: nat)
      ensures t == time
    {
      t := time;
    }

    /** `accessDRAM` at the numeric address `a`. */
    method AccessDram(a: nat, data: seq<Byte>, mode: Mode) returns (ok: bool, block: seq<Byte>)
      requires Valid() && a % 64 == 0 && (mode == ModeWrite ==> |data| == BLOCK_SIZE)
      modifies this`time, dram
      ensures var r := DramAccess(cfg, old(dram[..]), old(time), a, mode, data);
        ok == r.ok && block == r.block && dram[..] == r.dram && time == r.time
    {
      if a >= cfg.dramSize - cfg.wordSize + 1 {
        return false, [];
      }
      WholeBlocks(a, cfg.wordSize, cfg.dramSize);
      ok, block := true, [];
      if mode == ModeRead {
        block := dram[a..a + BLOCK_SIZE];
        time := time + cfg.dramReadTime;
      } else {
        CopyInto(dram, a, data);
        time := time + cfg.dramWriteTime;
      }
    }

    /** `initCache` only clears the init flag; the lines are cleared lazily. */
    method InitCache()
      modifies this`init
      ensures !init
    {
      init := false;
    }

    /** Lines 80-85: the victim of line `idx` goes back to DRAM at
        `Tag << 6` when it is valid and dirty. */
    method WriteBackVictim(idx: nat) returns (ok: bool)
      requires Valid() && idx < L1_NUM_LINES
      modifies this`time, dram
      ensures var r := WriteBack(cfg, old(Abs()), idx); ok == r.ok && Abs() == r.post
    {
      var line := lines[idx];
      ok := true;
      if line.valid && line.dirty {
        var victimAddress := ShiftLeft(line.tag, 6);
        ShiftLeft6Aligned(line.tag);
        var base := idx * BLOCK_SIZE;
        DramAccessEffects(cfg, dram[..], time, victimAddress, ModeWrite, l1Cache[base..base + BLOCK_SIZE]);
        var unused;
        ok, unused := AccessDram(victimAddress, l1Cache[base..base + BLOCK_SIZE], ModeWrite);
      }
    }

    /** The miss branch of `accessL1`. */
    method Miss(sp: Split) returns (ok: bool)
      requires Valid() && sp.index < L1_NUM_LINES && sp.memAddress % 64 == 0
      modifies this`time, lines, l1Cache, dram
      ensures var r := Fill(cfg, old(Abs()), sp); ok == r.ok && Abs() == r.post
    {
      ghost var fetch := DramAccess(cfg, dram[..], time, sp.memAddress, ModeRead, []);
      DramAccessEffects(cfg, dram[..], time, sp.memAddress, ModeRead, []);
      var temp;
      ok, temp := AccessDram(sp.memAddress, [], ModeRead);
      if !ok {
        return;
      }
      ok := WriteBackVictim(sp.index);
      if !ok {
        return;
      }
      ghost var w := Abs();
      CopyInto(l1Cache, sp.index * BLOCK_SIZE, temp);
      lines[sp.index] := CacheLine(valid := true, dirty := false, tag := sp.tag);
      assert Abs() == Install(w, sp, fetch.block);
    }

    /** Lines 94-103: the word is copied out or in at the line's offset. */
    method ServeWord(sp: Split, mode: Mode, data: seq<Byte>) returns (word: seq<Byte>)
      requires Valid() && sp.index < L1_NUM_LINES && sp.offset + cfg.wordSize <= BLOCK_SIZE
      requires mode == ModeWrite ==> |data| == cfg.wordSize
      modifies this`time, lines, l1Cache
      ensures var r := Serve(cfg, old(Abs()), sp, mode, data, []); word == r.word && Abs() == r.post
    {
      var at := sp.index * BLOCK_SIZE + sp.offset;
      word := [];
      if mode == ModeRead {
        word := l1Cache[at..at + cfg.wordSize];
        time := time + cfg.l1ReadTime;
      }
      if mode == ModeWrite {
        CopyInto(l1Cache, at, data);
        time := time + cfg.l1WriteTime;
        lines[sp.index] := lines[sp.index].(dirty := true);
      }
    }

    method AccessL1(address: Word32, data: seq<Byte>, mode: Mode) returns (ok: bool, word: seq<Byte>)
      requires Valid() && Request(cfg, address, mode, data)
      modifies this, lines, l1Cache, dram
      ensures Valid()
      ensures var r := Access(cfg, old(Abs()), address, mode, data);
        ok == r.ok && word == r.word && Abs() == r.post
    {
      ghost var s0 := Abs();
      if !init {
        init := true;
        for i := 0 to L1_NUM_LINES
          modifies lines
          invariant forall j :: 0 <= j < i ==> lines[j] == EMPTY_LINE
        {
          lines[i] := EMPTY_LINE;
        }
        assert lines[..] == seq(L1_NUM_LINES, _ => EMPTY_LINE);
      }
      assert Abs() == Prepared(s0);

      var sp := SplitL1(address);
      var line := lines[sp.index];

      if !line.valid || line.tag != sp.tag {
        var filled := Miss(sp);
        if !filled {
          return false, [];
        }
      }

      ok := true;
      word := ServeWord(sp, mode, data);
    }

    method Read(address: Word32) returns (ok: bool, word: seq<Byte>)
      requires Valid() && Request(cfg, address, ModeRead, [])
      modifies this, lines, l1Cache, dram
      ensures Valid()
      ensures var r := Access(cfg, old(Abs()), address, ModeRead, []);
        ok == r.ok && word == r.word && Abs() == r.post
    {
      ok, word := AccessL1(address, [], ModeRead);
    }

    method Write(address: Word32, data: seq<Byte>) returns (ok: bool)
      requires Valid() && Request(cfg, address, ModeWrite, data)
      modifies this, lines, l1Cache, dram
      ensures Valid()
      ensures ok == Access(cfg, old(Abs()), address, ModeWrite, data).ok
      ensures Abs() == Access(cfg, old(Abs()), address, ModeWrite, data).post
    {
      var unused;
      ok, unused := AccessL1(address, data, ModeWrite);
    }
  }
}
