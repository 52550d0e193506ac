/** What one access of the single-level cache (task1/L1Cache.c) guarantees:
    the hit test, the order of the DRAM steps of a miss, the state of the
    indexed line afterwards, the locality of the update, the timing, and a
    write followed by a read of the same address. */
module L1CacheProperties {
  import opened Address
  import opened CacheCommon
  import opened L1Cache

  /** The victim the miss of `address` writes back, if any, and where. */
  predicate DirtyVictim(s: State, address: Word32)
    requires |s.lines| == L1_NUM_LINES
  {
    var line := Prepared(s).lines[SplitL1(address).index];
    line.valid && line.dirty
  }

  function VictimAddress(s: State, address: Word32): (a: Word32)
    requires |s.lines| == L1_NUM_LINES
    ensures a % 64 == 0
  {
    var line := Prepared(s).lines[SplitL1(address).index];
    ShiftLeft6Aligned(line.tag);
    ShiftLeft(line.tag, 6)
  }

  /** The old bytes of the indexed line. */
  function OldBlock(s: State, address: Word32): (b: seq<Byte>)
    requires |s.l1| == L1_SIZE
    ensures |b| == BLOCK_SIZE
  {
    var base := SplitL1(address).index * BLOCK_SIZE;
    s.l1[base..base + BLOCK_SIZE]
  }

  /** A completed miss leaves the fetched DRAM block in the indexed line. */
  lemma FillInstallsBlock(c: Config, s: State, sp: Split)
    requires ValidConfig(c) && WellFormed(c, s) && sp.index < L1_NUM_LINES && sp.memAddress % 64 == 0
    ensures var r := Fill(c, s, sp); var base := sp.index * BLOCK_SIZE;
      r.ok ==> (sp.memAddress + BLOCK_SIZE <= |s.dram|
                && r.post.l1[base..base + BLOCK_SIZE] == s.dram[sp.memAddress..sp.memAddress + BLOCK_SIZE])
  {
    FillEffects(c, s, sp);
  }

  /** The write-back step as `WriteBack` takes it. */
  lemma WriteBackEffects(c: Config, s: State, idx: nat)
    requires ValidConfig(c) && WellFormed(c, s) && idx < L1_NUM_LINES
    ensures var r := WriteBack(c, s, idx); var line := s.lines[idx];
      && r.post.l1 == s.l1 && r.post.lines == s.lines && r.post.init == s.init
      && (r.ok <==> !(line.valid && line.dirty) || !DramFault(c, ShiftLeft(line.tag, 6)))
      && (!r.ok ==> r.post == s && r.steps == [])
      && (r.ok && !(line.valid && line.dirty) ==> r.post == s && r.steps == [])
      && (r.ok && line.valid && line.dirty ==>
            r.steps == [DramWrite(ShiftLeft(line.tag, 6))]
            && r.post.time == s.time + c.dramWriteTime
            && HoldsAt(r.post.dram, ShiftLeft(line.tag, 6), s.l1[idx * BLOCK_SIZE..idx * BLOCK_SIZE + BLOCK_SIZE])
            && forall i :: 0 <= i < |s.dram| && !(ShiftLeft(line.tag, 6) <= i < ShiftLeft(line.tag, 6) + BLOCK_SIZE) ==>
                 r.post.dram[i] == s.dram[i])
  {
    var line := s.lines[idx];
    if line.valid && line.dirty {
      ShiftLeft6Aligned(line.tag);
      DramAccessEffects(c, s.dram, s.time, ShiftLeft(line.tag, 6), ModeWrite, s.l1[idx * BLOCK_SIZE..idx * BLOCK_SIZE + BLOCK_SIZE]);
    }
  }

  /** A miss as `Fill` takes it: one DRAM read of the aligned block, then the
      write-back of a valid dirty victim, then the install. */
  lemma FillEffects(c: Config, s: State, sp: Split)
    requires ValidConfig(c) && WellFormed(c, s) && sp.index < L1_NUM_LINES && sp.memAddress % 64 == 0
    ensures var r := Fill(c, s, sp); var line := s.lines[sp.index];
      var wb := ShiftLeft(line.tag, 6); var base := sp.index * BLOCK_SIZE;
      && (r.ok <==> !DramFault(c, sp.memAddress) && (!(line.valid && line.dirty) || !DramFault(c, wb)))
      && r.post.init == s.init
      && (r.ok ==>
            && r.steps == [DramRead(sp.memAddress)] + (if line.valid && line.dirty then [DramWrite(wb)] else [])
            && r.post.time == s.time + c.dramReadTime + (if line.valid && line.dirty then c.dramWriteTime else 0)
            && r.post.lines == s.lines[sp.index := CacheLine(true, false, sp.tag)]
            && HoldsAt(r.post.l1, base, s.dram[sp.memAddress..sp.memAddress + BLOCK_SIZE])
            && (forall i :: 0 <= i < L1_SIZE && !(base <= i < base + BLOCK_SIZE) ==> r.post.l1[i] == s.l1[i])
            && (line.valid && line.dirty ==> HoldsAt(r.post.dram, wb, s.l1[base..base + BLOCK_SIZE]))
            && (forall i :: 0 <= i < |s.dram| && !(line.valid && line.dirty && wb <= i < wb + BLOCK_SIZE) ==>
                  r.post.dram[i] == s.dram[i]))
      && (!r.ok ==> r.post.lines == s.lines && r.post.l1 == s.l1)
  {
    var fetch := DramAccess(c, s.dram, s.time, sp.memAddress, ModeRead, []);
    DramAccessEffects(c, s.dram, s.time, sp.memAddress, ModeRead, []);
    if fetch.ok {
      WriteBackEffects(c, s.(time := fetch.time), sp.index);
    }
  }

  /** Serving the word as `Serve` does it. */
  lemma ServeEffects(c: Config, s: State, sp: Split, mode: Mode, data: seq<Byte>, steps: seq<Step>)
    requires WellFormed(c, s) && sp.index < L1_NUM_LINES && sp.offset + c.wordSize <= BLOCK_SIZE
    requires mode == ModeWrite ==> |data| == c.wordSize
    ensures var r := Serve(c, s, sp, mode, data, steps); var at := sp.index * BLOCK_SIZE + sp.offset;
      && r.ok && r.steps == steps + [L1Step(mode)] && r.post.time == s.time + Cost(c, L1Step(mode))
      && r.post.dram == s.dram && r.post.init == s.init
      && (mode == ModeRead ==> r.word == s.l1[at..at + c.wordSize] && r.post.l1 == s.l1 && r.post.lines == s.lines)
      && (mode == ModeWrite ==>
            HoldsAt(r.post.l1, at, data)
            && (forall i :: 0 <= i < |s.l1| && !(at <= i < at + c.wordSize) ==> r.post.l1[i] == s.l1[i])
            && r.post.lines == s.lines[sp.index := s.lines[sp.index].(dirty := true)])
  {
  }

  /** `initCache` only clears the flag; the next access then finds every
      line cleared, and afterwards every line but the indexed one is still
      clear. */
  lemma FirstAccessClearsLines(c: Config, s: State, address: Word32, mode: Mode, data: seq<Byte>)
    requires ValidConfig(c) && WellFormed(c, s) && Request(c, address, mode, data) && !s.init
    ensures forall j :: 0 <= j < L1_NUM_LINES ==> Prepared(s).lines[j] == EMPTY_LINE
    ensures var r := Access(c, s, address, mode, data);
      r.post.init && forall j :: 0 <= j < L1_NUM_LINES && j != SplitL1(address).index ==> r.post.lines[j] == EMPTY_LINE
  {
    LinesOutsideIndexKept(c, s, address, mode, data);
  }

  /** Whatever the outcome, only the indexed line and its block of bytes may
      differ from the state the access started from (after the lazy
      clearing). */
  lemma LinesOutsideIndexKept(c: Config, s: State, address: Word32, mode: Mode, data: seq<Byte>)
    requires ValidConfig(c) && WellFormed(c, s) && Request(c, address, mode, data)
    ensures var r := Access(c, s, address, mode, data); var idx := SplitL1(address).index;
      && r.post.init
      && (forall j :: 0 <= j < L1_NUM_LINES && j != idx ==> r.post.lines[j] == Prepared(s).lines[j])
      && (forall i :: 0 <= i < L1_SIZE && !(idx * BLOCK_SIZE <= i < idx * BLOCK_SIZE + BLOCK_SIZE) ==> r.post.l1[i] == s.l1[i])
  {
    var p := Prepared(s);
    var sp := SplitL1(address);
    if Hit(p.lines[sp.index], sp.tag) {
      ServeEffects(c, p, sp, mode, data, []);
    } else {
      FillEffects(c, p, sp);
      var f := Fill(c, p, sp);
      if f.ok {
        ServeEffects(c, f.post, sp, mode, data, f.steps);
      }
    }
  }

  /** An access is served without any DRAM step exactly when the indexed
      line is valid and holds the request tag; a hit leaves DRAM alone and
      costs exactly the L1 latency of its mode. */
  lemma HitCharacterisation(c: Config, s: State, address: Word32, mode: Mode, data: seq<Byte>)
    requires ValidConfig(c) && WellFormed(c, s) && Request(c, address, mode, data)
    ensures var r := Access(c, s, address, mode, data); var sp := SplitL1(address);
      (r.ok && r.steps == [L1Step(mode)]) <==> Hit(Prepared(s).lines[sp.index], sp.tag)
    ensures var r := Access(c, s, address, mode, data); var sp := SplitL1(address);
      Hit(Prepared(s).lines[sp.index], sp.tag) ==>
        r.ok && r.post.dram == s.dram && r.post.time == s.time + Cost(c, L1Step(mode))
  {
    var p := Prepared(s);
    var sp := SplitL1(address);
    if Hit(p.lines[sp.index], sp.tag) {
      ServeEffects(c, p, sp, mode, data, []);
    } else {
      FillEffects(c, p, sp);
      var f := Fill(c, p, sp);
      if f.ok {
        ServeEffects(c, f.post, sp, mode, data, f.steps);
        assert Access(c, s, address, mode, data).steps[0] == DramRead(sp.memAddress);
      }
    }
  }

  /** A miss aborts exactly when one of its two DRAM calls fails the bound
      check: the fetch of `memAddress`, or the write-back of a valid dirty
      victim to `Tag << 6`. */
  lemma MissAborts(c: Config, s: State, address: Word32, mode: Mode, data: seq<Byte>)
    requires ValidConfig(c) && WellFormed(c, s) && Request(c, address, mode, data)
    requires !Hit(Prepared(s).lines[SplitL1(address).index], SplitL1(address).tag)
    ensures var r := Access(c, s, address, mode, data); var sp := SplitL1(address);
      r.ok <==> !DramFault(c, sp.memAddress) && (!DirtyVictim(s, address) || !DramFault(c, VictimAddress(s, address)))
  {
    FillEffects(c, Prepared(s), SplitL1(address));
  }

  /** A completed miss reads the block-aligned `memAddress` from DRAM first,
      then writes the victim back to `Tag << 6` exactly when it was valid and
      dirty, then serves the word. The write carries the victim's old bytes,
      so it happens before the fetched block overwrites them. */
  lemma MissSteps(c: Config, s: State, address: Word32, mode: Mode, data: seq<Byte>)
    requires ValidConfig(c) && WellFormed(c, s) && Request(c, address, mode, data)
    requires !Hit(Prepared(s).lines[SplitL1(address).index], SplitL1(address).tag)
    ensures var r := Access(c, s, address, mode, data); var sp := SplitL1(address);
      r.ok ==>
        && r.steps == [DramRead(sp.memAddress)]
                      + (if DirtyVictim(s, address) then [DramWrite(VictimAddress(s, address))] else [])
                      + [L1Step(mode)]
        && (DirtyVictim(s, address) ==> HoldsAt(r.post.dram, VictimAddress(s, address), OldBlock(s, address)))
  {
    var p := Prepared(s);
    var sp := SplitL1(address);
    FillEffects(c, p, sp);
    var f := Fill(c, p, sp);
    if f.ok {
      ServeEffects(c, f.post, sp, mode, data, f.steps);
    }
  }

  /** A read miss returns the word DRAM held before the access. */
  lemma ReadMissReturnsDramWord(c: Config, s: State, address: Word32)
    requires ValidConfig(c) && WellFormed(c, s) && Request(c, address, ModeRead, [])
    requires !Hit(Prepared(s).lines[SplitL1(address).index], SplitL1(address).tag)
    ensures var r := Access(c, s, address, ModeRead, []);
      r.ok ==> address + c.wordSize <= |s.dram| && r.word == s.dram[address..address + c.wordSize]
  {
    var p := Prepared(s);
    var sp := SplitL1(address);
    FillThenReadWord(c, p, sp);
  }

  /** Reading the word at `sp` right after the fill of `sp` gives the DRAM
      bytes at `sp.memAddress + sp.offset`. */
  lemma FillThenReadWord(c: Config, s: State, sp: Split)
    requires ValidConfig(c) && WellFormed(c, s) && sp.index < L1_NUM_LINES && sp.memAddress % 64 == 0
    requires sp.offset + c.wordSize <= BLOCK_SIZE
    ensures var f := Fill(c, s, sp); var at := sp.memAddress + sp.offset;
      f.ok ==> at + c.wordSize <= |s.dram|
               && Serve(c, f.post, sp, ModeRead, [], f.steps).word == s.dram[at..at + c.wordSize]
  {
    var f := Fill(c, s, sp);
    FillInstallsBlock(c, s, sp);
    if f.ok {
      ReadOfCopiedBlock(c, f.post, sp, f.steps, s.dram);
    }
  }

  /** Reading from a line that holds a copy of the DRAM block at
      `sp.memAddress` gives the DRAM word. */
  lemma ReadOfCopiedBlock(c: Config, t: State, sp: Split, steps: seq<Step>, d: seq<Byte>)
    requires WellFormed(c, t) && sp.index < L1_NUM_LINES && sp.offset + c.wordSize <= BLOCK_SIZE
    requires sp.memAddress + BLOCK_SIZE <= |d|
    requires t.l1[sp.index * BLOCK_SIZE..sp.index * BLOCK_SIZE + BLOCK_SIZE] == d[sp.memAddress..sp.memAddress + BLOCK_SIZE]
    ensures var at := sp.memAddress + sp.offset;
      Serve(c, t, sp, ModeRead, [], steps).word == d[at..at + c.wordSize]
  {
    CopiedWord(t.l1, sp.index * BLOCK_SIZE, d, sp.memAddress, sp.offset, c.wordSize);
  }

  /** After a completed access the indexed line is valid with the request
      tag; it is dirty after a write, clean after a read miss, and keeps its
      dirty bit on a read hit. */
  lemma LineAfterAccess(c: Config, s: State, address: Word32, mode: Mode, data: seq<Byte>)
    requires ValidConfig(c) && WellFormed(c, s) && Request(c, address, mode, data)
    ensures var r := Access(c, s, address, mode, data); var sp := SplitL1(address);
      var before := Prepared(s).lines[sp.index];
      r.ok ==> (r.post.lines[sp.index] ==
                  CacheLine(true, mode == ModeWrite || (Hit(before, sp.tag) && before.dirty), sp.tag))
  {
    var p := Prepared(s);
    var sp := SplitL1(address);
    if Hit(p.lines[sp.index], sp.tag) {
      ServeEffects(c, p, sp, mode, data, []);
    } else {
      FillEffects(c, p, sp);
      var f := Fill(c, p, sp);
      if f.ok {
        ServeEffects(c, f.post, sp, mode, data, f.steps);
      }
    }
  }

  /** The miss handling adds exactly the latencies of its DRAM steps, even
      when it aborts. */
  lemma FillTime(c: Config, s: State, sp: Split)
    requires ValidConfig(c) && WellFormed(c, s) && sp.index < L1_NUM_LINES && sp.memAddress % 64 == 0
    ensures var f := Fill(c, s, sp); f.post.time == s.time + Latency(c, f.steps)
  {
    var fetch := DramAccess(c, s.dram, s.time, sp.memAddress, ModeRead, []);
    DramAccessEffects(c, s.dram, s.time, sp.memAddress, ModeRead, []);
    if fetch.ok {
      var w := WriteBack(c, s.(time := fetch.time), sp.index);
      WriteBackEffects(c, s.(time := fetch.time), sp.index);
      assert Latency(c, [DramRead(sp.memAddress)]) == c.dramReadTime;
      if w.ok {
        LatencyAppend(c, [DramRead(sp.memAddress)], w.steps);
        assert Latency(c, w.steps) == fetch.time + Latency(c, w.steps) - fetch.time;
        if w.steps != [] {
          assert Latency(c, w.steps) == c.dramWriteTime;
        }
      }
    }
  }

  /** Every access, completed or aborted, adds to `time` exactly the
      latencies of the steps it took; so `time` never decreases. */
  lemma AccessTime(c: Config, s: State, address: Word32, mode: Mode, data: seq<Byte>)
    requires ValidConfig(c) && WellFormed(c, s) && Request(c, address, mode, data)
    ensures var r := Access(c, s, address, mode, data); r.post.time == s.time + Latency(c, r.steps)
    ensures Access(c, s, address, mode, data).post.time >= s.time
  {
    var p := Prepared(s);
    var sp := SplitL1(address);
    assert Latency(c, [L1Step(mode)]) == Cost(c, L1Step(mode));
    if Hit(p.lines[sp.index], sp.tag) {
      ServeEffects(c, p, sp, mode, data, []);
    } else {
      FillTime(c, p, sp);
      var f := Fill(c, p, sp);
      if f.ok {
        ServeEffects(c, f.post, sp, mode, data, f.steps);
        LatencyAppend(c, f.steps, [L1Step(mode)]);
      }
    }
  }

  /** A hit never touches DRAM; a miss changes at most the victim's block. */
  lemma DramOutsideVictimKept(c: Config, s: State, address: Word32, mode: Mode, data: seq<Byte>)
    requires ValidConfig(c) && WellFormed(c, s) && Request(c, address, mode, data)
    ensures var r := Access(c, s, address, mode, data); var v := VictimAddress(s, address);
      forall i :: 0 <= i < |s.dram| && !(DirtyVictim(s, address) && v <= i < v + BLOCK_SIZE) ==> r.post.dram[i] == s.dram[i]
  {
    var p := Prepared(s);
    var sp := SplitL1(address);
    if Hit(p.lines[sp.index], sp.tag) {
      ServeEffects(c, p, sp, mode, data, []);
    } else {
      FillEffects(c, p, sp);
      var f := Fill(c, p, sp);
      if f.ok {
        ServeEffects(c, f.post, sp, mode, data, f.steps);
      } else {
        var fetch := DramAccess(c, p.dram, p.time, sp.memAddress, ModeRead, []);
        DramAccessEffects(c, p.dram, p.time, sp.memAddress, ModeRead, []);
        if fetch.ok {
          WriteBackEffects(c, p.(time := fetch.time), sp.index);
        }
      }
    }
  }

  /** `write(a, w)` followed by `read(a)` hits and returns `w`. */
  lemma WriteThenRead(c: Config, s: State, address: Word32, w: seq<Byte>)
    requires ValidConfig(c) && WellFormed(c, s) && Request(c, address, ModeWrite, w)
    ensures var r1 := Access(c, s, address, ModeWrite, w);
      r1.ok ==> var r2 := Access(c, r1.post, address, ModeRead, []);
        r2.ok && r2.word == w && r2.steps == [L1Read]
  {
    var r1 := Access(c, s, address, ModeWrite, w);
    if r1.ok {
      var sp := SplitL1(address);
      LineAfterAccess(c, s, address, ModeWrite, w);
      LinesOutsideIndexKept(c, s, address, ModeWrite, w);
      assert Prepared(r1.post) == r1.post;
      HitCharacterisation(c, r1.post, address, ModeRead, []);
      var at := sp.index * BLOCK_SIZE + sp.offset;
      var p := Prepared(s);
      if Hit(p.lines[sp.index], sp.tag) {
        ServeEffects(c, p, sp, ModeWrite, w, []);
      } else {
        FillEffects(c, p, sp);
        var f := Fill(c, p, sp);
        ServeEffects(c, f.post, sp, ModeWrite, w, f.steps);
      }
      ServeEffects(c, r1.post, sp, ModeRead, [], []);
    }
  }
}
