/** What one access of the two-level cache (task2/L2Cache.c) guarantees: the
    L2 hit test and miss sequence, the dirty bits copied between the levels,
    the fixed order of an L1 miss, the locality of the update, the timing,
    and a write followed by a read of the same address. */
module L2CacheProperties {
  import opened Address
  import opened CacheCommon
  import opened L2Cache

  // ---------------------------------------------------------------- L2

  /** The L2 victim write-back as `L2WriteBack` takes it. */
  lemma L2WriteBackEffects(c: Config, s: State, sp: Split)
    requires ValidConfig(c) && WellFormed(c, s) && sp.index < L2_NUM_LINES && sp.memAddress % 64 == 0
    ensures var r := L2WriteBack(c, s, sp); var line := s.l2Lines[sp.index];
      && r.post == s.(dram := r.post.dram, time := r.post.time)
      && (r.ok <==> !(line.valid && line.dirty) || !DramFault(c, sp.memAddress))
      && (!(r.ok && line.valid && line.dirty) ==> r.post == s && r.steps == [])
      && (r.ok && line.valid && line.dirty ==>
            r.steps == [DramWrite(sp.memAddress)] && r.post.time == s.time + c.dramWriteTime
            && HoldsAt(r.post.dram, sp.memAddress, s.l2[sp.index * BLOCK_SIZE..sp.index * BLOCK_SIZE + BLOCK_SIZE])
            && forall i :: 0 <= i < |s.dram| && !(sp.memAddress <= i < sp.memAddress + BLOCK_SIZE) ==>
                 r.post.dram[i] == s.dram[i])
  {
    var line := s.l2Lines[sp.index];
    if line.valid && line.dirty {
      DramAccessEffects(c, s.dram, s.time, sp.memAddress, ModeWrite, s.l2[sp.index * BLOCK_SIZE..sp.index * BLOCK_SIZE + BLOCK_SIZE]);
    }
  }

  /** An L2 miss as `L2Fill` takes it. Because the victim goes back to the
      very block that was just fetched, the write-back passes the bound check
      whenever the fetch did. */
  lemma L2FillEffects(c: Config, s: State, sp: Split)
    requires ValidConfig(c) && WellFormed(c, s) && sp.index < L2_NUM_LINES && sp.memAddress % 64 == 0
    ensures var r := L2Fill(c, s, sp); var line := s.l2Lines[sp.index]; var base := sp.index * BLOCK_SIZE;
      && (r.ok <==> !DramFault(c, sp.memAddress))
      && r.post.l1Lines == s.l1Lines && r.post.l1 == s.l1 && r.post.init == s.init
      && (!r.ok ==> r.post == s && r.steps == [])
      && (r.ok ==>
            && r.steps == [DramRead(sp.memAddress)] + (if line.valid && line.dirty then [DramWrite(sp.memAddress)] else [])
            && r.post.time == s.time + c.dramReadTime + (if line.valid && line.dirty then c.dramWriteTime else 0)
            && r.post.l2Lines == s.l2Lines[sp.index := CacheLine(true, false, sp.tag)]
            && sp.memAddress + BLOCK_SIZE <= |s.dram|
            && r.post.l2[base..base + BLOCK_SIZE] == s.dram[sp.memAddress..sp.memAddress + BLOCK_SIZE]
            && (forall i :: 0 <= i < L2_SIZE && !(base <= i < base + BLOCK_SIZE) ==> r.post.l2[i] == s.l2[i])
            && (line.valid && line.dirty ==> HoldsAt(r.post.dram, sp.memAddress, s.l2[base..base + BLOCK_SIZE]))
            && (forall i :: 0 <= i < |s.dram| && !(line.valid && line.dirty && sp.memAddress <= i < sp.memAddress + BLOCK_SIZE) ==>
                  r.post.dram[i] == s.dram[i]))
  {
    var fetch := DramAccess(c, s.dram, s.time, sp.memAddress, ModeRead, []);
    DramAccessEffects(c, s.dram, s.time, sp.memAddress, ModeRead, []);
    if fetch.ok {
      L2WriteBackEffects(c, s.(time := fetch.time), sp);
    }
  }

  /** The block an L2 miss installs is the one DRAM held. */
  lemma L2FillBlock(c: Config, s: State, sp: Split)
    requires ValidConfig(c) && WellFormed(c, s) && sp.index < L2_NUM_LINES && sp.memAddress % 64 == 0
    ensures var r := L2Fill(c, s, sp); var base := sp.index * BLOCK_SIZE;
      r.ok ==> (sp.memAddress + BLOCK_SIZE <= |s.dram|
                && r.post.l2[base..base + BLOCK_SIZE] == s.dram[sp.memAddress..sp.memAddress + BLOCK_SIZE])
  {
    L2FillEffects(c, s, sp);
  }

  /** Serving the word in L2 as `L2Serve` does it. */
  lemma L2ServeEffects(c: Config, s: State, address: Word32, mode: Mode, data: seq<Byte>, steps: seq<Step>)
    requires WellFormed(c, s) && Request(c, address, mode, data)
    ensures var r := L2Serve(c, s, address, mode, data, steps); var sp := SplitL2(address);
      var at := sp.index * BLOCK_SIZE + sp.offset;
      && r.ok && r.steps == steps + [L2Step(mode)] && r.post.time == s.time + Cost(c, L2Step(mode))
      && r.post.dram == s.dram && r.post.init == s.init && r.post.l1Lines == s.l1Lines && r.post.l1 == s.l1
      && (mode == ModeRead ==> r.word == s.l2[at..at + c.wordSize] && r.post.l2 == s.l2 && r.post.l2Lines == s.l2Lines)
      && (mode == ModeWrite ==>
            HoldsAt(r.post.l2, at, data)
            && (forall i :: 0 <= i < |s.l2| && !(at <= i < at + c.wordSize) ==> r.post.l2[i] == s.l2[i])
            && r.post.l2Lines == s.l2Lines[sp.index := s.l2Lines[sp.index].(dirty := IsL1Dirty(s, address))])
  {
    SplitsCompared(address);
  }

  /** An L2 access never touches L1's lines or bytes, and ends with the flag
      set. */
  lemma L2AccessKeepsL1(c: Config, s: State, address: Word32, mode: Mode, data: seq<Byte>)
    requires ValidConfig(c) && WellFormed(c, s) && Request(c, address, mode, data)
    ensures var r := L2Access(c, s, address, mode, data);
      r.post.l1Lines == s.l1Lines && r.post.l1 == s.l1 && r.post.init
  {
    var p := s.(init := true);
    var sp := SplitL2(address);
    SplitsCompared(address);
    if Hit(p.l2Lines[sp.index], sp.tag) {
      L2ServeEffects(c, p, address, mode, data, []);
    } else {
      L2FillEffects(c, p, sp);
      var f := L2Fill(c, p, sp);
      if f.ok {
        L2ServeEffects(c, f.post, address, mode, data, f.steps);
      }
    }
  }

  /** An L2 access is served without any DRAM step exactly when the indexed
      L2 line is valid with the request's L2 tag; a hit leaves DRAM alone and
      costs exactly the L2 latency of its mode. */
  lemma L2HitCharacterisation(c: Config, s: State, address: Word32, mode: Mode, data: seq<Byte>)
    requires ValidConfig(c) && WellFormed(c, s) && Request(c, address, mode, data)
    ensures var r := L2Access(c, s, address, mode, data); var sp := SplitL2(address);
      (r.ok && r.steps == [L2Step(mode)]) <==> Hit(s.l2Lines[sp.index], sp.tag)
    ensures var r := L2Access(c, s, address, mode, data); var sp := SplitL2(address);
      Hit(s.l2Lines[sp.index], sp.tag) ==>
        r.ok && r.post.dram == s.dram && r.post.time == s.time + Cost(c, L2Step(mode))
  {
    var p := s.(init := true);
    var sp := SplitL2(address);
    SplitsCompared(address);
    if Hit(p.l2Lines[sp.index], sp.tag) {
      L2ServeEffects(c, p, address, mode, data, []);
    } else {
      L2FillEffects(c, p, sp);
      var f := L2Fill(c, p, sp);
      if f.ok {
        L2ServeEffects(c, f.post, address, mode, data, f.steps);
        assert L2Access(c, s, address, mode, data).steps[0] == DramRead(sp.memAddress);
      }
    }
  }

  /** An L2 miss reads the block-aligned `memAddress` from DRAM, writes a
      valid dirty victim back (to that same `memAddress`), installs the block
      valid and clean with the request tag, then serves the word; of all the
      L2 lines only the indexed one changes, and it ends valid with the
      request tag, dirty only after a write from a dirty L1 line. It aborts
      exactly when `memAddress` fails the bound check. */
  lemma L2MissSteps(c: Config, s: State, address: Word32, mode: Mode, data: seq<Byte>)
    requires ValidConfig(c) && WellFormed(c, s) && Request(c, address, mode, data)
    requires !Hit(s.l2Lines[SplitL2(address).index], SplitL2(address).tag)
    ensures var r := L2Access(c, s, address, mode, data); var sp := SplitL2(address);
      r.ok <==> !DramFault(c, sp.memAddress)
    ensures var r := L2Access(c, s, address, mode, data); var sp := SplitL2(address);
      var victim := s.l2Lines[sp.index];
      r.ok ==>
        && r.steps == [DramRead(sp.memAddress)]
                      + (if victim.valid && victim.dirty then [DramWrite(sp.memAddress)] else [])
                      + [L2Step(mode)]
        && r.post.l2Lines == s.l2Lines[sp.index := CacheLine(true, mode == ModeWrite && IsL1Dirty(s, address), sp.tag)]
  {
    var p := s.(init := true);
    var sp := SplitL2(address);
    SplitsCompared(address);
    L2FillEffects(c, p, sp);
    var f := L2Fill(c, p, sp);
    if f.ok {
      L2ServeEffects(c, f.post, address, mode, data, f.steps);
    }
  }

  /** The write-back of an L2 miss lands on the block being fetched: DRAM
      ends up holding the victim's bytes at the request's block address,
      while the L2 line receives the bytes that were there before. */
  lemma L2VictimOverwritesRequestedBlock(c: Config, s: State, address: Word32, mode: Mode, data: seq<Byte>)
    requires ValidConfig(c) && WellFormed(c, s) && Request(c, address, mode, data)
    requires !Hit(s.l2Lines[SplitL2(address).index], SplitL2(address).tag)
    requires s.l2Lines[SplitL2(address).index].valid && s.l2Lines[SplitL2(address).index].dirty
    ensures var r := L2Access(c, s, address, mode, data); var sp := SplitL2(address);
      var base := sp.index * BLOCK_SIZE;
      r.ok ==> HoldsAt(r.post.dram, sp.memAddress, s.l2[base..base + BLOCK_SIZE])
  {
    var p := s.(init := true);
    var sp := SplitL2(address);
    L2FillEffects(c, p, sp);
    var f := L2Fill(c, p, sp);
    if f.ok {
      L2ServeEffects(c, f.post, address, mode, data, f.steps);
    }
  }

  /** An L2 write sets the L2 line's dirty bit to `is_L1_dirty(address)`,
      hit or miss. */
  lemma L2WriteTakesL1Dirty(c: Config, s: State, address: Word32, data: seq<Byte>)
    requires ValidConfig(c) && WellFormed(c, s) && Request(c, address, ModeWrite, data)
    ensures var r := L2Access(c, s, address, ModeWrite, data);
      r.ok ==> r.post.l2Lines[SplitL2(address).index].dirty == IsL1Dirty(s, address)
  {
    var p := s.(init := true);
    var sp := SplitL2(address);
    SplitsCompared(address);
    if Hit(p.l2Lines[sp.index], sp.tag) {
      L2ServeEffects(c, p, address, ModeWrite, data, []);
    } else {
      L2FillEffects(c, p, sp);
      var f := L2Fill(c, p, sp);
      if f.ok {
        L2ServeEffects(c, f.post, address, ModeWrite, data, f.steps);
      }
    }
  }

  /** A completed L2 read returns the word at `address` as L2 held it on a
      hit, or as DRAM held it on a miss. */
  lemma L2ReadWord(c: Config, s: State, address: Word32)
    requires ValidConfig(c) && WellFormed(c, s) && Request(c, address, ModeRead, [])
    ensures var r := L2Access(c, s, address, ModeRead, []); var sp := SplitL2(address);
      var at := sp.index * BLOCK_SIZE + sp.offset;
      r.ok ==> (if Hit(s.l2Lines[sp.index], sp.tag) then r.word == s.l2[at..at + c.wordSize]
                else address + c.wordSize <= |s.dram| && r.word == s.dram[address..address + c.wordSize])
  {
    SplitsCompared(address);
    if !Hit(s.l2Lines[SplitL2(address).index], SplitL2(address).tag) {
      L2ReadMissWord(c, s.(init := true), address);
    }
  }

  /** A read that misses L2 returns the word DRAM holds at the address: the
      fill copies the whole aligned block and the serve slices it at the
      offset. */
  lemma L2ReadMissWord(c: Config, p: State, address: Word32)
    requires ValidConfig(c) && WellFormed(c, p) && Request(c, address, ModeRead, []) && p.init
    requires !Hit(p.l2Lines[SplitL2(address).index], SplitL2(address).tag)
    ensures var f := L2Fill(c, p, SplitL2(address)); var sp := SplitL2(address);
      f.ok ==> (sp.offset + c.wordSize <= BLOCK_SIZE && address + c.wordSize <= |p.dram|
                && L2Serve(c, f.post, address, ModeRead, [], f.steps).word == p.dram[address..address + c.wordSize])
  {
    var sp := SplitL2(address);
    SplitsCompared(address);
    L2FillBlock(c, p, sp);
    var f := L2Fill(c, p, sp);
    if f.ok {
      L2ReadOfCopiedBlock(c, f.post, address, f.steps, p.dram);
    }
  }

  /** Reading from an L2 line that holds a copy of the DRAM block of
      `address` gives the DRAM word at `address`. */
  lemma L2ReadOfCopiedBlock(c: Config, t: State, address: Word32, steps: seq<Step>, d: seq<Byte>)
    requires WellFormed(c, t) && Request(c, address, ModeRead, [])
    requires var sp := SplitL2(address); var base := sp.index * BLOCK_SIZE;
      sp.memAddress + BLOCK_SIZE <= |d| && t.l2[base..base + BLOCK_SIZE] == d[sp.memAddress..sp.memAddress + BLOCK_SIZE]
    ensures address + c.wordSize <= |d| && L2Serve(c, t, address, ModeRead, [], steps).word == d[address..address + c.wordSize]
  {
    var sp := SplitL2(address);
    assert sp.offset == SplitL1(address).offset;
    CopiedWord(t.l2, sp.index * BLOCK_SIZE, d, sp.memAddress, sp.offset, c.wordSize);
  }

  /** Every L2 access adds to `time` exactly the latencies of its steps. */
  lemma L2AccessTime(c: Config, s: State, address: Word32, mode: Mode, data: seq<Byte>)
    requires ValidConfig(c) && WellFormed(c, s) && Request(c, address, mode, data)
    ensures var r := L2Access(c, s, address, mode, data); r.post.time == s.time + Latency(c, r.steps)
  {
    var p := s.(init := true);
    var sp := SplitL2(address);
    SplitsCompared(address);
    assert Latency(c, [L2Step(mode)]) == Cost(c, L2Step(mode));
    if Hit(p.l2Lines[sp.index], sp.tag) {
      L2ServeEffects(c, p, address, mode, data, []);
    } else {
      L2FillEffects(c, p, sp);
      var f := L2Fill(c, p, sp);
      if f.ok {
        L2ServeEffects(c, f.post, address, mode, data, f.steps);
        LatencyAppend(c, f.steps, [L2Step(mode)]);
        var line := p.l2Lines[sp.index];
        if line.valid && line.dirty {
          assert [DramRead(sp.memAddress), DramWrite(sp.memAddress)][1..] == [DramWrite(sp.memAddress)];
        }
        assert Latency(c, f.steps) == c.dramReadTime + (if line.valid && line.dirty then c.dramWriteTime else 0);
      }
    }
  }

  // ---------------------------------------------------------------- L1

  /** The dirty lookups read the line the index bits select, whatever tag it
      holds: two addresses with the same index get the same answer. */
  lemma DirtyLookupsIgnoreTag(s: State, a: Word32, b: Word32)
    requires |s.l1Lines| == L1_NUM_LINES && |s.l2Lines| == L2_NUM_LINES
    ensures SplitL1(a).index == SplitL1(b).index ==> IsL1Dirty(s, a) == IsL1Dirty(s, b)
    ensures SplitL2(a).index == SplitL2(b).index ==> IsL2Dirty(s, a) == IsL2Dirty(s, b)
  {
  }

  /** The L2 read of an L1 miss leaves the block of `address` in L2, so the
      write-back that follows always hits: it costs exactly one L2 write,
      leaves DRAM alone and never aborts. */
  lemma L1WriteBackHitsL2(c: Config, s: State, address: Word32, data: seq<Byte>)
    requires ValidConfig(c) && WellFormed(c, s) && Request(c, address, ModeWrite, data)
    ensures var rd := L2Access(c, s, address, ModeRead, []);
      rd.ok ==> Hit(rd.post.l2Lines[SplitL2(address).index], SplitL2(address).tag)
    ensures var rd := L2Access(c, s, address, ModeRead, []);
      rd.ok ==> var wr := L2Access(c, rd.post, address, ModeWrite, data);
        wr.ok && wr.steps == [L2Write] && wr.post.dram == rd.post.dram
  {
    var rd := L2Access(c, s, address, ModeRead, []);
    var sp := SplitL2(address);
    if rd.ok {
      if Hit(s.l2Lines[sp.index], sp.tag) {
        L2HitCharacterisation(c, s, address, ModeRead, []);
        L2ServeEffects(c, s.(init := true), address, ModeRead, [], []);
      } else {
        L2MissSteps(c, s, address, ModeRead, []);
      }
      L2HitCharacterisation(c, rd.post, address, ModeWrite, data);
    }
  }

  /** The L2 read that starts an L1 miss. */
  function MissRead(c: Config, s: State, address: Word32): (r: Outcome)
    requires ValidConfig(c) && WellFormed(c, s) && Request(c, address, ModeRead, [])
    ensures WellFormed(c, r.post)
  {
    L2Access(c, s.(init := true), address, ModeRead, [])
  }

  predicate L1VictimDirty(s: State, address: Word32)
    requires |s.l1Lines| == L1_NUM_LINES
  {
    var line := s.l1Lines[SplitL1(address).index];
    line.valid && line.dirty
  }

  /** An L1 miss as `L1Fill` takes it: one L2 read; then one L2 write, a hit,
      only when the old L1 line was valid and dirty; then the line installed
      valid with the request tag and the dirty bit of the L2 line. */
  lemma L1FillEffects(c: Config, s: State, address: Word32, stale: seq<Byte>)
    requires ValidConfig(c) && WellFormed(c, s) && Request(c, address, ModeRead, []) && |stale| == BLOCK_SIZE
    ensures var r := L1Fill(c, s, address, stale); var rd := L2Access(c, s, address, ModeRead, []);
      var sp := SplitL1(address); var sp2 := SplitL2(address); var base := sp.index * BLOCK_SIZE;
      && (r.ok <==> rd.ok)
      && r.post.init
      && (!r.ok ==> r.post == rd.post && r.steps == rd.steps)
      && (r.ok ==>
            && r.steps == rd.steps + (if L1VictimDirty(s, address) then [L2Write] else [])
            && r.post.l1Lines == s.l1Lines[sp.index := CacheLine(true, rd.post.l2Lines[sp2.index].dirty || L1VictimDirty(s, address), sp.tag)]
            && r.post.l1[base..base + BLOCK_SIZE] == rd.word + stale[c.wordSize..]
            && (forall i :: 0 <= i < L1_SIZE && !(base <= i < base + BLOCK_SIZE) ==> r.post.l1[i] == s.l1[i])
            && r.post.dram == rd.post.dram
            && r.post.time == rd.post.time + (if L1VictimDirty(s, address) then c.l2WriteTime else 0)
            && (forall j :: 0 <= j < L2_NUM_LINES && j != sp2.index ==> r.post.l2Lines[j] == rd.post.l2Lines[j])
            && (L1VictimDirty(s, address) ==>
                  HoldsAt(r.post.l2, sp2.index * BLOCK_SIZE + sp2.offset, s.l1[base..base + c.wordSize])))
  {
    var sp := SplitL1(address);
    var sp2 := SplitL2(address);
    var base := sp.index * BLOCK_SIZE;
    var rd := L2Access(c, s, address, ModeRead, []);
    L2AccessKeepsL1(c, s, address, ModeRead, []);
    if rd.ok {
      L2ReadWordLength(c, s, address);
      if L1VictimDirty(s, address) {
        var d := rd.post.l1[base..base + c.wordSize];
        L1WriteBackHitsL2(c, s, address, d);
        var wr := L2Access(c, rd.post, address, ModeWrite, d);
        L2WriteTakesL1Dirty(c, rd.post, address, d);
        L2AccessKeepsL1(c, rd.post, address, ModeWrite, d);
        L2HitCharacterisation(c, rd.post, address, ModeWrite, d);
        L2ServeEffects(c, rd.post.(init := true), address, ModeWrite, d, []);
      }
    }
  }

  lemma L2ReadWordLength(c: Config, s: State, address: Word32)
    requires ValidConfig(c) && WellFormed(c, s) && Request(c, address, ModeRead, [])
    ensures var r := L2Access(c, s, address, ModeRead, []); r.ok ==> |r.word| == c.wordSize
  {
    var p := s.(init := true);
    var sp := SplitL2(address);
    SplitsCompared(address);
    if !Hit(p.l2Lines[sp.index], sp.tag) {
      L2FillEffects(c, p, sp);
    }
  }

  /** Serving the word in L1 as `L1Serve` does it. */
  lemma L1ServeEffects(c: Config, s: State, address: Word32, mode: Mode, data: seq<Byte>, steps: seq<Step>)
    requires WellFormed(c, s) && Request(c, address, mode, data)
    ensures var r := L1Serve(c, s, address, mode, data, steps); var sp := SplitL1(address);
      var at := sp.index * BLOCK_SIZE + sp.offset;
      && r.ok && r.steps == steps + [L1Step(mode)] && r.post.time == s.time + Cost(c, L1Step(mode))
      && r.post.dram == s.dram && r.post.init == s.init && r.post.l2Lines == s.l2Lines && r.post.l2 == s.l2
      && (mode == ModeRead ==> r.word == s.l1[at..at + c.wordSize] && r.post.l1 == s.l1 && r.post.l1Lines == s.l1Lines)
      && (mode == ModeWrite ==>
            HoldsAt(r.post.l1, at, data)
            && (forall i :: 0 <= i < |s.l1| && !(at <= i < at + c.wordSize) ==> r.post.l1[i] == s.l1[i])
            && r.post.l1Lines == s.l1Lines[sp.index := s.l1Lines[sp.index].(dirty := true)])
  {
  }

  /** An access is served by L1 alone exactly when the indexed L1 line is
      valid with the request tag; such a hit leaves L2 and DRAM alone and
      costs exactly the L1 latency of its mode. */
  lemma L1HitCharacterisation(c: Config, s: State, address: Word32, mode: Mode, data: seq<Byte>, stale: seq<Byte>)
    requires ValidConfig(c) && WellFormed(c, s) && Request(c, address, mode, data) && |stale| == BLOCK_SIZE
    ensures var r := Access(c, s, address, mode, data, stale); var sp := SplitL1(address);
      (r.ok && r.steps == [L1Step(mode)]) <==> Hit(s.l1Lines[sp.index], sp.tag)
    ensures var r := Access(c, s, address, mode, data, stale); var sp := SplitL1(address);
      Hit(s.l1Lines[sp.index], sp.tag) ==>
        r.ok && r.post.dram == s.dram && r.post.l2 == s.l2 && r.post.l2Lines == s.l2Lines
        && r.post.time == s.time + Cost(c, L1Step(mode))
  {
    var p := s.(init := true);
    var sp := SplitL1(address);
    if Hit(p.l1Lines[sp.index], sp.tag) {
      L1ServeEffects(c, p, address, mode, data, []);
    } else {
      L1FillEffects(c, p, address, stale);
      var f := L1Fill(c, p, address, stale);
      if f.ok {
        L1ServeEffects(c, f.post, address, mode, data, f.steps);
        var rd := L2Access(c, p, address, ModeRead, []);
        L2NonEmptySteps(c, p, address);
        assert f.steps[0] == rd.steps[0];
        assert Access(c, s, address, mode, data, stale).steps[0] != L1Step(mode);
      }
    }
  }

  /** A completed L2 access ends with its L2 step. */
  lemma L2NonEmptySteps(c: Config, s: State, address: Word32)
    requires ValidConfig(c) && WellFormed(c, s) && Request(c, address, ModeRead, [])
    ensures var r := L2Access(c, s, address, ModeRead, []);
      r.ok ==> |r.steps| >= 1 && r.steps[0] != L1Read && r.steps[0] != L1Write
  {
    var p := s.(init := true);
    var sp := SplitL2(address);
    SplitsCompared(address);
    if Hit(p.l2Lines[sp.index], sp.tag) {
      L2ServeEffects(c, p, address, ModeRead, [], []);
    } else {
      L2FillEffects(c, p, sp);
      var f := L2Fill(c, p, sp);
      if f.ok {
        L2ServeEffects(c, f.post, address, ModeRead, [], f.steps);
      }
    }
  }

  /** An L1 miss takes its steps in a fixed order: the L2 read of
      `address`, then an L2 write only if the old L1 line was valid and
      dirty, then the L1 step. The line ends valid with the request tag;
      its dirty bit is set by a write, and otherwise is `is_L2_dirty` after
      the L2 traffic: set when a dirty victim was written into L2, or when
      L2 already held the block dirty. The miss aborts exactly when the L2
      read does. */
  lemma L1MissSteps(c: Config, s: State, address: Word32, mode: Mode, data: seq<Byte>, stale: seq<Byte>)
    requires ValidConfig(c) && WellFormed(c, s) && Request(c, address, mode, data) && |stale| == BLOCK_SIZE
    requires !Hit(s.l1Lines[SplitL1(address).index], SplitL1(address).tag)
    ensures var r := Access(c, s, address, mode, data, stale); r.ok <==> MissRead(c, s, address).ok
    ensures var r := Access(c, s, address, mode, data, stale); var sp := SplitL1(address); var sp2 := SplitL2(address);
      var l2 := s.l2Lines[sp2.index];
      r.ok ==>
        && r.steps == MissRead(c, s, address).steps + (if L1VictimDirty(s, address) then [L2Write] else []) + [L1Step(mode)]
        && r.post.l1Lines[sp.index] ==
             CacheLine(true, mode == ModeWrite || L1VictimDirty(s, address) || (Hit(l2, sp2.tag) && l2.dirty), sp.tag)
  {
    var p := s.(init := true);
    var sp := SplitL1(address);
    var sp2 := SplitL2(address);
    L1FillEffects(c, p, address, stale);
    var f := L1Fill(c, p, address, stale);
    if f.ok {
      L1ServeEffects(c, f.post, address, mode, data, f.steps);
      var rd := L2Access(c, p, address, ModeRead, []);
      if Hit(p.l2Lines[sp2.index], sp2.tag) {
        L2ServeEffects(c, p.(init := true), address, ModeRead, [], []);
      } else {
        L2MissSteps(c, p, address, ModeRead, []);
      }
    }
  }

  /** The L1 side of a miss: the old line's first WORD_SIZE bytes, not the
      whole block, are what its write-back stores in L2, and they land at
      the request's own offset in the request's L2 line. */
  lemma L1VictimWordToL2(c: Config, s: State, address: Word32, mode: Mode, data: seq<Byte>, stale: seq<Byte>)
    requires ValidConfig(c) && WellFormed(c, s) && Request(c, address, mode, data) && |stale| == BLOCK_SIZE
    requires !Hit(s.l1Lines[SplitL1(address).index], SplitL1(address).tag) && L1VictimDirty(s, address)
    ensures var r := Access(c, s, address, mode, data, stale); var base := SplitL1(address).index * BLOCK_SIZE;
      var sp2 := SplitL2(address);
      r.ok ==> HoldsAt(r.post.l2, sp2.index * BLOCK_SIZE + sp2.offset, s.l1[base..base + c.wordSize])
  {
    var p := s.(init := true);
    L1FillEffects(c, p, address, stale);
    var f := L1Fill(c, p, address, stale);
    if f.ok {
      L1ServeEffects(c, f.post, address, mode, data, f.steps);
    }
  }

  /** What a read miss returns: the L2 read fills only the first WORD_SIZE
      bytes of `TempBlock`, so the word read back at offset `o` is
      `TempBlock[o..o + WORD_SIZE]`; it is the word L2 served when `o` is 0
      and only stale bytes when `o >= WORD_SIZE`. */
  lemma ReadMissWord(c: Config, s: State, address: Word32, stale: seq<Byte>)
    requires ValidConfig(c) && WellFormed(c, s) && Request(c, address, ModeRead, []) && |stale| == BLOCK_SIZE
    requires !Hit(s.l1Lines[SplitL1(address).index], SplitL1(address).tag)
    ensures var r := Access(c, s, address, ModeRead, [], stale); var rd := MissRead(c, s, address);
      var o := SplitL1(address).offset;
      r.ok ==> |rd.word| == c.wordSize && r.word == (rd.word + stale[c.wordSize..])[o..o + c.wordSize]
    ensures var r := Access(c, s, address, ModeRead, [], stale); var o := SplitL1(address).offset;
      r.ok && o == 0 ==> r.word == MissRead(c, s, address).word
    ensures var r := Access(c, s, address, ModeRead, [], stale); var o := SplitL1(address).offset;
      r.ok && o >= c.wordSize ==> r.word == stale[o..o + c.wordSize]
  {
    var p := s.(init := true);
    var sp := SplitL1(address);
    var base := sp.index * BLOCK_SIZE;
    L1FillEffects(c, p, address, stale);
    var f := L1Fill(c, p, address, stale);
    if f.ok {
      L2ReadWordLength(c, p, address);
      var temp := MissRead(c, s, address).word + stale[c.wordSize..];
      assert Access(c, s, address, ModeRead, [], stale) == L1Serve(c, f.post, address, ModeRead, [], f.steps);
      L1ReadOfBlock(c, f.post, address, f.steps, temp);
      if sp.offset >= c.wordSize {
        WordOfTail(MissRead(c, s, address).word, stale[c.wordSize..], sp.offset, c.wordSize);
      }
    }
  }

  /** Reading from an L1 line that holds `block` gives the block's word at
      the offset of `address`. */
  lemma L1ReadOfBlock(c: Config, t: State, address: Word32, steps: seq<Step>, block: seq<Byte>)
    requires WellFormed(c, t) && Request(c, address, ModeRead, []) && |block| == BLOCK_SIZE
    requires var base := SplitL1(address).index * BLOCK_SIZE; t.l1[base..base + BLOCK_SIZE] == block
    ensures var o := SplitL1(address).offset;
      L1Serve(c, t, address, ModeRead, [], steps).word == block[o..o + c.wordSize]
  {
    var sp := SplitL1(address);
    WordOfBlock(t.l1, sp.index * BLOCK_SIZE, block, sp.offset, c.wordSize);
  }

  /** Whatever the outcome, of the L1 lines and bytes only the indexed line
      and its block may change, and of the L2 lines only the one the L2
      index selects. */
  lemma OnlyIndexedLinesChange(c: Config, s: State, address: Word32, mode: Mode, data: seq<Byte>, stale: seq<Byte>)
    requires ValidConfig(c) && WellFormed(c, s) && Request(c, address, mode, data) && |stale| == BLOCK_SIZE
    ensures var r := Access(c, s, address, mode, data, stale); var idx := SplitL1(address).index;
      r.ok ==>
        && (forall j :: 0 <= j < L1_NUM_LINES && j != idx ==> r.post.l1Lines[j] == s.l1Lines[j])
        && (forall i :: 0 <= i < L1_SIZE && !(idx * BLOCK_SIZE <= i < idx * BLOCK_SIZE + BLOCK_SIZE) ==> r.post.l1[i] == s.l1[i])
        && (forall j :: 0 <= j < L2_NUM_LINES && j != SplitL2(address).index ==> r.post.l2Lines[j] == s.l2Lines[j])
  {
    var p := s.(init := true);
    var sp := SplitL1(address);
    var sp2 := SplitL2(address);
    if Hit(p.l1Lines[sp.index], sp.tag) {
      L1ServeEffects(c, p, address, mode, data, []);
    } else {
      L1FillEffects(c, p, address, stale);
      var f := L1Fill(c, p, address, stale);
      if f.ok {
        L1ServeEffects(c, f.post, address, mode, data, f.steps);
        if Hit(p.l2Lines[sp2.index], sp2.tag) {
          L2ServeEffects(c, p.(init := true), address, ModeRead, [], []);
        } else {
          L2MissSteps(c, p, address, ModeRead, []);
        }
      }
    }
  }

  /** Every access, completed or aborted, adds to `time` exactly the
      latencies of the steps it took, one per DRAM, L2 and L1 step; so
      `time` never decreases. */
  lemma AccessTime(c: Config, s: State, address: Word32, mode: Mode, data: seq<Byte>, stale: seq<Byte>)
    requires ValidConfig(c) && WellFormed(c, s) && Request(c, address, mode, data) && |stale| == BLOCK_SIZE
    ensures var r := Access(c, s, address, mode, data, stale); r.post.time == s.time + Latency(c, r.steps)
    ensures Access(c, s, address, mode, data, stale).post.time >= s.time
  {
    var p := s.(init := true);
    var sp := SplitL1(address);
    assert Latency(c, [L1Step(mode)]) == Cost(c, L1Step(mode));
    assert Latency(c, [L2Write]) == c.l2WriteTime;
    if Hit(p.l1Lines[sp.index], sp.tag) {
      L1ServeEffects(c, p, address, mode, data, []);
    } else {
      L1FillEffects(c, p, address, stale);
      L2AccessTime(c, p, address, ModeRead, []);
      var f := L1Fill(c, p, address, stale);
      var rd := L2Access(c, p, address, ModeRead, []);
      if f.ok {
        L1ServeEffects(c, f.post, address, mode, data, f.steps);
        LatencyAppend(c, rd.steps, if L1VictimDirty(p, address) then [L2Write] else []);
        LatencyAppend(c, f.steps, [L1Step(mode)]);
      }
    }
  }

  /** `write(a, w)` followed by `read(a)` hits in L1 and returns `w`. */
  lemma WriteThenRead(c: Config, s: State, address: Word32, w: seq<Byte>, stale1: seq<Byte>, stale2: seq<Byte>)
    requires ValidConfig(c) && WellFormed(c, s) && Request(c, address, ModeWrite, w)
    requires |stale1| == BLOCK_SIZE && |stale2| == BLOCK_SIZE
    ensures var r1 := Access(c, s, address, ModeWrite, w, stale1);
      r1.ok ==> var r2 := Access(c, r1.post, address, ModeRead, [], stale2);
        r2.ok && r2.word == w && r2.steps == [L1Read]
  {
    var r1 := Access(c, s, address, ModeWrite, w, stale1);
    if r1.ok {
      var sp := SplitL1(address);
      var p := s.(init := true);
      if Hit(p.l1Lines[sp.index], sp.tag) {
        L1ServeEffects(c, p, address, ModeWrite, w, []);
      } else {
        L1FillEffects(c, p, address, stale1);
        var f := L1Fill(c, p, address, stale1);
        L1ServeEffects(c, f.post, address, ModeWrite, w, f.steps);
      }
      L1HitCharacterisation(c, r1.post, address, ModeRead, [], stale2);
      L1ServeEffects(c, r1.post.(init := true), address, ModeRead, [], []);
    }
  }

  /** A program using the simulator: it starts, runs `initCache`, writes `w`
      at `address` and reads it back. When the write completes, the read
      returns `w`. */
  method InitWriteRead(c: Config, address: Word32, w: seq<Byte>, stale1: seq<Byte>, stale2: seq<Byte>)
    returns (ok: bool, word: seq<Byte>)
    requires ValidConfig(c) && Request(c, address, ModeWrite, w)
    requires |stale1| == BLOCK_SIZE && |stale2| == BLOCK_SIZE
    ensures ok ==> word == w
  {
    var sim := new Simulator(c);
    sim.InitCache();
    ghost var s0 := sim.Abs();
    ok := sim.Write(address, w, stale1);
    word := [];
    if ok {
      WriteThenRead(c, s0, address, w, stale1, stale2);
      var readOk;
      readOk, word := sim.Read(address, stale2);
    }
  }
}
