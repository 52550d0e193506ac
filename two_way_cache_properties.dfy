/** What one access of the 2-way variant (task3/2_way_set_associative.c)
    guarantees: the L2 lookup, the least-recently-used replacement and the
    set invariants it keeps, the eviction write-back to the victim's own
    block, the `is_L2_dirty` tag mismatch, the L1 miss order, the timing,
    and a write followed by a read. */
module TwoWayCacheProperties {
  import opened Address
  import opened CacheCommon
  import opened TwoWayCache

  // ------------------------------------------------------ reference notions

  /** The line an access with `tag` ends up using: `line1` if it hits, else
      `line2` if it hits, else the tail, which is evicted. */
  function Lookup(st: Set, tag: Word32): LinePtr {
    if Hit(st.line1, tag) then Line1 else if Hit(st.line2, tag) then Line2 else st.tail
  }

  /** No block is held twice in a set. */
  predicate Distinct(st: Set) {
    !(st.line1.valid && st.line2.valid && st.line1.tag == st.line2.tag)
  }

  /** Every set of the L2 holds distinct blocks. */
  predicate SetsDistinct(s: State) {
    forall i :: 0 <= i < |s.sets| ==> Distinct(s.sets[i])
  }

  /** The tail of the set is a valid dirty line, which a double miss writes
      back. */
  predicate DirtyVictim(st: Set) {
    st.tail != Null && LineOf(st, st.tail).valid && LineOf(st, st.tail).dirty
  }

  function VictimAddress(st: Set, index: nat): (a: Word32)
    requires st.tail != Null && index < NUM_SETS
    ensures a % BLOCK_SIZE == 0
  {
    EvictAddress(LineOf(st, st.tail).tag, index)
  }

  /** The dirty bit of the line that holds the block of `address`: what a
      lookup with the address's own tag would report. */
  function OwnL2Dirty(s: State, address: Word32): bool
    requires |s.sets| == NUM_SETS
  {
    var st := s.sets[SplitL1(address).index];
    var t := SplitL1(address).tag;
    if Hit(st.line1, t) then st.line1.dirty else if Hit(st.line2, t) then st.line2.dirty else false
  }

  // ---------------------------------------------------------- addresses

  /** `(Tag << 14) | (index << 6)` for an 18-bit tag is the address whose
      split gives that tag and index back with offset 0: the victim is
      written to the block it was fetched from. */
  lemma EvictAddressSplits(tag: Word32, index: nat)
    requires tag < 0x4_0000 && index < NUM_SETS
    ensures var a := EvictAddress(tag, index);
      SplitL1(a).tag == tag && SplitL1(a).index == index && SplitL1(a).offset == 0 && SplitL1(a).memAddress == a
  {
    var a := EvictAddress(tag, index);
    assert Pow2(14) == 0x4000 by {
      assert Pow2(6) == 64;
      assert Pow2(10) == 1024;
    }
    assert tag * 0x4000 < TWO_32;
    assert ShiftLeft(tag, 14) == tag * 0x4000;
    assert a == tag * 0x4000 + index * 64;
    assert a / 64 == tag * 256 + index;
    assert (tag * 256 + index) % 256 == index;
    assert a / 0x4000 == tag;
  }

  /** And the other way round: for any address, the eviction address of its
      tag and index is its own block address. */
  lemma EvictAddressOfSplit(a: Word32)
    ensures EvictAddress(SplitL1(a).tag, SplitL1(a).index) == SplitL1(a).memAddress
  {
    var sp := SplitL1(a);
    SplitL1Recombines(a);
    assert Pow2(14) == 0x4000 by {
      assert Pow2(6) == 64;
      assert Pow2(10) == 1024;
    }
    assert sp.tag * 0x4000 < TWO_32;
    assert ShiftLeft(sp.tag, 14) == sp.tag * 0x4000;
  }

  /** The three addresses the test driver uses fall in set 0 with tags 0, 1
      and 2, so they compete for the two lines of one set. */
  lemma TestAddressesShareSetZero()
    ensures SplitL1(0x0).index == 0 && SplitL1(0x4000).index == 0 && SplitL1(0x8000).index == 0
    ensures SplitL1(0x0).tag == 0 && SplitL1(0x4000).tag == 1 && SplitL1(0x8000).tag == 2
  {
  }

  /** `is_L1_dirty` reads the line the index bits select, whatever block it
      holds: two addresses with the same L1 index get the same answer. */
  lemma L1DirtyIgnoresTag(s: State, a: Word32, b: Word32)
    requires |s.l1Lines| == L1_NUM_LINES && SplitL1(a).index == SplitL1(b).index
    ensures IsL1Dirty(s, a) == IsL1Dirty(s, b)
  {
  }

  /** In a set free of duplicate blocks, the order in which `is_L2_dirty`
      checks the two lines does not matter: it reports whether some line of
      the set is valid and dirty with the tag it looks for. */
  lemma IsL2DirtyAnyLine(s: State, address: Word32)
    requires |s.sets| == NUM_SETS && Distinct(s.sets[SplitL1(address).index])
    ensures var st := s.sets[SplitL1(address).index]; var t := UnshiftedTag(address);
      IsL2Dirty(s, address) <==> (Hit(st.line1, t) && st.line1.dirty) || (Hit(st.line2, t) && st.line2.dirty)
  {
  }

  /** `is_L2_dirty` compares `address & 0xFFFF8000` with shifted tags: the
      two agree for the address's own tag exactly when the address is below
      0x4000. */
  lemma UnshiftedTagIsOwnTagIff(a: Word32)
    ensures UnshiftedTag(a) == SplitL1(a).tag <==> a < 0x4000
  {
    if a >= 0x4000 {
      if a < 0x8000 {
        assert UnshiftedTag(a) == 0;
        assert SplitL1(a).tag == 1;
      } else {
        assert UnshiftedTag(a) >= 0x8000 * (a / 0x8000);
        assert a / 0x4000 == (a / 0x8000) * 2 + (a / 0x4000) % 2;
      }
    }
  }

  /** So below 0x4000 `is_L2_dirty` reports the dirty bit of the line that
      holds the block. */
  lemma IsL2DirtyOwnBlockBelow(s: State, a: Word32)
    requires |s.sets| == NUM_SETS && a < 0x4000
    ensures IsL2Dirty(s, a) == OwnL2Dirty(s, a)
  {
    UnshiftedTagIsOwnTagIff(a);
  }

  /** From 0x4000 on it misses the line holding the block: if that line is
      valid with the address's tag and the other line does not hold the tag
      `is_L2_dirty` looks for, the answer is 0 whatever the line's dirty bit. */
  lemma IsL2DirtyMissesOwnBlock(s: State, a: Word32, w: LinePtr)
    requires |s.sets| == NUM_SETS && a >= 0x4000 && w != Null
    requires Hit(LineOf(s.sets[SplitL1(a).index], w), SplitL1(a).tag)
    requires !Hit(LineOf(s.sets[SplitL1(a).index], Other(w)), UnshiftedTag(a))
    ensures !IsL2Dirty(s, a)
  {
    UnshiftedTagIsOwnTagIff(a);
  }

  // ---------------------------------------------------------------- L2

  /** The eviction write-back as `L2WriteBack` takes it: to the victim's own
      block address, and only for a valid dirty victim. */
  lemma L2WriteBackEffects(c: Config, s: State, index: nat, victim: LinePtr)
    requires ValidConfig(c) && WellFormed(c, s) && index < NUM_SETS && victim != Null
    ensures var r := L2WriteBack(c, s, index, victim); var line := LineOf(s.sets[index], victim);
      var at := EvictAddress(line.tag, index); var base := SlotBase(index, victim);
      && r.post == s.(dram := r.post.dram, time := r.post.time)
      && (r.ok <==> !(line.valid && line.dirty) || !DramFault(c, at))
      && (!(r.ok && line.valid && line.dirty) ==> r.post == s && r.steps == [])
      && (r.ok && line.valid && line.dirty ==>
            r.steps == [DramWrite(at)] && r.post.time == s.time + c.dramWriteTime
            && HoldsAt(r.post.dram, at, s.l2[base..base + BLOCK_SIZE])
            && forall i :: 0 <= i < |s.dram| && !(at <= i < at + BLOCK_SIZE) ==> r.post.dram[i] == s.dram[i])
  {
    var line := LineOf(s.sets[index], victim);
    if line.valid && line.dirty {
      var base := SlotBase(index, victim);
      DramAccessEffects(c, s.dram, s.time, EvictAddress(line.tag, index), ModeWrite, s.l2[base..base + BLOCK_SIZE]);
    }
  }

  /** A double miss as `L2Fill` takes it. */
  lemma L2FillEffects(c: Config, s: State, sp: Split)
    requires ValidConfig(c) && WellFormed(c, s) && sp.index < NUM_SETS && sp.memAddress % 64 == 0
    ensures var r := L2Fill(c, s, sp); var st := s.sets[sp.index];
      && (r.ok <==> !DramFault(c, sp.memAddress) && st.tail != Null
                    && !(DirtyVictim(st) && DramFault(c, VictimAddress(st, sp.index))))
      && (!r.ok ==> r.post == s.(time := r.post.time))
      && r.post.l1Lines == s.l1Lines && r.post.l1 == s.l1 && r.post.init == s.init
      && (r.ok ==>
            && r.steps == [DramRead(sp.memAddress)] + (if DirtyVictim(st) then [DramWrite(VictimAddress(st, sp.index))] else [])
            && r.post.time == s.time + c.dramReadTime + (if DirtyVictim(st) then c.dramWriteTime else 0)
            && r.post.sets == s.sets[sp.index := WithLine(st, st.tail, CacheLine(true, false, sp.tag)).(head := st.tail, tail := Other(st.tail))])
  {
    var fetch := DramAccess(c, s.dram, s.time, sp.memAddress, ModeRead, []);
    DramAccessEffects(c, s.dram, s.time, sp.memAddress, ModeRead, []);
    if fetch.ok && s.sets[sp.index].tail != Null {
      L2WriteBackEffects(c, s.(time := fetch.time), sp.index, s.sets[sp.index].tail);
    }
  }

  /** The bytes of a double miss: the tail's slot receives the DRAM block, a
      dirty victim's bytes land at its own block address, and nothing else
      changes. */
  lemma L2FillBytes(c: Config, s: State, sp: Split)
    requires ValidConfig(c) && WellFormed(c, s) && sp.index < NUM_SETS && sp.memAddress % 64 == 0
    ensures var r := L2Fill(c, s, sp); var st := s.sets[sp.index];
      r.ok ==> (st.tail != Null && sp.memAddress + BLOCK_SIZE <= |s.dram|
                && var base := SlotBase(sp.index, st.tail);
                && r.post.l2[base..base + BLOCK_SIZE] == s.dram[sp.memAddress..sp.memAddress + BLOCK_SIZE]
                && (forall i :: 0 <= i < L2_SIZE && !(base <= i < base + BLOCK_SIZE) ==> r.post.l2[i] == s.l2[i])
                && (DirtyVictim(st) ==> HoldsAt(r.post.dram, VictimAddress(st, sp.index), s.l2[base..base + BLOCK_SIZE]))
                && (forall i :: 0 <= i < |s.dram| && !(DirtyVictim(st) && VictimAddress(st, sp.index) <= i < VictimAddress(st, sp.index) + BLOCK_SIZE) ==>
                      r.post.dram[i] == s.dram[i]))
  {
    var fetch := DramAccess(c, s.dram, s.time, sp.memAddress, ModeRead, []);
    DramAccessEffects(c, s.dram, s.time, sp.memAddress, ModeRead, []);
    if fetch.ok && s.sets[sp.index].tail != Null {
      L2WriteBackEffects(c, s.(time := fetch.time), sp.index, s.sets[sp.index].tail);
    }
  }

  /** Serving the word in L2 as `L2Serve` does it. */
  lemma L2ServeEffects(c: Config, s: State, address: Word32, w: LinePtr, mode: Mode, data: seq<Byte>, steps: seq<Step>)
    requires WellFormed(c, s) && Request(c, address, mode, data)
    requires w != Null && s.sets[SplitL1(address).index].head == w
    ensures var r := L2Serve(c, s, address, w, mode, data, steps); var sp := SplitL1(address);
      var st := s.sets[sp.index]; var at := SlotBase(sp.index, w) + sp.offset;
      && r.ok && r.steps == steps + [L2Step(mode)] && r.post.time == s.time + Cost(c, L2Step(mode))
      && r.post.dram == s.dram && r.post.init == s.init && r.post.l1Lines == s.l1Lines && r.post.l1 == s.l1
      && (mode == ModeRead ==> r.word == s.l2[at..at + c.wordSize] && r.post.l2 == s.l2 && r.post.sets == s.sets)
      && (mode == ModeWrite ==>
            HoldsAt(r.post.l2, at, data)
            && (forall i :: 0 <= i < |s.l2| && !(at <= i < at + c.wordSize) ==> r.post.l2[i] == s.l2[i])
            && r.post.sets == s.sets[sp.index := WithLine(st, w, LineOf(st, w).(dirty := IsL1Dirty(s, address)))])
  {
  }

  /** The set after any completed L2 access, in terms of the line `Lookup`
      picks: that line is now the head and holds the request's block, the
      other line is the tail and is untouched, no other set changes, and a
      write sets the head's dirty bit to `is_L1_dirty(address)`. L1 is
      never touched. */
  lemma L2AccessSets(c: Config, s: State, address: Word32, mode: Mode, data: seq<Byte>)
    requires ValidConfig(c) && WellFormed(c, s) && Request(c, address, mode, data)
    ensures var r := L2Access(c, s, address, mode, data);
      r.post.l1Lines == s.l1Lines && r.post.l1 == s.l1 && r.post.init
    ensures var r := L2Access(c, s, address, mode, data); var sp := SplitL1(address);
      var st := s.sets[sp.index]; var w := Lookup(st, sp.tag); var post := r.post.sets[sp.index];
      r.ok ==>
        && w != Null && post.head == w && post.tail == Other(w)
        && Hit(LineOf(post, w), sp.tag)
        && LineOf(post, Other(w)) == LineOf(st, Other(w))
        && (mode == ModeWrite ==> LineOf(post, w).dirty == IsL1Dirty(s, address))
        && (forall j :: 0 <= j < NUM_SETS && j != sp.index ==> r.post.sets[j] == s.sets[j])
  {
    var p := s.(init := true);
    var sp := SplitL1(address);
    var st := p.sets[sp.index];
    if Hit(st.line1, sp.tag) {
      L2ServeEffects(c, Touch(p, sp.index, Line1), address, Line1, mode, data, []);
    } else if Hit(st.line2, sp.tag) {
      L2ServeEffects(c, Touch(p, sp.index, Line2), address, Line2, mode, data, []);
    } else {
      L2FillEffects(c, p, sp);
      var f := L2Fill(c, p, sp);
      if f.ok {
        L2ServeEffects(c, f.post, address, st.tail, mode, data, f.steps);
      }
    }
  }

  /** An L2 access is served without any DRAM step exactly when one of the
      set's lines is valid with the request tag; a hit leaves DRAM alone and
      costs exactly the L2 latency of its mode. */
  lemma L2HitCharacterisation(c: Config, s: State, address: Word32, mode: Mode, data: seq<Byte>)
    requires ValidConfig(c) && WellFormed(c, s) && Request(c, address, mode, data)
    ensures var r := L2Access(c, s, address, mode, data); var sp := SplitL1(address); var st := s.sets[sp.index];
      (r.ok && r.steps == [L2Step(mode)]) <==> Hit(st.line1, sp.tag) || Hit(st.line2, sp.tag)
    ensures var r := L2Access(c, s, address, mode, data); var sp := SplitL1(address); var st := s.sets[sp.index];
      Hit(st.line1, sp.tag) || Hit(st.line2, sp.tag) ==>
        r.ok && r.post.dram == s.dram && r.post.time == s.time + Cost(c, L2Step(mode))
  {
    var p := s.(init := true);
    var sp := SplitL1(address);
    var st := p.sets[sp.index];
    if Hit(st.line1, sp.tag) {
      L2ServeEffects(c, Touch(p, sp.index, Line1), address, Line1, mode, data, []);
    } else if Hit(st.line2, sp.tag) {
      L2ServeEffects(c, Touch(p, sp.index, Line2), address, Line2, mode, data, []);
    } else {
      L2FillEffects(c, p, sp);
      var f := L2Fill(c, p, sp);
      if f.ok {
        L2ServeEffects(c, f.post, address, st.tail, mode, data, f.steps);
        assert L2Access(c, s, address, mode, data).steps[0] == DramRead(sp.memAddress);
      }
    }
  }

  /** A double miss reads the request's block from DRAM, writes a valid
      dirty tail back to its own block address, installs the new block in
      the tail's line, valid with the request tag and dirty only after a
      write from a dirty L1 line, and serves the word. It aborts exactly when
      the read or the write-back fails the bound check, or when the tail is
      NULL (a set `initCache` has not linked). */
  lemma DoubleMissSteps(c: Config, s: State, address: Word32, mode: Mode, data: seq<Byte>)
    requires ValidConfig(c) && WellFormed(c, s) && Request(c, address, mode, data)
    requires var st := s.sets[SplitL1(address).index];
      !Hit(st.line1, SplitL1(address).tag) && !Hit(st.line2, SplitL1(address).tag)
    ensures var r := L2Access(c, s, address, mode, data); var sp := SplitL1(address); var st := s.sets[sp.index];
      r.ok <==> !DramFault(c, sp.memAddress) && st.tail != Null
                && !(DirtyVictim(st) && DramFault(c, VictimAddress(st, sp.index)))
    ensures var r := L2Access(c, s, address, mode, data); var sp := SplitL1(address); var st := s.sets[sp.index];
      r.ok ==>
        && r.steps == [DramRead(sp.memAddress)]
                      + (if DirtyVictim(st) then [DramWrite(VictimAddress(st, sp.index))] else [])
                      + [L2Step(mode)]
        && LineOf(r.post.sets[sp.index], st.tail) == CacheLine(true, mode == ModeWrite && IsL1Dirty(s, address), sp.tag)
  {
    var p := s.(init := true);
    var sp := SplitL1(address);
    L2FillEffects(c, p, sp);
    var f := L2Fill(c, p, sp);
    if f.ok {
      L2ServeEffects(c, f.post, address, p.sets[sp.index].tail, mode, data, f.steps);
    }
  }

  /** The eviction write-back of a double miss stores the victim's bytes at
      the victim's own block address and touches no other DRAM byte. */
  lemma EvictionWriteBack(c: Config, s: State, address: Word32, mode: Mode, data: seq<Byte>)
    requires ValidConfig(c) && WellFormed(c, s) && Request(c, address, mode, data)
    requires var st := s.sets[SplitL1(address).index];
      !Hit(st.line1, SplitL1(address).tag) && !Hit(st.line2, SplitL1(address).tag)
    ensures var r := L2Access(c, s, address, mode, data); var sp := SplitL1(address); var st := s.sets[sp.index];
      r.ok ==>
        && st.tail != Null
        && var base := SlotBase(sp.index, st.tail);
        && (DirtyVictim(st) ==> HoldsAt(r.post.dram, VictimAddress(st, sp.index), s.l2[base..base + BLOCK_SIZE]))
        && (forall i :: 0 <= i < |s.dram| && !(DirtyVictim(st) && VictimAddress(st, sp.index) <= i < VictimAddress(st, sp.index) + BLOCK_SIZE) ==>
              r.post.dram[i] == s.dram[i])
  {
    var p := s.(init := true);
    var sp := SplitL1(address);
    L2FillBytes(c, p, sp);
    var f := L2Fill(c, p, sp);
    if f.ok {
      L2ServeEffects(c, f.post, address, p.sets[sp.index].tail, mode, data, f.steps);
    }
  }

  /** A double miss leaves the bytes of the line it does not evict alone. */
  lemma EvictionKeepsOtherSlot(c: Config, s: State, address: Word32, mode: Mode, data: seq<Byte>)
    requires ValidConfig(c) && WellFormed(c, s) && Request(c, address, mode, data)
    requires var st := s.sets[SplitL1(address).index];
      !Hit(st.line1, SplitL1(address).tag) && !Hit(st.line2, SplitL1(address).tag)
    ensures var r := L2Access(c, s, address, mode, data); var sp := SplitL1(address); var st := s.sets[sp.index];
      var other := SlotBase(sp.index, Other(st.tail));
      r.ok ==> r.post.l2[other..other + BLOCK_SIZE] == s.l2[other..other + BLOCK_SIZE]
  {
    var p := s.(init := true);
    var sp := SplitL1(address);
    L2FillBytes(c, p, sp);
    var f := L2Fill(c, p, sp);
    if f.ok {
      var st := p.sets[sp.index];
      L2FillEffects(c, p, sp);
      L2ServeEffects(c, f.post, address, st.tail, mode, data, f.steps);
      var r := L2Serve(c, f.post, address, st.tail, mode, data, f.steps);
      var base := SlotBase(sp.index, st.tail);
      var other := SlotBase(sp.index, Other(st.tail));
      assert other + BLOCK_SIZE <= base || base + BLOCK_SIZE <= other;
      BlockKept(p.l2, f.post.l2, base, base + BLOCK_SIZE, other);
      if mode == ModeWrite {
        BlockKept(f.post.l2, r.post.l2, base + sp.offset, base + sp.offset + c.wordSize, other);
      }
    }
  }

  /** A completed L2 read returns the word at `address` from the line that
      hits, or from DRAM on a double miss. */
  lemma L2ReadWord(c: Config, s: State, address: Word32)
    requires ValidConfig(c) && WellFormed(c, s) && Request(c, address, ModeRead, [])
    ensures var r := L2Access(c, s, address, ModeRead, []); var sp := SplitL1(address); var st := s.sets[sp.index];
      r.ok ==> |r.word| == c.wordSize
               && (if Hit(st.line1, sp.tag) || Hit(st.line2, sp.tag) then
                     var at := SlotBase(sp.index, Lookup(st, sp.tag)) + sp.offset; r.word == s.l2[at..at + c.wordSize]
                   else address + c.wordSize <= |s.dram| && r.word == s.dram[address..address + c.wordSize])
  {
    var p := s.(init := true);
    var sp := SplitL1(address);
    var st := p.sets[sp.index];
    if Hit(st.line1, sp.tag) {
      L2ServeEffects(c, Touch(p, sp.index, Line1), address, Line1, ModeRead, [], []);
    } else if Hit(st.line2, sp.tag) {
      L2ServeEffects(c, Touch(p, sp.index, Line2), address, Line2, ModeRead, [], []);
    } else {
      L2ReadMissWord(c, p, address);
    }
  }

  /** A read that misses both ways of its set returns the word DRAM holds at
      the address, read from the evicted slot the fill overwrote. */
  lemma L2ReadMissWord(c: Config, p: State, address: Word32)
    requires ValidConfig(c) && WellFormed(c, p) && Request(c, address, ModeRead, []) && p.init
    requires var st := p.sets[SplitL1(address).index];
      !Hit(st.line1, SplitL1(address).tag) && !Hit(st.line2, SplitL1(address).tag)
    ensures var sp := SplitL1(address); var f := L2Fill(c, p, sp); var st := p.sets[sp.index];
      f.ok ==> (address + c.wordSize <= |p.dram|
                && L2Serve(c, f.post, address, st.tail, ModeRead, [], f.steps).word == p.dram[address..address + c.wordSize])
  {
    var sp := SplitL1(address);
    L2FillBytes(c, p, sp);
    var f := L2Fill(c, p, sp);
    if f.ok {
      L2FillEffects(c, p, sp);
      L2ReadOfCopiedBlock(c, f.post, address, p.sets[sp.index].tail, f.steps, p.dram);
    }
  }

  /** Reading from an L2 line whose slot holds a copy of the DRAM block of
      `address` gives the DRAM word at `address`. */
  lemma L2ReadOfCopiedBlock(c: Config, t: State, address: Word32, w: LinePtr, steps: seq<Step>, d: seq<Byte>)
    requires WellFormed(c, t) && Request(c, address, ModeRead, [])
    requires w != Null && t.sets[SplitL1(address).index].head == w
    requires var sp := SplitL1(address); var base := SlotBase(sp.index, w);
      sp.memAddress + BLOCK_SIZE <= |d| && t.l2[base..base + BLOCK_SIZE] == d[sp.memAddress..sp.memAddress + BLOCK_SIZE]
    ensures address + c.wordSize <= |d| && L2Serve(c, t, address, w, ModeRead, [], steps).word == d[address..address + c.wordSize]
  {
    var sp := SplitL1(address);
    CopiedWord(t.l2, SlotBase(sp.index, w), d, sp.memAddress, sp.offset, c.wordSize);
  }

  /** Every L2 access adds to `time` exactly the latencies of its steps. */
  lemma L2AccessTime(c: Config, s: State, address: Word32, mode: Mode, data: seq<Byte>)
    requires ValidConfig(c) && WellFormed(c, s) && Request(c, address, mode, data)
    ensures var r := L2Access(c, s, address, mode, data); r.post.time == s.time + Latency(c, r.steps)
  {
    var p := s.(init := true);
    var sp := SplitL1(address);
    var st := p.sets[sp.index];
    assert Latency(c, [L2Step(mode)]) == Cost(c, L2Step(mode));
    if Hit(st.line1, sp.tag) {
      L2ServeEffects(c, Touch(p, sp.index, Line1), address, Line1, mode, data, []);
    } else if Hit(st.line2, sp.tag) {
      L2ServeEffects(c, Touch(p, sp.index, Line2), address, Line2, mode, data, []);
    } else {
      L2FillTime(c, p, sp);
      var f := L2Fill(c, p, sp);
      if f.ok {
        L2FillEffects(c, p, sp);
        L2ServeEffects(c, f.post, address, st.tail, mode, data, f.steps);
        LatencyAppend(c, f.steps, [L2Step(mode)]);
      }
    }
  }

  /** A double miss adds to `time` the latencies of its DRAM steps. */
  lemma L2FillTime(c: Config, s: State, sp: Split)
    requires ValidConfig(c) && WellFormed(c, s) && sp.index < NUM_SETS && sp.memAddress % 64 == 0
    ensures var f := L2Fill(c, s, sp); f.ok ==> f.post.time == s.time + Latency(c, f.steps)
  {
    var st := s.sets[sp.index];
    var f := L2Fill(c, s, sp);
    L2FillEffects(c, s, sp);
    if f.ok {
      var rd := [DramRead(sp.memAddress)];
      assert Latency(c, rd) == c.dramReadTime by { assert rd[1..] == []; }
      if DirtyVictim(st) {
        var wr := [DramWrite(VictimAddress(st, sp.index))];
        assert Latency(c, wr) == c.dramWriteTime by { assert wr[1..] == []; }
        LatencyAppend(c, rd, wr);
      } else {
        assert f.steps == rd;
      }
    }
  }

  // ------------------------------------------------------- LRU replacement

  /** A completed L2 access keeps the accessed set linked and free of
      duplicate blocks, and leaves every other set as it was. */
  lemma L2AccessKeepsSetInvariants(c: Config, s: State, address: Word32, mode: Mode, data: seq<Byte>)
    requires ValidConfig(c) && WellFormed(c, s) && Request(c, address, mode, data)
    requires Distinct(s.sets[SplitL1(address).index])
    ensures var r := L2Access(c, s, address, mode, data); var post := r.post.sets[SplitL1(address).index];
      r.ok ==> Linked(post) && Distinct(post)
  {
    L2AccessSets(c, s, address, mode, data);
  }

  /** After accesses to two blocks of one set, whatever hit or missed, the
      set holds both: the later one in the head, the earlier one in the
      tail. */
  lemma LruKeepsTwoMostRecent(c: Config, s: State, a: Word32, b: Word32, ma: Mode, mb: Mode, da: seq<Byte>, db: seq<Byte>)
    requires ValidConfig(c) && WellFormed(c, s) && Request(c, a, ma, da) && Request(c, b, mb, db)
    requires SplitL1(a).index == SplitL1(b).index && SplitL1(a).tag != SplitL1(b).tag
    ensures var r1 := L2Access(c, s, a, ma, da);
      r1.ok ==> var r2 := L2Access(c, r1.post, b, mb, db); var st := r2.post.sets[SplitL1(b).index];
        r2.ok ==> Linked(st) && Hit(LineOf(st, st.head), SplitL1(b).tag) && Hit(LineOf(st, st.tail), SplitL1(a).tag)
  {
    var r1 := L2Access(c, s, a, ma, da);
    L2AccessSets(c, s, a, ma, da);
    if r1.ok {
      L2AccessSets(c, r1.post, b, mb, db);
    }
  }

  /** In a set holding the most recent block in its head and another in its
      tail, an access to a third block evicts the tail's, the least recently
      used: afterwards the set holds the new block and the previous head's
      block, and not the evicted one. */
  lemma LruEvictsLeastRecent(c: Config, s: State, x: Word32, mode: Mode, data: seq<Byte>, recent: Word32, least: Word32)
    requires ValidConfig(c) && WellFormed(c, s) && Request(c, x, mode, data)
    requires var st := s.sets[SplitL1(x).index];
      Linked(st) && Hit(LineOf(st, st.head), recent) && Hit(LineOf(st, st.tail), least)
    requires SplitL1(x).tag != recent && SplitL1(x).tag != least && recent != least
    ensures var r := L2Access(c, s, x, mode, data); var st := r.post.sets[SplitL1(x).index];
      r.ok ==>
        && Linked(st) && Hit(LineOf(st, st.head), SplitL1(x).tag) && Hit(LineOf(st, st.tail), recent)
        && !Hit(st.line1, least) && !Hit(st.line2, least)
  {
    var before := s.sets[SplitL1(x).index];
    assert Lookup(before, SplitL1(x).tag) == before.tail by {
      if before.head == Line1 {
        assert before.tail == Line2;
      } else {
        assert before.head == Line2 && before.tail == Line1;
      }
    }
    L2AccessSets(c, s, x, mode, data);
    var st := L2Access(c, s, x, mode, data).post.sets[SplitL1(x).index];
    if L2Access(c, s, x, mode, data).ok {
      assert st.head == Line1 ==> st.line1 == LineOf(st, st.head) && st.line2 == LineOf(st, st.tail);
      assert st.head == Line2 ==> st.line2 == LineOf(st, st.head) && st.line1 == LineOf(st, st.tail);
    }
  }

  /** From `initCache`, accesses to three blocks of set 0 (0x0, 0x4000 and
      0x8000, tags 0, 1 and 2), each hit or miss: the third evicts the
      first, least recently used, and keeps the second. */
  lemma InitThreeBlocksEvictFirst(c: Config, s: State, ma: Mode, mb: Mode, mc: Mode, da: seq<Byte>, db: seq<Byte>, dc: seq<Byte>)
    requires ValidConfig(c) && WellFormed(c, s)
    requires Request(c, 0x0, ma, da) && Request(c, 0x4000, mb, db) && Request(c, 0x8000, mc, dc)
    ensures var r1 := L2Access(c, Cleared(s), 0x0, ma, da);
      r1.ok ==> var r2 := L2Access(c, r1.post, 0x4000, mb, db);
        r2.ok ==> var r3 := L2Access(c, r2.post, 0x8000, mc, dc); var st := r3.post.sets[0];
          r3.ok ==>
            && Linked(st) && Hit(LineOf(st, st.head), 2) && Hit(LineOf(st, st.tail), 1)
            && !Hit(st.line1, 0) && !Hit(st.line2, 0)
  {
    TestAddressesShareSetZero();
    var r1 := L2Access(c, Cleared(s), 0x0, ma, da);
    LruKeepsTwoMostRecent(c, Cleared(s), 0x0, 0x4000, ma, mb, da, db);
    if r1.ok {
      var r2 := L2Access(c, r1.post, 0x4000, mb, db);
      if r2.ok {
        LruEvictsLeastRecent(c, r2.post, 0x8000, mc, dc, 1, 0);
      }
    }
  }

  // ---------------------------------------------------------------- L1

  /** The L2 read of an L1 miss leaves the block of `address` in its set, so
      the write-back that follows always hits: it costs exactly one L2 write,
      leaves DRAM alone and never aborts. */
  lemma L1WriteBackHitsL2(c: Config, s: State, address: Word32, data: seq<Byte>)
    requires ValidConfig(c) && WellFormed(c, s) && Request(c, address, ModeWrite, data)
    ensures var rd := L2Access(c, s, address, ModeRead, []);
      rd.ok ==> var wr := L2Access(c, rd.post, address, ModeWrite, data);
        wr.ok && wr.steps == [L2Write] && wr.post.dram == rd.post.dram
  {
    var rd := L2Access(c, s, address, ModeRead, []);
    L2AccessSets(c, s, address, ModeRead, []);
    if rd.ok {
      var st := rd.post.sets[SplitL1(address).index];
      assert Hit(st.line1, SplitL1(address).tag) || Hit(st.line2, SplitL1(address).tag);
      L2HitCharacterisation(c, rd.post, address, ModeWrite, data);
    }
  }

  /** The L2 read that starts an L1 miss. */
  function MissRead(c: Config, s: State, address: Word32): (r: Outcome)
    requires ValidConfig(c) && WellFormed(c, s) && Request(c, address, ModeRead, [])
    ensures WellFormed(c, r.post)
  {
    L2Access(c, s.(init := true), address, ModeRead, [])
  }

  predicate L1VictimDirty(s: State, address: Word32)
    requires |s.l1Lines| == L1_NUM_LINES
  {
    var line := s.l1Lines[SplitL1(address).index];
    line.valid && line.dirty
  }

  /** An L1 miss as `L1Fill` takes it: the steps, the clock and DRAM. */
  lemma L1FillEffects(c: Config, s: State, address: Word32, stale: seq<Byte>)
    requires ValidConfig(c) && WellFormed(c, s) && Request(c, address, ModeRead, []) && |stale| == BLOCK_SIZE
    ensures var r := L1Fill(c, s, address, stale); var rd := L2Access(c, s, address, ModeRead, []);
      && (r.ok <==> rd.ok)
      && r.post.init
      && (!r.ok ==> r.post == rd.post && r.steps == rd.steps)
      && (r.ok ==>
            && r.steps == rd.steps + (if L1VictimDirty(s, address) then [L2Write] else [])
            && r.post.dram == rd.post.dram
            && r.post.time == rd.post.time + (if L1VictimDirty(s, address) then c.l2WriteTime else 0))
  {
    var sp := SplitL1(address);
    var base := sp.index * BLOCK_SIZE;
    var rd := L2Access(c, s, address, ModeRead, []);
    L2AccessSets(c, s, address, ModeRead, []);
    if rd.ok && L1VictimDirty(s, address) {
      var d := rd.post.l1[base..base + c.wordSize];
      L1WriteBackHitsL2(c, s, address, d);
      L2HitCharacterisation(c, rd.post, address, ModeWrite, d);
    }
  }

  /** An L1 miss as `L1Fill` takes it: what it installs in L1. */
  lemma L1FillInstall(c: Config, s: State, address: Word32, stale: seq<Byte>)
    requires ValidConfig(c) && WellFormed(c, s) && Request(c, address, ModeRead, []) && |stale| == BLOCK_SIZE
    ensures var r := L1Fill(c, s, address, stale); var rd := L2Access(c, s, address, ModeRead, []);
      var sp := SplitL1(address); var base := sp.index * BLOCK_SIZE;
      r.ok ==>
        && |rd.word| == c.wordSize
        && r.post.l1Lines == s.l1Lines[sp.index := CacheLine(true, IsL2Dirty(r.post, address), sp.tag)]
        && r.post.l1[base..base + BLOCK_SIZE] == rd.word + stale[c.wordSize..]
        && (forall i :: 0 <= i < L1_SIZE && !(base <= i < base + BLOCK_SIZE) ==> r.post.l1[i] == s.l1[i])
  {
    var sp := SplitL1(address);
    var base := sp.index * BLOCK_SIZE;
    var rd := L2Access(c, s, address, ModeRead, []);
    L2AccessSets(c, s, address, ModeRead, []);
    if rd.ok {
      L2ReadWord(c, s, address);
      var wr := if L1VictimDirty(s, address)
                then L2Access(c, rd.post, address, ModeWrite, rd.post.l1[base..base + c.wordSize])
                else Outcome(true, rd.post, [], []);
      if L1VictimDirty(s, address) {
        L2AccessSets(c, rd.post, address, ModeWrite, rd.post.l1[base..base + c.wordSize]);
      }
      assert wr.post.l1Lines == s.l1Lines && wr.post.l1 == s.l1;
      if wr.ok {
        var temp := rd.word + stale[c.wordSize..];
        assert L1Fill(c, s, address, stale).post == wr.post.(l1 := Splice(s.l1, base, temp),
          l1Lines := s.l1Lines[sp.index := CacheLine(true, IsL2Dirty(wr.post, address), sp.tag)]);
      }
    }
  }

  /** The dirty victim of an L1 miss reaches L2: its first WORD_SIZE bytes
      land at the request's offset in the line that now holds the request's
      block, and that line is marked dirty. */
  lemma L1VictimToL2(c: Config, s: State, address: Word32, stale: seq<Byte>)
    requires ValidConfig(c) && WellFormed(c, s) && Request(c, address, ModeRead, []) && |stale| == BLOCK_SIZE
    requires L1VictimDirty(s, address)
    ensures var r := L1Fill(c, s, address, stale); var sp := SplitL1(address); var st := r.post.sets[sp.index];
      r.ok ==> (st.head != Null && Hit(LineOf(st, st.head), sp.tag) && LineOf(st, st.head).dirty
                && HoldsAt(r.post.l2, SlotBase(sp.index, st.head) + sp.offset, s.l1[sp.index * BLOCK_SIZE..sp.index * BLOCK_SIZE + c.wordSize]))
  {
    var sp := SplitL1(address);
    var base := sp.index * BLOCK_SIZE;
    var rd := L2Access(c, s, address, ModeRead, []);
    L2AccessSets(c, s, address, ModeRead, []);
    if rd.ok {
      var d := rd.post.l1[base..base + c.wordSize];
      var wr := L2Access(c, rd.post, address, ModeWrite, d);
      L2AccessSets(c, rd.post, address, ModeWrite, d);
      L2WriteHitStores(c, rd.post, address, d);
      var r := L1Fill(c, s, address, stale);
      assert r.ok && r.post.sets == wr.post.sets && r.post.l2 == wr.post.l2;
    }
  }

  /** An L2 write that hits stores the word at the request's offset in the
      line that is then the head. */
  lemma L2WriteHitStores(c: Config, t: State, address: Word32, data: seq<Byte>)
    requires ValidConfig(c) && WellFormed(c, t) && Request(c, address, ModeWrite, data)
    requires var sp := SplitL1(address); var st := t.sets[sp.index]; Hit(st.line1, sp.tag) || Hit(st.line2, sp.tag)
    ensures var r := L2Access(c, t, address, ModeWrite, data); var sp := SplitL1(address);
      var head := r.post.sets[sp.index].head;
      r.ok && head != Null && HoldsAt(r.post.l2, SlotBase(sp.index, head) + sp.offset, data)
  {
    var sp := SplitL1(address);
    var p := t.(init := true);
    if Hit(p.sets[sp.index].line1, sp.tag) {
      L2ServeEffects(c, Touch(p, sp.index, Line1), address, Line1, ModeWrite, data, []);
    } else {
      L2ServeEffects(c, Touch(p, sp.index, Line2), address, Line2, ModeWrite, data, []);
    }
  }

  /** Serving the word in L1 as `L1Serve` does it. */
  lemma L1ServeEffects(c: Config, s: State, address: Word32, mode: Mode, data: seq<Byte>, steps: seq<Step>)
    requires WellFormed(c, s) && Request(c, address, mode, data)
    ensures var r := L1Serve(c, s, address, mode, data, steps); var sp := SplitL1(address);
      var at := sp.index * BLOCK_SIZE + sp.offset;
      && r.ok && r.steps == steps + [L1Step(mode)] && r.post.time == s.time + Cost(c, L1Step(mode))
      && r.post.dram == s.dram && r.post.init == s.init && r.post.sets == s.sets && r.post.l2 == s.l2
      && (mode == ModeRead ==> r.word == s.l1[at..at + c.wordSize] && r.post.l1 == s.l1 && r.post.l1Lines == s.l1Lines)
      && (mode == ModeWrite ==>
            HoldsAt(r.post.l1, at, data)
            && (forall i :: 0 <= i < |s.l1| && !(at <= i < at + c.wordSize) ==> r.post.l1[i] == s.l1[i])
            && r.post.l1Lines == s.l1Lines[sp.index := s.l1Lines[sp.index].(dirty := true)])
  {
  }

  /** A completed L2 read has at least one step, and none of them is an L1
      step. */
  lemma L2ReadSteps(c: Config, s: State, address: Word32)
    requires ValidConfig(c) && WellFormed(c, s) && Request(c, address, ModeRead, [])
    ensures var r := L2Access(c, s, address, ModeRead, []);
      r.ok ==> |r.steps| >= 1 && r.steps[0] != L1Read && r.steps[0] != L1Write
  {
    var p := s.(init := true);
    var sp := SplitL1(address);
    var st := p.sets[sp.index];
    if Hit(st.line1, sp.tag) {
      L2ServeEffects(c, Touch(p, sp.index, Line1), address, Line1, ModeRead, [], []);
    } else if Hit(st.line2, sp.tag) {
      L2ServeEffects(c, Touch(p, sp.index, Line2), address, Line2, ModeRead, [], []);
    } else {
      L2FillEffects(c, p, sp);
      var f := L2Fill(c, p, sp);
      if f.ok {
        L2ServeEffects(c, f.post, address, st.tail, ModeRead, [], f.steps);
      }
    }
  }

  /** An access is served by L1 alone exactly when the indexed L1 line is
      valid with the request tag; such a hit leaves L2 and DRAM alone and
      costs exactly the L1 latency of its mode. */
  lemma L1HitCharacterisation(c: Config, s: State, address: Word32, mode: Mode, data: seq<Byte>, stale: seq<Byte>)
    requires ValidConfig(c) && WellFormed(c, s) && Request(c, address, mode, data) && |stale| == BLOCK_SIZE
    ensures var r := Access(c, s, address, mode, data, stale); var sp := SplitL1(address);
      (r.ok && r.steps == [L1Step(mode)]) <==> Hit(s.l1Lines[sp.index], sp.tag)
    ensures var r := Access(c, s, address, mode, data, stale); var sp := SplitL1(address);
      Hit(s.l1Lines[sp.index], sp.tag) ==>
        r.ok && r.post.dram == s.dram && r.post.l2 == s.l2 && r.post.sets == s.sets
        && r.post.time == s.time + Cost(c, L1Step(mode))
  {
    var p := s.(init := true);
    var sp := SplitL1(address);
    if Hit(p.l1Lines[sp.index], sp.tag) {
      L1ServeEffects(c, p, address, mode, data, []);
    } else {
      L1FillEffects(c, p, address, stale);
      var f := L1Fill(c, p, address, stale);
      if f.ok {
        L1ServeEffects(c, f.post, address, mode, data, f.steps);
        var rd := L2Access(c, p, address, ModeRead, []);
        L2ReadSteps(c, p, address);
        assert f.steps[0] == rd.steps[0];
        assert Access(c, s, address, mode, data, stale).steps[0] != L1Step(mode);
      }
    }
  }

  /** An L1 miss takes its steps in a fixed order: the L2 read of
      `address`, then an L2 write only if the old L1 line was valid and
      dirty, then the L1 step. The line ends valid with the request tag,
      dirty after a write and otherwise with what `is_L2_dirty` reports at
      the end. The miss aborts exactly when the L2 read does. */
  lemma L1MissSteps(c: Config, s: State, address: Word32, mode: Mode, data: seq<Byte>, stale: seq<Byte>)
    requires ValidConfig(c) && WellFormed(c, s) && Request(c, address, mode, data) && |stale| == BLOCK_SIZE
    requires !Hit(s.l1Lines[SplitL1(address).index], SplitL1(address).tag)
    ensures var r := Access(c, s, address, mode, data, stale); r.ok <==> MissRead(c, s, address).ok
    ensures var r := Access(c, s, address, mode, data, stale); var sp := SplitL1(address);
      r.ok ==>
        && r.steps == MissRead(c, s, address).steps + (if L1VictimDirty(s, address) then [L2Write] else []) + [L1Step(mode)]
        && r.post.l1Lines[sp.index] == CacheLine(true, mode == ModeWrite || IsL2Dirty(r.post, address), sp.tag)
  {
    var p := s.(init := true);
    L1FillEffects(c, p, address, stale);
      L1FillInstall(c, p, address, stale);
    var f := L1Fill(c, p, address, stale);
    if f.ok {
      L1ServeEffects(c, f.post, address, mode, data, f.steps);
    }
  }

  /** What a read miss returns: the L2 read fills only the first WORD_SIZE
      bytes of `TempBlock`, so the word read back at offset `o` is
      `TempBlock[o..o + WORD_SIZE]`: the word L2 served when `o` is 0, and
      only stale bytes when `o >= WORD_SIZE`. */
  lemma ReadMissWord(c: Config, s: State, address: Word32, stale: seq<Byte>)
    requires ValidConfig(c) && WellFormed(c, s) && Request(c, address, ModeRead, []) && |stale| == BLOCK_SIZE
    requires !Hit(s.l1Lines[SplitL1(address).index], SplitL1(address).tag)
    ensures var r := Access(c, s, address, ModeRead, [], stale); var rd := MissRead(c, s, address);
      var o := SplitL1(address).offset;
      r.ok ==> |rd.word| == c.wordSize && r.word == (rd.word + stale[c.wordSize..])[o..o + c.wordSize]
    ensures var r := Access(c, s, address, ModeRead, [], stale); var o := SplitL1(address).offset;
      r.ok && o == 0 ==> r.word == MissRead(c, s, address).word
    ensures var r := Access(c, s, address, ModeRead, [], stale); var o := SplitL1(address).offset;
      r.ok && o >= c.wordSize ==> r.word == stale[o..o + c.wordSize]
  {
    var p := s.(init := true);
    var sp := SplitL1(address);
    var base := sp.index * BLOCK_SIZE;
    L1FillInstall(c, p, address, stale);
    var f := L1Fill(c, p, address, stale);
    if f.ok {
      var temp := MissRead(c, s, address).word + stale[c.wordSize..];
      assert Access(c, s, address, ModeRead, [], stale) == L1Serve(c, f.post, address, ModeRead, [], f.steps);
      L1ReadOfBlock(c, f.post, address, f.steps, temp);
      if sp.offset >= c.wordSize {
        WordOfTail(MissRead(c, s, address).word, stale[c.wordSize..], sp.offset, c.wordSize);
      }
    }
  }

  /** Reading from an L1 line that holds `block` gives the block's word at
      the offset of `address`. */
  lemma L1ReadOfBlock(c: Config, t: State, address: Word32, steps: seq<Step>, block: seq<Byte>)
    requires WellFormed(c, t) && Request(c, address, ModeRead, []) && |block| == BLOCK_SIZE
    requires var base := SplitL1(address).index * BLOCK_SIZE; t.l1[base..base + BLOCK_SIZE] == block
    ensures var o := SplitL1(address).offset;
      L1Serve(c, t, address, ModeRead, [], steps).word == block[o..o + c.wordSize]
  {
    var sp := SplitL1(address);
    WordOfBlock(t.l1, sp.index * BLOCK_SIZE, block, sp.offset, c.wordSize);
  }

  /** An L1 miss keeps the set of `address` linked and free of duplicate
      blocks, and leaves every other set as it was. */
  lemma L1FillSets(c: Config, s: State, address: Word32, stale: seq<Byte>)
    requires ValidConfig(c) && WellFormed(c, s) && Request(c, address, ModeRead, []) && |stale| == BLOCK_SIZE
    requires Distinct(s.sets[SplitL1(address).index])
    ensures var r := L1Fill(c, s, address, stale); var idx := SplitL1(address).index;
      r.ok ==> (Linked(r.post.sets[idx]) && Distinct(r.post.sets[idx])
                && forall j :: 0 <= j < NUM_SETS && j != idx ==> r.post.sets[j] == s.sets[j])
  {
    var sp := SplitL1(address);
    var base := sp.index * BLOCK_SIZE;
    var rd := L2Access(c, s, address, ModeRead, []);
    L2AccessSets(c, s, address, ModeRead, []);
    L2AccessKeepsSetInvariants(c, s, address, ModeRead, []);
    if rd.ok && L1VictimDirty(s, address) {
      var d := rd.post.l1[base..base + c.wordSize];
      L2AccessSets(c, rd.post, address, ModeWrite, d);
      L2AccessKeepsSetInvariants(c, rd.post, address, ModeWrite, d);
    }
  }

  /** Every completed access keeps every set linked and free of duplicate
      blocks. */
  lemma AccessKeepsSetInvariants(c: Config, s: State, address: Word32, mode: Mode, data: seq<Byte>, stale: seq<Byte>)
    requires ValidConfig(c) && WellFormed(c, s) && Request(c, address, mode, data) && |stale| == BLOCK_SIZE
    requires SetsLinked(s) && SetsDistinct(s)
    ensures var r := Access(c, s, address, mode, data, stale); r.ok ==> SetsLinked(r.post) && SetsDistinct(r.post)
  {
    var p := s.(init := true);
    var sp := SplitL1(address);
    if Hit(p.l1Lines[sp.index], sp.tag) {
      L1ServeEffects(c, p, address, mode, data, []);
    } else {
      L1FillSets(c, p, address, stale);
      var f := L1Fill(c, p, address, stale);
      if f.ok {
        L1ServeEffects(c, f.post, address, mode, data, f.steps);
        var post := Access(c, s, address, mode, data, stale).post;
        assert post.sets == f.post.sets;
        assert forall j :: 0 <= j < NUM_SETS ==> Linked(post.sets[j]) && Distinct(post.sets[j]) by {
          forall j | 0 <= j < NUM_SETS
            ensures Linked(post.sets[j]) && Distinct(post.sets[j])
          {
            if j != sp.index {
              assert post.sets[j] == s.sets[j];
            }
          }
        }
      }
    }
  }

  /** `initCache` leaves every set linked and without duplicates. */
  lemma ClearedSetsLinked(s: State)
    ensures SetsLinked(Cleared(s)) && SetsDistinct(Cleared(s))
  {
  }

  /** Before `initCache`, every pointer is NULL and no line is valid: the
      first access to any set misses both lines and dereferences a NULL
      tail, so it aborts. */
  lemma UnlinkedSetAborts(c: Config, s: State, address: Word32, mode: Mode, data: seq<Byte>)
    requires ValidConfig(c) && WellFormed(c, s) && Request(c, address, mode, data)
    requires s.sets[SplitL1(address).index] == ZERO_SET
    ensures !L2Access(c, s, address, mode, data).ok
  {
    L2FillEffects(c, s.(init := true), SplitL1(address));
  }

  /** Every access, completed or aborted, adds to `time` exactly the
      latencies of the steps it took; so `time` never decreases. */
  lemma AccessTime(c: Config, s: State, address: Word32, mode: Mode, data: seq<Byte>, stale: seq<Byte>)
    requires ValidConfig(c) && WellFormed(c, s) && Request(c, address, mode, data) && |stale| == BLOCK_SIZE
    ensures var r := Access(c, s, address, mode, data, stale); r.post.time == s.time + Latency(c, r.steps)
    ensures Access(c, s, address, mode, data, stale).post.time >= s.time
  {
    var p := s.(init := true);
    var sp := SplitL1(address);
    assert Latency(c, [L1Step(mode)]) == Cost(c, L1Step(mode));
    assert Latency(c, [L2Write]) == c.l2WriteTime;
    if Hit(p.l1Lines[sp.index], sp.tag) {
      L1ServeEffects(c, p, address, mode, data, []);
    } else {
      L1FillEffects(c, p, address, stale);
      L2AccessTime(c, p, address, ModeRead, []);
      var f := L1Fill(c, p, address, stale);
      var rd := L2Access(c, p, address, ModeRead, []);
      if f.ok {
        L1ServeEffects(c, f.post, address, mode, data, f.steps);
        LatencyAppend(c, rd.steps, if L1VictimDirty(p, address) then [L2Write] else []);
        LatencyAppend(c, f.steps, [L1Step(mode)]);
      }
    }
  }

  /** `write(a, w)` followed by `read(a)` hits in L1 and returns `w`. */
  lemma WriteThenRead(c: Config, s: State, address: Word32, w: seq<Byte>, stale1: seq<Byte>, stale2: seq<Byte>)
    requires ValidConfig(c) && WellFormed(c, s) && Request(c, address, ModeWrite, w)
    requires |stale1| == BLOCK_SIZE && |stale2| == BLOCK_SIZE
    ensures var r1 := Access(c, s, address, ModeWrite, w, stale1);
      r1.ok ==> var r2 := Access(c, r1.post, address, ModeRead, [], stale2);
        r2.ok && r2.word == w && r2.steps == [L1Read]
  {
    var r1 := Access(c, s, address, ModeWrite, w, stale1);
    if r1.ok {
      var sp := SplitL1(address);
      var p := s.(init := true);
      if Hit(p.l1Lines[sp.index], sp.tag) {
        L1ServeEffects(c, p, address, ModeWrite, w, []);
      } else {
        L1FillEffects(c, p, address, stale1);
        L1FillInstall(c, p, address, stale1);
        var f := L1Fill(c, p, address, stale1);
        L1ServeEffects(c, f.post, address, ModeWrite, w, f.steps);
      }
      L1HitCharacterisation(c, r1.post, address, ModeRead, [], stale2);
      L1ServeEffects(c, r1.post.(init := true), address, ModeRead, [], []);
    }
  }

  /** A program using the simulator: it starts, runs `initCache`, writes `w`
      at `address` and reads it back. When the write completes, the read
      returns `w`. */
  method InitWriteRead(c: Config, address: Word32, w: seq<Byte>, stale1: seq<Byte>, stale2: seq<Byte>)
    returns (ok: bool, word: seq<Byte>)
    requires ValidConfig(c) && Request(c, address, ModeWrite, w)
    requires |stale1| == BLOCK_SIZE && |stale2| == BLOCK_SIZE
    ensures ok ==> word == w
  {
    var sim := new Simulator(c);
    sim.InitCache();
    ghost var s0 := sim.Abs();
    ok := sim.Write(address, w, stale1);
    word := [];
    if ok {
      WriteThenRead(c, s0, address, w, stale1, stale2);
      var readOk;
      readOk, word := sim.Read(address, stale2);
    }
  }
}
