# Dual cache simulator, modelled in Dafny

This project models the core of a cycle-counting cache simulator written in C. The simulator comes in three variants. Each keeps global state:

- the line metadata (valid bit, dirty bit, tag);
- the byte arrays `L1Cache`, `L2Cache` and `DRAM`;
- a `time` counter.

Every `read(address, data)` or `write(address, data)` runs one access through the hierarchy. The access adds a fixed latency per step to `time`.

- `task1/L1Cache.c`: one direct-mapped, write-back, write-allocate L1 of 256 lines of 64 bytes, over DRAM. The module is `L1Cache`; its properties are in `L1CacheProperties`.
- `task2/L2Cache.c`: the same L1 over a direct-mapped L2 of 512 lines, over DRAM. The module is `L2Cache`; its properties are in `L2CacheProperties`.
- `task3/2_way_set_associative.c`: the same L1 over an L2 of 256 sets of two lines each, with least-recently-used replacement. Each set keeps a `head` pointer (most recent) and a `tail` pointer (least recent). The module is `TwoWayCache`; its properties are in `TwoWayCacheProperties`.
- `Address` holds the address splits. `CacheCommon` holds the shared vocabulary: lines, steps and their costs, byte copies, and `accessDRAM`.

Each variant is modelled twice.

1. A `State` datatype stands for the globals. Pure functions compute one access as an `Outcome`:
   - whether it completed (`ok`);
   - the state reached;
   - the word read;
   - the sequence of timed steps it took (DRAM read or write at an address, L1 read or write, L2 read or write).

   The C calls `exit(-1)` in some places, and dereferences NULL in task3. Both are an `Outcome` with `ok == false`; its state is the one reached up to that point.
2. A class `Simulator` holds the globals as `array`s and fields. It has one method per C function, and a sub-method per branch of the long functions. Each method is proved to leave the arrays and fields equal to the spec function's result on the old state (`Abs() == r.post`).

The lemmas in the properties modules prove what the source promises about those functions:
- which accesses hit;
- the order of the miss steps;
- what a read returns;
- which lines and bytes change;
- the exact time added;
- the set invariants and least-recently-used eviction of the 2-way L2;
- a write followed by a read.

### How the C is rendered

- Addresses are unsigned 32-bit integers (`Word32`).
  - A mask of contiguous low bits followed by a right shift is written as the quotient and remainder by a power of two. On unsigned values the two compute the same thing.
  - `x << k` is `(x * 2^k) % 2^32`.
  - `(Tag << 14) | (index << 6)` is written as a sum. The two operands share no bit, so `|` and `+` agree (`ShiftLeft14Aligned`).
- WORD_SIZE, DRAM_SIZE and the six latencies come from a header that is not part of this model. They are fields of a `Config`. `ValidConfig` requires:
  - a word is at least one byte (`1 <= WORD_SIZE`);
  - a word fits in a block (`WORD_SIZE <= 64`);
  - DRAM is a whole number of blocks (`DRAM_SIZE % 64 == 0`);
  - DRAM holds at least one word (`WORD_SIZE <= DRAM_SIZE`).

  These are assumptions about the header's values, not checks the program makes.

  The line counts follow from the masks: 256 L1 lines, 512 L2 lines, and 256 sets.
- The quirks of the source are modelled as written:
  - **The stale `TempBlock` (task2 and task3).** `accessL2(address, TempBlock, MODE_READ)` copies only WORD_SIZE bytes into `TempBlock`. The L1 then installs all 64 bytes of `TempBlock`, and the bytes past the word are whatever the stack held. The model takes those bytes as a parameter, `stale`. As a consequence, a read miss at an offset of WORD_SIZE or more returns stale bytes (`ReadMissWord`).
  - **task1's write-back address.** A dirty victim goes to DRAM at `Tag << 6`, not at its own block address.
  - **task2's L2 write-back address.** A dirty L2 victim goes to DRAM at the requested `MemAddress`. The victim's own address is commented out in the source, so the write-back overwrites the very block that was just fetched (`L2VictimOverwritesRequestedBlock`).
  - **The L1 write-back (task2 and task3).** It passes the request's own address and `block_ptr` to `accessL2(..., MODE_WRITE)`. That call stores only the first WORD_SIZE bytes of the victim, at the request's offset in the request's L2 line (`L1VictimWordToL2`, `L1VictimToL2`).
  - **task3's `is_L2_dirty`.** It compares the unshifted `address & 0xFFFF8000` with the 18-bit shifted tags. It therefore reports the dirty bit of the block's own line only for addresses below 0x4000 (`UnshiftedTagIsOwnTagIff`, `IsL2DirtyOwnBlockBelow`, `IsL2DirtyMissesOwnBlock`).
  - **The DRAM bound check.** It tests WORD_SIZE bytes, but the copy moves BLOCK_SIZE bytes. Every call site passes a block-aligned address. Under `ValidConfig`, DRAM is a whole number of blocks, so the check then still keeps the copy inside DRAM (`DramAccess`).
  - **task3's pointers.** `head`, `tail` and `evictLine` become a `LinePtr`: `Null`, `Line1` or `Line2`. Static storage starts zeroed, so before the first `initCache` both pointers are `Null`. A double miss in such a set dereferences a NULL `tail`. The model treats that as an abort (`UnlinkedSetAborts`).

## Model

| member | source | states |
|---|---|---|
| Address.SplitL1 | lab1/DualCacheSimulator/task1/L1Cache.c:62-71 | The L1 (and 2-way L2) split gives offset < 64, index < 256 and an 18-bit tag. `MemAddress` is the address minus its offset and is block-aligned. |
| Address.SplitL2 | lab1/DualCacheSimulator/task2/L2Cache.c:135-144 | The direct-mapped L2 split gives offset < 64, index < 512 and a 17-bit tag. `MemAddress` is the address minus its offset and is block-aligned. |
| Address.SplitL1Recombines | lab1/DualCacheSimulator/task1/L1Cache.c:62-71 | `(Tag << 14) \| (index << 6) \| offset` gives back the address. |
| Address.SplitL2Recombines | lab1/DualCacheSimulator/task2/L2Cache.c:135-141 | `(Tag << 15) \| (index << 6) \| offset` gives back the address. |
| Address.SplitsCompared | lab1/DualCacheSimulator/task2/L2Cache.c:69-78 | The two splits agree on offset and block address. The L2 index is the L1 index with the lowest L1 tag bit on top, and the L2 tag drops that bit. |
| Address.ShiftLeft14Aligned | lab1/DualCacheSimulator/task3/2_way_set_associative.c:175 | `Tag << 14` has its 14 low bits clear, so OR-ing `index << 6` into it is addition. |
| Address.ShiftLeft6Aligned | lab1/DualCacheSimulator/task1/L1Cache.c:83 | `Tag << 6` is block-aligned, whatever bits the shift loses. |
| CacheCommon.Splice | lab1/DualCacheSimulator/task1/L1Cache.c:87 | `memcpy` into a byte sequence: the length is kept, the copied range holds the source, and every other byte is unchanged. |
| CacheCommon.CopyInto | lab1/DualCacheSimulator/task1/L1Cache.c:87 | `memcpy` into a byte array: the array afterwards is the `Splice` of its old contents. |
| CacheCommon.DramAccess | lab1/DualCacheSimulator/task1/L1Cache.c:16-32 | `accessDRAM` of every variant as a function. It keeps DRAM's size; its effect is stated by `DramAccessEffects`. |
| CacheCommon.DramAccessEffects | lab1/DualCacheSimulator/task1/L1Cache.c:16-32 | `accessDRAM` aborts iff the word at the address would pass DRAM's end, and an abort changes nothing. A read returns the 64-byte block at the address and changes nothing else. A write stores the 64 bytes there and touches no other byte. Each adds its DRAM latency. |
| L1Cache.WriteBack | lab1/DualCacheSimulator/task1/L1Cache.c:82-85 | Victim write-back to `Tag << 6`. It keeps every array its size; its effect is stated by `WriteBackEffects`. |
| L1Cache.Fill | lab1/DualCacheSimulator/task1/L1Cache.c:78-91 | Miss handling. It keeps every array its size; its effect is stated by `FillEffects`. |
| L1Cache.Serve | lab1/DualCacheSimulator/task1/L1Cache.c:94-103 | Word serve. It keeps every array its size; its effect is stated by `ServeEffects`. |
| L1Cache.Access | lab1/DualCacheSimulator/task1/L1Cache.c:38-104 | `accessL1`. It keeps every array its size; its properties are the lemmas of `L1CacheProperties`. |
| L1Cache.Prepared | lab1/DualCacheSimulator/task1/L1Cache.c:44-55 | The lazy clearing at the top of `accessL1`: afterwards the flag is set. A state already initialised is left as it is. Otherwise every line is invalid and clean. The bytes, DRAM and time are untouched. |
| L1Cache.Simulator.constructor | lab1/DualCacheSimulator/task1/L1Cache.c:3-7 | The globals start zeroed: init flag clear, every line empty, all bytes 0, time 0. |
| L1Cache.Simulator.ResetTime | lab1/DualCacheSimulator/task1/L1Cache.c:11 | `time` becomes 0. |
| L1Cache.Simulator.GetTime | lab1/DualCacheSimulator/task1/L1Cache.c:13 | Returns `time`. |
| L1Cache.Simulator.AccessDram | lab1/DualCacheSimulator/task1/L1Cache.c:16-32 | The `DRAM` array, `time` and the result are those of `DramAccess` on the old DRAM and time. |
| L1Cache.Simulator.InitCache | lab1/DualCacheSimulator/task1/L1Cache.c:36 | Only the init flag is cleared. |
| L1Cache.Simulator.WriteBackVictim | lab1/DualCacheSimulator/task1/L1Cache.c:82-85 | The new state and the abort flag are those of `WriteBack` on the old state. |
| L1Cache.Simulator.Miss | lab1/DualCacheSimulator/task1/L1Cache.c:78-91 | The new state and the abort flag are those of `Fill` on the old state. |
| L1Cache.Simulator.ServeWord | lab1/DualCacheSimulator/task1/L1Cache.c:94-103 | The word and the new state are those of `Serve` on the old state. |
| L1Cache.Simulator.AccessL1 | lab1/DualCacheSimulator/task1/L1Cache.c:38-104 | Clears every line when the flag is clear (the loop at 48-53), then hits or misses. The abort flag, the word and the new state are those of `Access` on the old state. |
| L1Cache.Simulator.Read | lab1/DualCacheSimulator/task1/L1Cache.c:106-108 | `accessL1` in read mode: the outcome of `Access` with `ModeRead`. |
| L1Cache.Simulator.Write | lab1/DualCacheSimulator/task1/L1Cache.c:110-112 | `accessL1` in write mode: the outcome of `Access` with `ModeWrite`. |
| L1CacheProperties.VictimAddress | lab1/DualCacheSimulator/task1/L1Cache.c:83 | The write-back address `Tag << 6` is block-aligned. |
| L1CacheProperties.FillInstallsBlock | lab1/DualCacheSimulator/task1/L1Cache.c:80-87 | A completed miss leaves in the indexed line exactly the 64 DRAM bytes at `MemAddress`. |
| L1CacheProperties.WriteBackEffects | lab1/DualCacheSimulator/task1/L1Cache.c:82-85 | A clean or invalid victim changes nothing. A valid dirty victim is written, as one DRAM write, to `Tag << 6` and nowhere else, and that write aborts iff `Tag << 6` fails the bound check. L1 is untouched. |
| L1CacheProperties.FillEffects | lab1/DualCacheSimulator/task1/L1Cache.c:78-91 | A miss is one DRAM read of `MemAddress`, then the victim write-back only if the victim is valid and dirty, then the install. It aborts iff one of those DRAM calls fails. On completion: the line is valid, clean and has the new tag; only the indexed line's bytes change, and they hold the DRAM block; DRAM changes only at the victim's block, which receives the old bytes. |
| L1CacheProperties.ServeEffects | lab1/DualCacheSimulator/task1/L1Cache.c:94-103 | A read returns the word at the offset and changes no line or byte. A write stores the word there, changes no other byte and sets the line's dirty bit. Either adds one L1 step and its latency and leaves DRAM alone. |
| L1CacheProperties.FirstAccessClearsLines | lab1/DualCacheSimulator/task1/L1Cache.c:44-55 | After `initCache`, the next access finds every line empty, and afterwards every line but the indexed one is still empty. |
| L1CacheProperties.LinesOutsideIndexKept | lab1/DualCacheSimulator/task1/L1Cache.c:73-100 | Whatever the outcome, only `lines[index]` and the 64 bytes at `index * 64` can differ. |
| L1CacheProperties.HitCharacterisation | lab1/DualCacheSimulator/task1/L1Cache.c:78-103 | An access completes with the single L1 step iff the line is valid with the request tag. A hit leaves DRAM alone and adds exactly the L1 read or write time. |
| L1CacheProperties.MissAborts | lab1/DualCacheSimulator/task1/L1Cache.c:80-85 | A miss aborts iff the fetch of `MemAddress` fails the bound check, or the victim is dirty and `Tag << 6` fails it. |
| L1CacheProperties.MissSteps | lab1/DualCacheSimulator/task1/L1Cache.c:78-103 | A completed miss takes, in order: the DRAM read of `MemAddress`, a DRAM write to `Tag << 6` iff the victim was valid and dirty, and the L1 step. That write stores the victim's old bytes, so it precedes the overwrite. |
| L1CacheProperties.ReadMissReturnsDramWord | lab1/DualCacheSimulator/task1/L1Cache.c:80-97 | A completed read miss returns the WORD_SIZE bytes DRAM held at the address. |
| L1CacheProperties.FillThenReadWord | lab1/DualCacheSimulator/task1/L1Cache.c:87-95 | Reading right after a completed fill gives the DRAM word at `MemAddress + offset`. |
| L1CacheProperties.ReadOfCopiedBlock | lab1/DualCacheSimulator/task1/L1Cache.c:94-97 | Reading from a line that holds a copy of a DRAM block gives that block's DRAM word. |
| L1CacheProperties.LineAfterAccess | lab1/DualCacheSimulator/task1/L1Cache.c:88-102 | After a completed access the line is valid with the request tag. It is dirty after a write, clean after a read miss, and unchanged after a read hit. |
| L1CacheProperties.FillTime | lab1/DualCacheSimulator/task1/L1Cache.c:78-91 | Miss handling adds exactly the latencies of its DRAM steps, even when it aborts. |
| L1CacheProperties.AccessTime | lab1/DualCacheSimulator/task1/L1Cache.c:24-101 | Every access, completed or aborted, adds exactly the sum of its steps' latencies, so `time` never decreases. |
| L1CacheProperties.DramOutsideVictimKept | lab1/DualCacheSimulator/task1/L1Cache.c:80-85 | An access changes DRAM at most in the block a valid dirty victim is written to. |
| L1CacheProperties.WriteThenRead | lab1/DualCacheSimulator/task1/L1Cache.c:95-112 | After a completed `write(a, w)`, `read(a)` hits, takes only the L1 read step and returns `w`. |
| L2Cache.L2WriteBack | lab1/DualCacheSimulator/task2/L2Cache.c:154-157 | L2 victim write-back to the incoming `MemAddress`. It keeps every array its size; its effect is stated by `L2WriteBackEffects`. |
| L2Cache.L2Fill | lab1/DualCacheSimulator/task2/L2Cache.c:151-163 | L2 miss handling. It keeps every array its size; its effect is stated by `L2FillEffects`. |
| L2Cache.L2Serve | lab1/DualCacheSimulator/task2/L2Cache.c:166-175 | L2 word serve. It keeps every array its size; its effect is stated by `L2ServeEffects`. |
| L2Cache.L2Access | lab1/DualCacheSimulator/task2/L2Cache.c:121-176 | `accessL2`. It keeps every array its size; its properties are the `L2…` lemmas of `L2CacheProperties`. |
| L2Cache.Cleared | lab1/DualCacheSimulator/task2/L2Cache.c:37-52 | The cache `initCache` leaves: flag clear, every L1 and every L2 line invalid and clean, and bytes, DRAM and time untouched. |
| L2Cache.L1Fill | lab1/DualCacheSimulator/task2/L2Cache.c:85-98 | L1 miss handling. It keeps every array its size; its effect is stated by `L1FillEffects`. |
| L2Cache.L1Serve | lab1/DualCacheSimulator/task2/L2Cache.c:101-110 | L1 word serve. It keeps every array its size; its effect is stated by `L1ServeEffects`. |
| L2Cache.Access | lab1/DualCacheSimulator/task2/L2Cache.c:54-111 | `accessL1`. It keeps every array its size; its properties are the L1 lemmas of `L2CacheProperties`. |
| L2Cache.Simulator.constructor | lab1/DualCacheSimulator/task2/L2Cache.c:3-8 | The globals start zeroed: init flag clear, every line of both levels empty, all bytes 0, time 0. The five arrays are freshly allocated, so a caller may run `initCache`, `read` and `write` on the new object. |
| L2Cache.Simulator.ResetTime | lab1/DualCacheSimulator/task2/L2Cache.c:12 | `time` becomes 0. |
| L2Cache.Simulator.GetTime | lab1/DualCacheSimulator/task2/L2Cache.c:14 | Returns `time`. |
| L2Cache.Simulator.AccessDram | lab1/DualCacheSimulator/task2/L2Cache.c:17-33 | The `DRAM` array, `time` and the result are those of `DramAccess` on the old DRAM and time. |
| L2Cache.Simulator.InitCache | lab1/DualCacheSimulator/task2/L2Cache.c:37-52 | Clears the flag and resets every L1 and every L2 line to valid = dirty = tag = 0, changing nothing else. |
| L2Cache.Simulator.IsL1DirtyBit | lab1/DualCacheSimulator/task2/L2Cache.c:113-117 | Returns the dirty bit of the L1 line the index bits select. |
| L2Cache.Simulator.IsL2DirtyBit | lab1/DualCacheSimulator/task2/L2Cache.c:178-182 | Returns the dirty bit of the L2 line the L2 index bits select. |
| L2Cache.Simulator.L2WriteBackVictim | lab1/DualCacheSimulator/task2/L2Cache.c:154-157 | The new state and the abort flag are those of `L2WriteBack` on the old state. |
| L2Cache.Simulator.L2Miss | lab1/DualCacheSimulator/task2/L2Cache.c:151-163 | The new state and the abort flag are those of `L2Fill` on the old state. |
| L2Cache.Simulator.L2ServeWord | lab1/DualCacheSimulator/task2/L2Cache.c:166-175 | The word and the new state are those of `L2Serve` on the old state. |
| L2Cache.Simulator.AccessL2 | lab1/DualCacheSimulator/task2/L2Cache.c:121-176 | The abort flag, the word and the new state are those of `L2Access` on the old state. |
| L2Cache.Simulator.L1Miss | lab1/DualCacheSimulator/task2/L2Cache.c:85-98 | The new state and the abort flag are those of `L1Fill` on the old state. |
| L2Cache.Simulator.L1WriteBack | lab1/DualCacheSimulator/task2/L2Cache.c:89-92 | A valid dirty L1 line is handed to `accessL2` in write mode with its first WORD_SIZE bytes. Any other line leaves the state as it was. |
| L2Cache.Simulator.L1Install | lab1/DualCacheSimulator/task2/L2Cache.c:94-97 | The block is copied into the L1 line, which becomes valid with the request tag and the dirty bit `is_L2_dirty` reports. Nothing else changes. |
| L2Cache.Simulator.L1ServeWord | lab1/DualCacheSimulator/task2/L2Cache.c:101-110 | The word and the new state are those of `L1Serve` on the old state. |
| L2Cache.Simulator.AccessL1 | lab1/DualCacheSimulator/task2/L2Cache.c:54-111 | The abort flag, the word and the new state are those of `Access` on the old state. |
| L2Cache.Simulator.Read | lab1/DualCacheSimulator/task2/L2Cache.c:184-186 | `accessL1` in read mode: the outcome of `Access` with `ModeRead`. |
| L2Cache.Simulator.Write | lab1/DualCacheSimulator/task2/L2Cache.c:188-190 | `accessL1` in write mode: the outcome of `Access` with `ModeWrite`. |
| L2CacheProperties.L2WriteBackEffects | lab1/DualCacheSimulator/task2/L2Cache.c:154-157 | A clean or invalid victim changes nothing. A valid dirty one is written, as one DRAM write, to the incoming `MemAddress` and nowhere else, and that write aborts iff `MemAddress` fails the bound check. Only DRAM and time change. |
| L2CacheProperties.L2FillEffects | lab1/DualCacheSimulator/task2/L2Cache.c:151-163 | An L2 miss aborts iff `MemAddress` fails the bound check; the write-back to the same block then cannot fail. On completion it takes the DRAM read, then a DRAM write iff the victim was valid and dirty. The L2 line becomes valid, clean and has the new tag. Only its bytes change, to the DRAM block. L1 is untouched. |
| L2CacheProperties.L2FillBlock | lab1/DualCacheSimulator/task2/L2Cache.c:152-159 | A completed L2 miss leaves in the L2 line the DRAM block at `MemAddress`. |
| L2CacheProperties.L2ServeEffects | lab1/DualCacheSimulator/task2/L2Cache.c:166-175 | An L2 read returns the word at the offset and changes nothing. An L2 write stores the word, changes no other byte and sets the line's dirty bit to `is_L1_dirty(address)`. Either adds one L2 step and touches neither L1 nor DRAM. |
| L2CacheProperties.L2AccessKeepsL1 | lab1/DualCacheSimulator/task2/L2Cache.c:121-176 | An L2 access never touches L1's lines or bytes, and it sets the init flag. |
| L2CacheProperties.L2HitCharacterisation | lab1/DualCacheSimulator/task2/L2Cache.c:151-175 | An L2 access completes with the single L2 step iff the L2 line is valid with the L2 tag. A hit leaves DRAM alone and adds exactly the L2 read or write time. |
| L2CacheProperties.L2MissSteps | lab1/DualCacheSimulator/task2/L2Cache.c:151-175 | An L2 miss aborts iff `MemAddress` fails the bound check. On completion it takes the DRAM read, a DRAM write to the same `MemAddress` iff the victim was valid and dirty, and the L2 step. Of the L2 lines only the indexed one changes: it ends valid with the tag, and dirty only after a write from a dirty L1 line. |
| L2CacheProperties.L2VictimOverwritesRequestedBlock | lab1/DualCacheSimulator/task2/L2Cache.c:152-157 | When the victim was dirty, DRAM ends up holding the victim's bytes at the requested block address. |
| L2CacheProperties.L2WriteTakesL1Dirty | lab1/DualCacheSimulator/task2/L2Cache.c:174 | A completed L2 write, hit or miss, leaves the L2 line's dirty bit equal to `is_L1_dirty(address)`. |
| L2CacheProperties.L2ReadWord | lab1/DualCacheSimulator/task2/L2Cache.c:151-168 | A completed L2 read returns the word L2 held at the offset on a hit, and the word DRAM held at the address on a miss. |
| L2CacheProperties.L2ReadMissWord | lab1/DualCacheSimulator/task2/L2Cache.c:152-167 | Reading after a completed L2 fill returns the DRAM word at the address. |
| L2CacheProperties.L2ReadOfCopiedBlock | lab1/DualCacheSimulator/task2/L2Cache.c:166-168 | Reading from an L2 line that holds the DRAM block of the address returns the DRAM word at the address. |
| L2CacheProperties.L2AccessTime | lab1/DualCacheSimulator/task2/L2Cache.c:121-176 | Every L2 access adds exactly the sum of its steps' latencies. |
| L2CacheProperties.DirtyLookupsIgnoreTag | lab1/DualCacheSimulator/task2/L2Cache.c:113-182 | `is_L1_dirty` and `is_L2_dirty` give the same answer for any two addresses with the same index bits: the tag plays no part. |
| L2CacheProperties.L1WriteBackHitsL2 | lab1/DualCacheSimulator/task2/L2Cache.c:87-91 | After the L2 read of an L1 miss, the block of the address is in L2. So the write-back that follows never aborts, takes exactly one L2 write and leaves DRAM alone. |
| L2CacheProperties.L1FillEffects | lab1/DualCacheSimulator/task2/L2Cache.c:85-98 | An L1 miss aborts iff its L2 read does. On completion it takes the L2 read's steps, then an L2 write iff the old L1 line was valid and dirty. The L1 line becomes valid with the tag; it is dirty iff L2's line was dirty after the read or a dirty victim was written. Its bytes become the L2 word followed by the stale `TempBlock` bytes, and no other L1 byte changes. Only the indexed L2 line changes, and a dirty victim's first WORD_SIZE bytes land at the request's L2 offset. |
| L2CacheProperties.L2ReadWordLength | lab1/DualCacheSimulator/task2/L2Cache.c:166-168 | A completed L2 read returns exactly WORD_SIZE bytes. |
| L2CacheProperties.L1ServeEffects | lab1/DualCacheSimulator/task2/L2Cache.c:101-110 | An L1 read returns the word and changes nothing. An L1 write stores the word, changes no other byte and sets the L1 dirty bit. Either adds one L1 step and touches neither L2 nor DRAM. |
| L2CacheProperties.L1HitCharacterisation | lab1/DualCacheSimulator/task2/L2Cache.c:85-110 | An access completes with the single L1 step iff the L1 line is valid with the L1 tag. Such a hit leaves L2 and DRAM alone and adds exactly the L1 latency. |
| L2CacheProperties.L2NonEmptySteps | lab1/DualCacheSimulator/task2/L2Cache.c:151-168 | A completed L2 read takes at least one step, and its first step is not an L1 step. |
| L2CacheProperties.L1MissSteps | lab1/DualCacheSimulator/task2/L2Cache.c:85-110 | An L1 miss aborts iff the L2 read does. On completion it takes, in order: the L2 read, an L2 write iff the old line was valid and dirty, and the L1 step. The line ends valid with the tag. It is dirty after a write; otherwise dirty iff a dirty victim was written, or L2 already held the block dirty. |
| L2CacheProperties.L1VictimWordToL2 | lab1/DualCacheSimulator/task2/L2Cache.c:89-92 | With a dirty victim, L2 ends up holding the victim's first WORD_SIZE bytes at the request's own L2 offset. |
| L2CacheProperties.ReadMissWord | lab1/DualCacheSimulator/task2/L2Cache.c:87-102 | A read miss at offset `o` returns `TempBlock[o..o+WORD_SIZE]`, where `TempBlock` is the L2 word followed by stale bytes. At offset 0 that is the L2 word; at offset WORD_SIZE or more it is stale bytes only. |
| L2CacheProperties.L1ReadOfBlock | lab1/DualCacheSimulator/task2/L2Cache.c:101-103 | Reading from an L1 line that holds a block returns the block's word at the offset. |
| L2CacheProperties.OnlyIndexedLinesChange | lab1/DualCacheSimulator/task2/L2Cache.c:54-176 | After a completed access only the L1 line the L1 index selects and its bytes, and only the L2 line the L2 index selects, can differ. |
| L2CacheProperties.AccessTime | lab1/DualCacheSimulator/task2/L2Cache.c:25-173 | Every access, completed or aborted, adds exactly the sum of its DRAM, L2 and L1 step latencies, so `time` never decreases. |
| L2CacheProperties.WriteThenRead | lab1/DualCacheSimulator/task2/L2Cache.c:101-190 | After a completed `write(a, w)`, `read(a)` hits in L1, takes only the L1 read step and returns `w`. |
| L2CacheProperties.InitWriteRead | lab1/DualCacheSimulator/task2/L2Cache.c:184-190 | A program that constructs the simulator, runs `initCache`, writes `w` at an address and reads it back gets `w` whenever the write completes. |
| TwoWayCache.WithLine | lab1/DualCacheSimulator/task3/2_way_set_associative.c:180-182 | Writing through a line pointer changes that line only; the other line and both pointers are kept. |
| TwoWayCache.Other | lab1/DualCacheSimulator/task3/2_way_set_associative.c:185 | The new tail is never NULL and is not the evicted line. |
| TwoWayCache.SlotBase | lab1/DualCacheSimulator/task3/2_way_set_associative.c:170-171 | The slot of a line lies inside its set's two blocks and inside `L2Cache`. Every branch's `block_ptr` is such a slot (187, 191, 199), so the NULL check at 205-208 never fires. |
| TwoWayCache.UnshiftedTag | lab1/DualCacheSimulator/task3/2_way_set_associative.c:227-228 | The tag `is_L2_dirty` looks for is a multiple of 0x8000 and at most the address. |
| TwoWayCache.EvictAddress | lab1/DualCacheSimulator/task3/2_way_set_associative.c:175 | The eviction address `(Tag << 14) \| (index << 6)` is block-aligned. |
| TwoWayCache.L2WriteBack | lab1/DualCacheSimulator/task3/2_way_set_associative.c:174-177 | The eviction write-back. It keeps every array its size; its effect is stated by `L2WriteBackEffects`. |
| TwoWayCache.L2Fill | lab1/DualCacheSimulator/task3/2_way_set_associative.c:163-187 | After a completed double miss, the new head is the old tail, which is not NULL. |
| TwoWayCache.L2Serve | lab1/DualCacheSimulator/task3/2_way_set_associative.c:210-219 | L2 word serve at the head's slot. It keeps every array its size; its effect is stated by `L2ServeEffects`. |
| TwoWayCache.L2Access | lab1/DualCacheSimulator/task3/2_way_set_associative.c:128-220 | `accessL2`. It keeps every array its size; its properties are the `L2…` and LRU lemmas of `TwoWayCacheProperties`. |
| TwoWayCache.Cleared | lab1/DualCacheSimulator/task3/2_way_set_associative.c:37-60 | The cache `initCache` leaves: flag clear, every L1 line and both lines of every set invalid and clean, every `head` at `line1` and `tail` at `line2`, and bytes, DRAM and time untouched. |
| TwoWayCache.Touch | lab1/DualCacheSimulator/task3/2_way_set_associative.c:189-203 | A hit on line `w` makes it the head and the other line the tail, so the set is linked. The set's lines, every other set and the rest of the state are unchanged. |
| TwoWayCache.L1Fill | lab1/DualCacheSimulator/task3/2_way_set_associative.c:93-105 | L1 miss handling. It keeps every array its size; its effect is stated by `L1FillEffects` and `L1FillInstall`. |
| TwoWayCache.L1Serve | lab1/DualCacheSimulator/task3/2_way_set_associative.c:108-117 | L1 word serve. It keeps every array its size; its effect is stated by `L1ServeEffects`. |
| TwoWayCache.Access | lab1/DualCacheSimulator/task3/2_way_set_associative.c:62-118 | `accessL1`. It keeps every array its size; its properties are the L1 lemmas of `TwoWayCacheProperties`. |
| TwoWayCache.Simulator.constructor | lab1/DualCacheSimulator/task3/2_way_set_associative.c:3-8 | The globals start zeroed: init flag clear, every line empty, every `head` and `tail` NULL, all bytes 0, time 0. The five arrays are freshly allocated, so a caller may run `initCache`, `read` and `write` on the new object. |
| TwoWayCache.Simulator.ResetTime | lab1/DualCacheSimulator/task3/2_way_set_associative.c:12 | `time` becomes 0. |
| TwoWayCache.Simulator.GetTime | lab1/DualCacheSimulator/task3/2_way_set_associative.c:14 | Returns `time`. |
| TwoWayCache.Simulator.AccessDram | lab1/DualCacheSimulator/task3/2_way_set_associative.c:17-33 | The `DRAM` array, `time` and the result are those of `DramAccess` on the old DRAM and time. |
| TwoWayCache.Simulator.InitCache | lab1/DualCacheSimulator/task3/2_way_set_associative.c:37-60 | Clears the flag and every L1 line. Both lines of every set become empty, with `head` at `line1` and `tail` at `line2`. Nothing else changes. |
| TwoWayCache.Simulator.IsL1DirtyBit | lab1/DualCacheSimulator/task3/2_way_set_associative.c:120-124 | Returns the dirty bit of the L1 line the index bits select. |
| TwoWayCache.Simulator.IsL2DirtyBit | lab1/DualCacheSimulator/task3/2_way_set_associative.c:223-243 | Returns the dirty bit of the first line of the set valid with the unshifted tag, and 0 when neither line matches. |
| TwoWayCache.Simulator.L2WriteBackVictim | lab1/DualCacheSimulator/task3/2_way_set_associative.c:174-177 | The new state and the abort flag are those of `L2WriteBack` on the old state. |
| TwoWayCache.Simulator.L2Miss | lab1/DualCacheSimulator/task3/2_way_set_associative.c:163-187 | The new state and the abort flag are those of `L2Fill` on the old state. |
| TwoWayCache.Simulator.L2ServeWord | lab1/DualCacheSimulator/task3/2_way_set_associative.c:210-219 | The word and the new state are those of `L2Serve` on the old state. |
| TwoWayCache.Simulator.AccessL2 | lab1/DualCacheSimulator/task3/2_way_set_associative.c:128-220 | The abort flag, the word and the new state are those of `L2Access` on the old state. |
| TwoWayCache.Simulator.L1Miss | lab1/DualCacheSimulator/task3/2_way_set_associative.c:93-105 | The new state and the abort flag are those of `L1Fill` on the old state. |
| TwoWayCache.Simulator.L1Install | lab1/DualCacheSimulator/task3/2_way_set_associative.c:101-104 | The block is copied into the L1 line, which becomes valid with the request tag and the dirty bit `is_L2_dirty` reports. Nothing else changes. |
| TwoWayCache.Simulator.L1ServeWord | lab1/DualCacheSimulator/task3/2_way_set_associative.c:108-117 | The word and the new state are those of `L1Serve` on the old state. |
| TwoWayCache.Simulator.AccessL1 | lab1/DualCacheSimulator/task3/2_way_set_associative.c:62-118 | The abort flag, the word and the new state are those of `Access` on the old state. |
| TwoWayCache.Simulator.Read | lab1/DualCacheSimulator/task3/2_way_set_associative.c:245-247 | `accessL1` in read mode: the outcome of `Access` with `ModeRead`. |
| TwoWayCache.Simulator.Write | lab1/DualCacheSimulator/task3/2_way_set_associative.c:249-251 | `accessL1` in write mode: the outcome of `Access` with `ModeWrite`. |
| TwoWayCacheProperties.VictimAddress | lab1/DualCacheSimulator/task3/2_way_set_associative.c:175 | The eviction address of the tail is block-aligned. |
| TwoWayCacheProperties.EvictAddressSplits | lab1/DualCacheSimulator/task3/2_way_set_associative.c:174-179 | The eviction address of an 18-bit tag and an index splits back into that tag, that index and offset 0: the victim goes to the block it came from. |
| TwoWayCacheProperties.EvictAddressOfSplit | lab1/DualCacheSimulator/task3/2_way_set_associative.c:146-151 | For any address, the eviction address of its own tag and index is its block address `MemAddress`. |
| TwoWayCacheProperties.TestAddressesShareSetZero | lab1/DualCacheSimulator/tests/test_tasks.c:8-10 | 0x0, 0x4000 and 0x8000 split into set 0 with tags 0, 1 and 2. |
| TwoWayCacheProperties.UnshiftedTagIsOwnTagIff | lab1/DualCacheSimulator/task3/2_way_set_associative.c:227-233 | The tag `is_L2_dirty` compares equals the address's own tag iff the address is below 0x4000. |
| TwoWayCacheProperties.IsL2DirtyOwnBlockBelow | lab1/DualCacheSimulator/task3/2_way_set_associative.c:223-243 | Below 0x4000, `is_L2_dirty` reports the dirty bit of the line that holds the block (0 when none does). |
| TwoWayCacheProperties.IsL2DirtyAnyLine | lab1/DualCacheSimulator/task3/2_way_set_associative.c:223-243 | In a set without duplicate blocks, `is_L2_dirty` is true iff some line of the set is valid and dirty with the tag it looks for, whichever line it checks first. |
| TwoWayCacheProperties.L1DirtyIgnoresTag | lab1/DualCacheSimulator/task3/2_way_set_associative.c:120-124 | `is_L1_dirty` reads the line the index bits select: addresses with the same L1 index get the same answer, whatever block the line holds. |
| TwoWayCacheProperties.IsL2DirtyMissesOwnBlock | lab1/DualCacheSimulator/task3/2_way_set_associative.c:223-243 | From 0x4000 on, when the block is in a line and the other line does not hold the unshifted tag, `is_L2_dirty` returns 0 whatever the line's dirty bit. |
| TwoWayCacheProperties.L2WriteBackEffects | lab1/DualCacheSimulator/task3/2_way_set_associative.c:174-177 | A clean or invalid victim changes nothing. A valid dirty victim's slot is written, as one DRAM write, to its eviction address and nowhere else, and that write aborts iff the address fails the bound check. |
| TwoWayCacheProperties.L2FillEffects | lab1/DualCacheSimulator/task3/2_way_set_associative.c:163-187 | A double miss aborts iff the fetch fails, the tail is NULL, or a dirty tail's eviction address fails the bound check. On completion the steps are the DRAM read, then a write iff the tail was valid and dirty. The tail's line becomes valid, clean and has the new tag; it becomes the head and the other line the tail. L1 is untouched. |
| TwoWayCacheProperties.L2FillBytes | lab1/DualCacheSimulator/task3/2_way_set_associative.c:166-179 | On completion the tail's slot holds the DRAM block and no other L2 byte changes. A dirty victim's old bytes land at its eviction address, and DRAM changes nowhere else. |
| TwoWayCacheProperties.L2ServeEffects | lab1/DualCacheSimulator/task3/2_way_set_associative.c:210-219 | A read returns the word from the head's slot and changes nothing. A write stores it there, changes no other byte and sets the head's dirty bit to `is_L1_dirty(address)`. Either adds one L2 step and touches neither L1 nor DRAM. |
| TwoWayCacheProperties.L2AccessSets | lab1/DualCacheSimulator/task3/2_way_set_associative.c:159-219 | After a completed L2 access, the line that hit (or the evicted tail) is the head and holds the request's tag. The other line is the tail and is unchanged. No other set changes, a write sets the head's dirty bit to `is_L1_dirty`, and L1 is untouched. |
| TwoWayCacheProperties.L2HitCharacterisation | lab1/DualCacheSimulator/task3/2_way_set_associative.c:159-203 | An L2 access completes with the single L2 step iff one of the set's lines is valid with the tag. A hit leaves DRAM alone and adds exactly the L2 latency. |
| TwoWayCacheProperties.DoubleMissSteps | lab1/DualCacheSimulator/task3/2_way_set_associative.c:163-219 | A double miss aborts iff the fetch fails, the tail is NULL, or a dirty tail's write-back fails. On completion it takes the DRAM read, the write-back iff the tail was dirty, and the L2 step. The tail's line ends valid with the tag, and dirty only after a write from a dirty L1 line. |
| TwoWayCacheProperties.EvictionWriteBack | lab1/DualCacheSimulator/task3/2_way_set_associative.c:174-179 | A dirty victim's old bytes are in DRAM at its eviction address before its slot is overwritten, and no other DRAM byte changes. |
| TwoWayCacheProperties.EvictionKeepsOtherSlot | lab1/DualCacheSimulator/task3/2_way_set_associative.c:168-187 | A double miss leaves the 64 bytes of the line it does not evict unchanged. |
| TwoWayCacheProperties.L2ReadWord | lab1/DualCacheSimulator/task3/2_way_set_associative.c:159-213 | A completed L2 read returns WORD_SIZE bytes: those of the line that hit, or the DRAM word at the address on a double miss. |
| TwoWayCacheProperties.L2ReadMissWord | lab1/DualCacheSimulator/task3/2_way_set_associative.c:166-213 | Reading after a completed double miss returns the DRAM word at the address. |
| TwoWayCacheProperties.L2ReadOfCopiedBlock | lab1/DualCacheSimulator/task3/2_way_set_associative.c:210-213 | Reading from a head slot that holds the DRAM block of the address returns the DRAM word at the address. |
| TwoWayCacheProperties.L2AccessTime | lab1/DualCacheSimulator/task3/2_way_set_associative.c:128-220 | Every L2 access adds exactly the sum of its steps' latencies. |
| TwoWayCacheProperties.L2FillTime | lab1/DualCacheSimulator/task3/2_way_set_associative.c:163-187 | A completed double miss adds exactly its DRAM steps' latencies. |
| TwoWayCacheProperties.L2AccessKeepsSetInvariants | lab1/DualCacheSimulator/task3/2_way_set_associative.c:184-201 | A completed L2 access leaves its set with head and tail non-NULL and distinct, and without duplicate blocks. |
| TwoWayCacheProperties.LruKeepsTwoMostRecent | lab1/DualCacheSimulator/task3/2_way_set_associative.c:168-201 | After completed accesses to two different blocks of one set, the head holds the later block and the tail the earlier one. |
| TwoWayCacheProperties.LruEvictsLeastRecent | lab1/DualCacheSimulator/task3/2_way_set_associative.c:168-185 | With the most recent block in the head and another in the tail, an access to a third block evicts the tail's block. The new block becomes the head, the previous head's block the tail, and the evicted block is gone. |
| TwoWayCacheProperties.InitThreeBlocksEvictFirst | lab1/DualCacheSimulator/task3/2_way_set_associative.c:159-203 | After `initCache`, accesses to 0x0, 0x4000 and 0x8000 (set 0, tags 0, 1, 2), each a hit or a miss, leave tag 2 in the head and tag 1 in the tail. No line of the set holds tag 0 any more. |
| TwoWayCacheProperties.L1WriteBackHitsL2 | lab1/DualCacheSimulator/task3/2_way_set_associative.c:95-98 | After the L2 read of an L1 miss, the block is in its set. So the write-back never aborts, takes one L2 write and leaves DRAM alone. |
| TwoWayCacheProperties.L1FillEffects | lab1/DualCacheSimulator/task3/2_way_set_associative.c:93-105 | An L1 miss aborts iff its L2 read does. On completion it takes the L2 read's steps, then an L2 write iff the old L1 line was valid and dirty, and it adds exactly that write's latency. DRAM changes only through the L2 read. |
| TwoWayCacheProperties.L1FillInstall | lab1/DualCacheSimulator/task3/2_way_set_associative.c:101-104 | On completion the L1 line is valid with the tag and the final `is_L2_dirty`. Its bytes are the L2 word followed by the stale `TempBlock` bytes, and no other L1 line or byte changes. |
| TwoWayCacheProperties.L1VictimToL2 | lab1/DualCacheSimulator/task3/2_way_set_associative.c:97-99 | With a dirty victim, the head of the set holds the request's block and is dirty. Its slot holds the victim's first WORD_SIZE bytes at the request's offset. |
| TwoWayCacheProperties.L2WriteHitStores | lab1/DualCacheSimulator/task3/2_way_set_associative.c:215-219 | An L2 write that hits completes and stores the word at the request's offset in the head's slot. |
| TwoWayCacheProperties.L1ServeEffects | lab1/DualCacheSimulator/task3/2_way_set_associative.c:108-117 | An L1 read returns the word and changes nothing. An L1 write stores the word, changes no other byte and sets the L1 dirty bit. Either adds one L1 step and touches neither L2 nor DRAM. |
| TwoWayCacheProperties.L2ReadSteps | lab1/DualCacheSimulator/task3/2_way_set_associative.c:128-213 | A completed L2 read takes at least one step, and its first step is not an L1 step. |
| TwoWayCacheProperties.L1HitCharacterisation | lab1/DualCacheSimulator/task3/2_way_set_associative.c:93-117 | An access completes with the single L1 step iff the L1 line is valid with the tag. Such a hit leaves L2 and DRAM alone and adds exactly the L1 latency. |
| TwoWayCacheProperties.L1MissSteps | lab1/DualCacheSimulator/task3/2_way_set_associative.c:93-117 | An L1 miss aborts iff the L2 read does. On completion it takes, in order: the L2 read, an L2 write iff the old line was valid and dirty, and the L1 step. The line ends valid with the tag, dirty after a write and otherwise with the final `is_L2_dirty`. |
| TwoWayCacheProperties.ReadMissWord | lab1/DualCacheSimulator/task3/2_way_set_associative.c:95-110 | A read miss at offset `o` returns `TempBlock[o..o+WORD_SIZE]`. That is the L2 word at offset 0, and stale bytes only at an offset of WORD_SIZE or more. |
| TwoWayCacheProperties.L1ReadOfBlock | lab1/DualCacheSimulator/task3/2_way_set_associative.c:108-110 | Reading from an L1 line that holds a block returns the block's word at the offset. |
| TwoWayCacheProperties.L1FillSets | lab1/DualCacheSimulator/task3/2_way_set_associative.c:93-105 | An L1 miss keeps the accessed set linked and without duplicates, and leaves every other set unchanged. |
| TwoWayCacheProperties.AccessKeepsSetInvariants | lab1/DualCacheSimulator/task3/2_way_set_associative.c:62-220 | If every set is linked with distinct blocks, it still is after any completed access. |
| TwoWayCacheProperties.ClearedSetsLinked | lab1/DualCacheSimulator/task3/2_way_set_associative.c:47-58 | After `initCache`, every set is linked (head and tail non-NULL and distinct) and holds no duplicates. |
| TwoWayCacheProperties.UnlinkedSetAborts | lab1/DualCacheSimulator/task3/2_way_set_associative.c:160-174 | In a set still zeroed from program start, any L2 access misses both lines and dereferences the NULL tail, so it aborts. |
| TwoWayCacheProperties.AccessTime | lab1/DualCacheSimulator/task3/2_way_set_associative.c:25-115 | Every access, completed or aborted, adds exactly the sum of its steps' latencies, so `time` never decreases. |
| TwoWayCacheProperties.WriteThenRead | lab1/DualCacheSimulator/task3/2_way_set_associative.c:108-251 | After a completed `write(a, w)`, `read(a)` hits in L1, takes only the L1 read step and returns `w`. |
| TwoWayCacheProperties.InitWriteRead | lab1/DualCacheSimulator/task3/2_way_set_associative.c:245-251 | A program that constructs the simulator, runs `initCache`, writes `w` at an address and reads it back gets `w` whenever the write completes. |

## Left out

- `printf`/`fprintf` and the process exit are not modelled as I/O. `exit(-1)` and the NULL dereference are an outcome with `ok == false`, carrying the state reached at that point.
- `time` is an unbounded `nat`. The wrap-around of `uint32_t time` is not modelled.
- Modes other than read and write are not modelled; `Mode` has only those two.
- `Cache.h` is not part of this model. WORD_SIZE, DRAM_SIZE and the latencies are the fields of a `Config`, constrained only by `ValidConfig`.
- L1Cache.Access, L2Cache.Access, L2Cache.L2Access, TwoWayCache.Access, TwoWayCache.L2Access and the `Simulator` methods that call them: require `Request`, which includes `offset + WORD_SIZE <= 64`. The source does not check this. A word that crosses its block would make the C copy past the line, and that case is outside this model.
- `CacheCommon.DramAccess`: requires a block-aligned address. Every call site in the three files passes one; an unaligned call is not modelled.
- The uninitialised bytes of `TempBlock` are a parameter (`stale`), not a particular value.
- task3's pointers are the three values of `LinePtr`, not a way index. NULL stays representable because the sets start zeroed.
- `tests/test_tasks.c` is not replayed step by step. Its address-to-set mapping is stated (`TestAddressesShareSetZero`), and the eviction its three addresses provoke is stated for L2 accesses after `initCache` (`InitThreeBlocksEvictFirst`), not for the full `write`/`read` sequence. Its printed values and the header `SimpleCache.h` it includes are not part of this model.
- No end-to-end theorem says written-back data reaches its own DRAM block, or that the dirty bits stay coherent across levels. The write-back addresses of task1 and task2 and task3's `is_L2_dirty` do not satisfy such theorems; the lemmas listed above state what they do instead.
