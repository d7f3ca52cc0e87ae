# Verified model of the kernel's core

A small teaching kernel (Xeros) with its boot loader and C library, modelled in Dafny
and proved against what its pieces are for. Five parts:

1. **The DEFLATE decoder of the boot loader.** `Bits`, `Canonical` and `CodeLengths`
   give C's word operations and the canonical Huffman codes of section 3.2.2 of RFC 1951.
   `Deflate` is the format of RFC 1951 as a function from the bits of the input to the
   bytes they stand for. `HuftTables`, `HuftDecode` and `HuftBuild` are the multi-level
   lookup tables; `BitReader` is the bit buffer, `Lz77` the sliding window, `Crc` the
   checksum, and `Inflate` the decoder, proved to succeed exactly where a stream can be
   looked up in its tables, then to give what `Deflate` says, and else to end as the first
   thing wrong calls for. `Ahead` says how that differs from the format near the end of the
   input, and `LastBit` is a stream for which it does. `Headers` says in numbers what the
   fields of a dynamic block stand for; `FixedBlocks` writes streams with the fixed codes
   and proves that they are read again; `CheckValues` has the residue of the checksum.
2. **Quicksort in place** (`Qsort`): the three-way partition with the moving block of
   equal elements, and the bound on how deep its calls nest.
3. **The heap** (`Heap`): the free list linked through headers in memory, proved to tile
   the two regions together with the blocks in use.
4. **Processes.** `Pcbs` is the linked queue behind every queue, `DeltaQueue` the sleep
   queue, `Places` the invariant that puts every process in one place. `Dispatcher` says
   what each round does to the processes as a function of values, and `Kernels` is the
   code on linked queues, proved to do just that over every run. `Slots` says what becomes
   of pids and signals over such runs, `Waiting` who wakes a process that waits for the end
   of another one, and `Replies` what processes are told. `Masks` are sets of signals as words, and `Signals`
   is the delivery of signals on the stack and its unwinding.
5. **Numbers as text** (`Doprnt`): printing of 32-bit numbers and the parser that reads
   them back.

Code that works by assignment is modelled by classes and methods with loops, in the
order of the C code; what they compute is stated through functions on values, and the
main results are lemmas about those functions. Words of C are natural or integer numbers
with the wrap-around written out where it can happen. A pointer is an index: into a
sequence of tables, into `pcb_array`, or an address in the heap.

## What the code does that its comments do not say

- `huft_build` returns 0 with no table for a list of zeros; its comment promises 2.
- The width search of `huft_build` increments before it compares. A table below the root
  can get one index bit too many, and then some codes are decoded wrongly.
  `HuftDecode.Decoding` gives the exact condition, `HuftDecode.OverwideExists` a code set
  that meets it, and no call in `inflate.c` can.
- The strings left over by an incomplete code get entries made from slots of `v[]` that
  were never written, as long as zero lengths are left to count; only then come entries
  marked invalid. Decoding such a string reads uninitialised memory (`Undefined`).
- A repeat code (16) before any length repeats zero. A match may reach back before the
  start of the output, into what the window held before.
- `Deflate` takes over two liberties of the decoder that RFC 1951 does not give: that
  repeat code, and a literal or code-length code of a single one-bit code (or none),
  which section 3.2.7 allows for distances only.
- Looking ahead for a code can run out of input near the end of a valid stream, which
  halts the boot loader: `Inflate.Inflater.Inflate` says exactly when. It takes a block
  with its own codes and fewer than 15 bits behind the stream.
- `kmalloc` writes through `curr->next` without a test for NULL (line 86). The model
  writes the header at address 0 there, as the machine does; that is when all of the last
  chunk is taken, and only then.
- For 16 sizes just above 0xFFFFFFE0 the chunk that `kmalloc` looks for comes to no bytes;
  it then links the first chunk to itself, and no later search gets past it.
- `create` clears only the first word of the signal table, and does not reset pending
  signals: what a process leaves pending is delivered to the next one in its slot, to a
  handler that was never set. `Slots.NextInSlot` says when, `Slots.KillLeavesLower` shows
  that it happens. It returns the pid, not 1.
- A sleeper woken by a signal is returned its difference in the delta queue, in ticks,
  which is its remaining time only if all sleepers ahead of it are due at once.
- Taking a sleeper out early does not give its time back to those behind it, and a sleep
  of no time takes a tick that the others then lose.
- `send` and `recv` look only at whom the other process is blocked on. Two processes that
  send to each other meet.
- They also wake a process in `wait`: a message between it and the one it waits for makes it
  ready while that one lives (`Waiting.SecondSends`). A process may wait for itself, and then
  only a signal wakes it.
- A pending signal equal to the highest running one can be admitted again, depending on
  the lower bits of the two masks. Then the mask loses track of the frames, and the last
  return searches an empty mask forever.
- `%-0` fields fill with zeros behind the number, which is then another number.

## Model

| member | source | states |
|---|---|---|
| Canonical.Shape.CodeMatches | boot/zBoot/inflate.c:196-286 | Read with the first bit most significant, as section 3.2.2 of RFC 1951 does, a stream starts with the r-th code of length k if and only if its low k bits are the bit-reversed pattern that the builder holds. |
| Canonical.Shape.CodesDisjoint | boot/zBoot/inflate.c:196-286 | No code is a prefix of a later one. |
| Canonical.Shape.ShallowNotOverwide | boot/zBoot/inflate.c:222-237 | If the longest code has at most twice the index bits, no table below the root gets too wide. |
| Canonical.Shape.FewNotOverwide | boot/zBoot/inflate.c:222-237 | Nor does any with fewer than 2^l codes in all. |
| CodeLengths.KraftAtMax | boot/zBoot/inflate.c:168-174 | The countdown over the lengths goes below zero, or stays above it, exactly when the sum of 2^(16-length) over the symbols is above or below 2^16. |
| CodeLengths.SortedAt | boot/zBoot/inflate.c:187-192 | The list of used symbols by length has, from the offset of a length on, the symbols of that length in symbol order. |
| HuftBuild.CountLengths | boot/zBoot/inflate.c:135-140 | The count table holds how many symbols have each length. |
| HuftBuild.Bounds | boot/zBoot/inflate.c:150-163 | Finds the shortest and the longest length in use. |
| HuftBuild.FillOut | boot/zBoot/inflate.c:168-174 | Reports more codes than strings exactly when there are; otherwise the strings left over are added to the count of the longest length. |
| HuftBuild.Offsets | boot/zBoot/inflate.c:178-183 | The offset of each length is the number of shorter codes. |
| HuftBuild.SortSymbols | boot/zBoot/inflate.c:178-192 | v holds the used symbols in order of length, equal lengths in symbol order. |
| HuftBuild.TableBits | boot/zBoot/inflate.c:222-237 | The width chosen for a table holds every code in its block, is no more than its longest code takes and less only from l up, and is more than l exactly if the code the table is started for is l bits below it and leaves part of the block to longer codes. |
| HuftBuild.FillEntries | boot/zBoot/inflate.c:278-281 | The entry is at every index that ends in the code's bits, and every other index keeps its entry. |
| HuftBuild.IncrementCode | boot/zBoot/inflate.c:283-286 | The bit-reversed code grows by one in place. |
| HuftBuild.CloseTables | boot/zBoot/inflate.c:288-293 | Backs up to the innermost open table that the next code continues. |
| HuftBuild.BuildTables | boot/zBoot/inflate.c:196-297 | Every code, dummy codes included, has its entry at all indices that continue it in the table reached by its leading bits, and tables are wider than l bits exactly where the shape says so. |
| HuftBuild.Build | boot/zBoot/inflate.c:99-303 | Returns 2 exactly for more codes than strings, else 1 exactly for fewer with a longest length other than 1, else 0; without codes 0 and no table. Unless it is 2, the tables decode the canonical code, and no other bits, and ask for no more bits than its lengths say, if and only if no table is too wide. |
| HuftTables.WalkReaches | boot/zBoot/inflate.c:353-361 | A stream that starts with the bits leading to a table is led to it through any nesting of links, having dumped just those bits. |
| HuftTables.WalkFinds | boot/zBoot/inflate.c:353-362 | A stream that starts with a code ends at that code's entry, with the bits dumped and those of the entry adding up to the code's length. |
| HuftTables.FedCode | boot/zBoot/inflate.c:353-361 | The tables on the way of a code look at no bit beyond those that are left if and only if the last of them does not. |
| HuftTables.NeedIs | boot/zBoot/inflate.c:213-257 | How many bits that takes is a matter of the code lengths alone: the width of the first table, or as many as the longest code takes that starts with the bits leading to the table, up to a width more. |
| HuftDecode.TablesDecode | boot/zBoot/inflate.c:196-297 | On every bit string the walk gives the symbol and length of canonical decoding; strings that start with no symbol's code give an invalid entry or one made from memory never written, which of the two being fixed; and every look-up stays inside its table. |
| HuftDecode.FeedsBuilt | boot/zBoot/inflate.c:353-361 | So for every bit string the look-ups find the bits they ask for if and only if that many are left. |
| HuftDecode.TooWide | boot/zBoot/inflate.c:222-237 | Where the width search goes one too far, some code's stream ends, short of the code, at an entry of a shorter code or one never written. |
| HuftDecode.TooWideFails | boot/zBoot/inflate.c:222-237 | So such tables do not decode their code set. |
| HuftDecode.OverwideExists | boot/zBoot/inflate.c:222-237 | The lengths 1, 2, 3, 4, 4 with a wanted width of 1 are a complete code set of this kind. |
| HuftDecode.SymbolUnique | boot/zBoot/inflate.c:353-362 | No bit string starts with the codes of two symbols. |
| BitReader.Reader.NeedBits | boot/zBoot/inflate.c:84-84 | Ends with the next n bits of the input lowest in a buffer of at most 32 bits, without consuming any, or reports that the input has fewer left. |
| BitReader.Reader.TakeBits | boot/zBoot/inflate.c:574-583 | A field is the next n bits of the input as a number, or the input ends first. |
| BitReader.Reader.GiveBack | boot/zBoot/inflate.c:793-799 | The next read is at the first whole byte after the last bit consumed. |
| Deflate.CopyAt | boot/zBoot/inflate.c:398-418 | Each byte a match appends equals the one its distance before it (section 3.2.3 of RFC 1951), overlap included. |
| Deflate.LengthsMeet | boot/zBoot/inflate.c:363-380 | The ranges of the length symbols follow one another: every length from 3 to 258 can be written. |
| Deflate.LengthCoded | boot/zBoot/inflate.c:363-380 | Every length from 3 to 257 has exactly one symbol and extra bits. |
| Deflate.DistancesMeet | boot/zBoot/inflate.c:393-396 | The ranges of the distance symbols follow one another from 1 to 32768. |
| Deflate.DistanceCoded | boot/zBoot/inflate.c:393-396 | Every distance from 1 to 32768 has exactly one symbol and extra bits. |
| Headers.HeadRead | boot/zBoot/inflate.c:575-583 | The fourteen bits at the start of a dynamic block give these three numbers of codes if and only if they are (nl - 257) + 32 (nd - 1) + 1024 (nb - 4), and nothing else is consumed. |
| Headers.TooMany | boot/zBoot/inflate.c:584-589 | More than 286 literal/length or 30 distance codes are refused before anything more is read; with up to that many reading goes on. |
| Headers.CodeLengthRead | boot/zBoot/inflate.c:594-601 | Where in the block the three bits for each symbol of the code-length code are: 16, 17, 18, 0, 8, 7 and so on, zero past those given. |
| Headers.RunsAre | boot/zBoot/inflate.c:620-660 | Every run of lengths: one below 16 alone, 3 to 6 times the last one exactly by 16 and two bits, 3 to 10 zeros by 17 and three bits, 11 to 138 zeros by 18 and seven bits, with just those bits consumed. |
| Headers.ZerosCoded | boot/zBoot/inflate.c:639-660 | After a length other than zero each run of 3 to 138 zeros has exactly one symbol and one field. |
| Headers.RepeatCoded | boot/zBoot/inflate.c:628-638 | And so has each repetition of that length. |
| Headers.ZerosWritten | boot/zBoot/inflate.c:639-660 | All of these runs of zeros can be written. |
| FixedBlocks.LiteralCode | boot/zBoot/inflate.c:504-513 | The fixed literal/length codes are those of section 3.2.6 of RFC 1951: 48 + y in 8 bits, 400 + (y - 144) in 9, y - 256 in 7 and 192 + (y - 280) in 8. |
| FixedBlocks.DistanceCode | boot/zBoot/inflate.c:520-525 | Each fixed distance code is its symbol in five bits. |
| FixedBlocks.LengthTable | boot/zBoot/inflate.c:51-57 | The bases and extra bits of the length symbols in closed form: four symbols for each number of extra bits. |
| FixedBlocks.DistanceTable | boot/zBoot/inflate.c:58-65 | Those of the distance symbols: two for each number of extra bits. |
| FixedBlocks.StoredRead | boot/zBoot/inflate.c:434-487 | Every string of up to 65535 bytes, behind the byte 1, its length and the complement of that, both lowest byte first, is a stream that stands for it. |
| FixedBlocks.EncodedRead | boot/zBoot/inflate.c:328-431 | Whatever bytes and repetitions are written as a block with the fixed codes, by formulas of their own for symbols and fields, the stream is read to its last bit and stands for what they say. |
| FixedBlocks.EncodedLooked | boot/zBoot/inflate.c:488-542 | So it is when codes are looked up ahead in tables. |
| FixedBlocks.AllWritten | boot/zBoot/inflate.c:328-431 | Every string of bytes can be written so. |
| FixedBlocks.NothingRead | boot/zBoot/inflate.c:740-764 | The bytes 3 and 0 are the empty block: ten bits and no output. |
| FixedBlocks.ElevenRead | boot/zBoot/inflate.c:740-764 | The bytes 75, 68, 0 and 0 stand for eleven times the byte 97. |
| Deflate.LengthsRead | boot/zBoot/inflate.c:616-660 | All code lengths read are at most 15. |
| Deflate.CodesAfter | boot/zBoot/inflate.c:328-430 | What a block's codes give after some bytes they give after any more in front of those. |
| Deflate.StreamAfter | boot/zBoot/inflate.c:769-810 | The same of a whole stream, so what the window held at first does not matter to a valid one. |
| Ahead.StreamAgrees | boot/zBoot/inflate.c:353-361 | Whatever is read by looking codes up ahead is what RFC 1951 says is there, and everything that RFC 1951 says is there is read if 15 more bits stand behind it. |
| Ahead.LiteralsTight | boot/zBoot/inflate.c:504-528 | With the fixed literal code and a first table of 7 bits no look-up asks for more bits than the code has. |
| Ahead.DistancesTight | boot/zBoot/inflate.c:523-528 | Nor with the fixed distance code. |
| Ahead.WidthNeeded | boot/zBoot/inflate.c:87-88 | A code of up to 9 bits in a code set with longer ones is looked up if and only if the input has 9 bits left; 6 for distances, and 7 for the code-length code. |
| Ahead.StreamSame | boot/zBoot/inflate.c:353-361 | So a stream without blocks that bring their own codes is read ahead just as the format says, with nothing behind it. |
| Ahead.EndOutOfReach | boot/zBoot/inflate.c:353-361 | For a code set with a one-bit end of block and two two-bit literals, one zero bit at the end of the input is the whole rest of a block, and cannot be looked up. |
| LastBit.LastBitOutOfReach | boot/zBoot/inflate.c:769-810 | Twelve bytes, a dynamic block with its header, are a whole stream of RFC 1951, and cannot be read ahead. |
| Ahead.LoneCodeUnwritten | boot/zBoot/inflate.c:259-268 | With the lengths 1 and 0, which may be used, a bit that is one leads to memory never written. |
| Lz77.Window.FlushOutput | boot/zBoot/misc.c:261-271 | The window up to w goes to the output, the checksum register is that of all output so far, and flushed output and window together stay the same bytes. |
| Lz77.Window.PutByte | boot/zBoot/inflate.c:365-370 | Appends one byte to all bytes so far, through a flush or not. |
| Lz77.Window.CopyBlockOut | boot/zBoot/inflate.c:402-407 | When the unsigned distance ahead is at least e, copying e bytes at once is a match of e bytes. |
| Lz77.Window.CopyBytesOut | boot/zBoot/inflate.c:409-412 | Copying byte by byte is a match even where it overlaps itself. |
| Lz77.Window.CopyChunk | boot/zBoot/inflate.c:400-417 | One round copies at least a byte of the match and leaves the rest of it to copy, through wrap-around of either end and a flush. |
| Lz77.Window.CopyOut | boot/zBoot/inflate.c:398-418 | Flushed output and window together grow by exactly the match of section 3.2.3 of RFC 1951, for every length and every distance up to 32768. |
| Crc.CrcAppend | boot/zBoot/misc.c:199-217 | The register after two pieces is the register after the whole, so checksums of window flushes add up. |
| Crc.StepXor | boot/zBoot/misc.c:303-308 | A division step is linear over exclusive or. |
| Crc.StepsByByte | boot/zBoot/misc.c:210-213 | Eight steps on a word are eight steps on its low byte and a shift of the rest. |
| Crc.ByTable | boot/zBoot/misc.c:212-212 | Looking the low byte up and shifting is the eight bitwise steps of section 8 of RFC 1952 for the byte. |
| Crc.TermsArePoly | boot/zBoot/misc.c:290-296 | The exponents listed make 0xEDB88320. |
| Crc.TableEntry | boot/zBoot/misc.c:302-309 | Entry i is eight bitwise division steps applied to i, though the loop feeds its bits in one at a time. |
| Crc.Checksum.MakeCrc | boot/zBoot/misc.c:281-311 | All 256 entries are so. |
| Crc.Checksum.UpdCrc | boot/zBoot/misc.c:199-217 | The register is the bit-at-a-time one after the bytes, kept between calls; NULL resets it; the result is its complement. |
| CheckValues.Residue | boot/zBoot/misc.c:199-217 | From a register of all ones, every string followed by its own checksum, lowest byte first, leaves 0xDEBB20E3. |
| CheckValues.CrcOfZero | boot/zBoot/misc.c:199-217 | The checksum of the byte 0 is 0xD202EF8D. |
| Inflate.UsableBuilt | boot/zBoot/inflate.c:605-612 | The code sets accepted are exactly the complete ones, a single code of one bit, and none at all. |
| Inflate.NotOverwide | boot/zBoot/inflate.c:605-702 | No code set that the decoder can ask for gets a table too wide. |
| Inflate.FixedKraft | boot/zBoot/inflate.c:504-528 | The fixed literal code is complete, the fixed distance code of thirty 5-bit codes is not. |
| Inflate.FoundIsSymbol | boot/zBoot/inflate.c:259-286 | Every string is accounted for: its walk runs out of input, finds the symbol of its code, or ends at an invalid entry or one made of memory never written, and which of them the code lengths say. |
| Inflate.NoneInvalid | boot/zBoot/inflate.c:616-625 | With a code set that may be used no string ends at an entry marked invalid. |
| Inflate.Inflater.Lookup | boot/zBoot/inflate.c:353-362 | The look-up loop with its bit buffer ends where the walk over the unread input ends, or at an invalid code; it halts if and only if some table on the way asks for more bits than the input has left. |
| Inflate.Inflater.NextSymbol | boot/zBoot/inflate.c:353-362 | It gives the next symbol of the canonical code and consumes just its code, or halts, fails or reads memory never written where the code lengths and what is left of the input say so. |
| Inflate.Inflater.ReadMatch | boot/zBoot/inflate.c:378-396 | So is a length, before it. |
| Inflate.Inflater.ReadDistance | boot/zBoot/inflate.c:384-396 | A distance is the base value of its symbol plus extra bits (section 3.2.5), from 1 to 32768. |
| Inflate.Inflater.InflateCodes | boot/zBoot/inflate.c:328-430 | Returns 0 with the literals and matches of the block appended and the input just past its end, or ends in the one way that the first thing wrong with the block calls for. |
| Inflate.Inflater.InflateStored | boot/zBoot/inflate.c:434-486 | Resumes at the next byte boundary, checks length against complement, and appends those bytes (section 3.2.4). |
| Inflate.Inflater.InflateFixed | boot/zBoot/inflate.c:490-540 | A block with the codes of section 3.2.6. |
| Inflate.Inflater.CodeLengthLengths | boot/zBoot/inflate.c:593-601 | The lengths of the code-length code, in the permuted order, zero where none is given. |
| Inflate.Inflater.ReadLengths | boot/zBoot/inflate.c:616-660 | On success exactly n lengths are written, the run-length expansion of section 3.2.7, runs crossing from literal to distance lengths; nothing is written outside the array. |
| Inflate.Inflater.InflateDynamic | boot/zBoot/inflate.c:544-718 | A block that starts with its own codes, as section 3.2.7 has it. |
| Inflate.Inflater.InflateBlock | boot/zBoot/inflate.c:722-765 | One block of any kind with its last-block bit; kind 3 is an error. |
| Inflate.Inflater.InflateBlocks | boot/zBoot/inflate.c:783-791 | Block after block up to the last. |
| Inflate.Inflater.Finish | boot/zBoot/inflate.c:793-802 | After the rest is flushed, the output is all bytes so far, its checksum is in the register, and the input is at the first unused byte. |
| Inflate.Inflater.Inflate | boot/zBoot/inflate.c:769-810 | How it ends is decided by the input: with 0 if and only if that starts with a stream all of whose codes can be looked up, and then the output is what the stream stands for, the CRC-32 that of the output, and the input at the first byte after it; else with just the return value, halt or read of memory never written that the first thing wrong calls for. |
| Inflate.ComesOut | boot/zBoot/inflate.c:769-810 | In terms of RFC 1951: where it returns 0 the format has the same stream, and every stream is decoded to the bytes it stands for on its own, whatever the window held, if 15 more bits stand behind it or none of its blocks brings its own codes. |
| Qsort.RotatePermutes | lib/libxc/qsort.c:103-119 | The three-way exchange only reorders, aliased or not. |
| Qsort.Below | lib/libxc/qsort.c:38-47 | Looking at the value at i keeps smaller, equal and greater values apart, and either uses it up or leaves a greater one there. |
| Qsort.Above | lib/libxc/qsort.c:49-68 | Looking at the values above keeps them apart and uses up all of them, or stops with fewer left in all after an exchange. |
| Qsort.PartMore | lib/libxc/qsort.c:38-85 | One round of the partition keeps smaller, equal and greater values apart and leaves less to look at, also where the places of a three-way exchange coincide. |
| Qsort.Partition | lib/libxc/qsort.c:33-70 | Ends with smaller values, a block equal to the pivot, and greater values, a permutation of before. |
| Qsort.Recurse | lib/libxc/qsort.c:71-79 | The smaller part is sorted by a call, the larger one is left, and both together with what is around them stay in order. |
| Qsort.Qs1 | lib/libxc/qsort.c:19-86 | The range ends as a sorted permutation, the rest of the array is unchanged, and the calls open at a time are at most one more than the logarithm to base 2 of its length. |
| Qsort.Sort | lib/libxc/qsort.c:14-17 | So for the first n elements, for every comparison that is a total order of equivalence classes. |
| Heap.Heap.constructor | c/mem.c:35-51 | The two regions around the hole are free, 16-aligned and linked. |
| Heap.Heap.Kmalloc | c/mem.c:57-96 | Takes the front of the first chunk that fits, rounded to 16 bytes with its header; NULL exactly if nothing was asked for or no chunk fits. Free and allocated chunks go on to tile the regions, every link matches its inverse, and the header at address 0 is written if and only if all of the last chunk is taken. A size whose chunk comes to no bytes leaves the first chunk of the list linked to itself. |
| Heap.Heap.Kfree | c/mem.c:102-130 | Refuses exactly when the check word does not match, changing nothing; else the block is free again, in its place and joined with its neighbours. Nothing is written at address 0. |
| Heap.Heap.TakeChunk | c/mem.c:67-88 | What the writes do to memory, by address, address 0 included: it is written if and only if the chunk is taken whole and has none behind it. Taking nothing links the chunk to itself. |
| Heap.Heap.CoalesceBlocks | c/mem.c:146-160 | Joins two chunks if they touch, and is harmless on NULL. |
| Heap.RequiredHolds | c/mem.c:57-62 | The chunk for a request holds it with its header, with less than 16 bytes to spare, if and only if the request is at most 0xFFFFFFE0; beyond that the sums wrap round, to a chunk of no bytes for the next 16 sizes. |
| Heap.GoesRound | c/mem.c:65-93 | From a chunk linked to itself every number of links leads to it again, and it has no bytes. |
| Heap.TakenTiled | c/mem.c:66-88 | Taking a chunk keeps free and allocated chunks an exact tiling in order, never adjacent. |
| Heap.FreedTiled | c/mem.c:108-128 | So does freeing one. |
| Heap.CoverUnique | c/mem.c:146-160 | Chunks in order and never adjacent are determined by the addresses they cover. |
| Heap.FreeDetermined | c/mem.c:57-130 | The free list is a function of the blocks in use alone, however the heap came to them. |
| Heap.AllFree | c/mem.c:35-51 | With nothing in use it is exactly the two first regions. |
| Heap.AllocateFree | c/mem.c:57-130 | Freeing a block just allocated restores the identical list. |
| Heap.FreeOrder | c/mem.c:102-130 | Two blocks leave the same list in whichever order they are freed. |
| Heap.RunInChunk | c/mem.c:63-92 | Free addresses in a row lie in one chunk. |
| Heap.NoRoom | c/mem.c:63-95 | So kmalloc fails only if that many bytes in a row are nowhere free. |
| Heap.Run | c/mem.c:57-130 | Over every run of allocations and frees of live blocks the heap stays in order, the caller holds exactly the live blocks, and giving all back restores the first regions. |
| Pcbs.PcbQueue.Poll | c/pcbqueue.c:37-51 | Takes the first entry, unlinked; head, tail, size and links are those of the rest. |
| Pcbs.PcbQueue.Offer | c/pcbqueue.c:63-76 | Puts the entry last. |
| Pcbs.PcbQueue.Remove | c/pcbqueue.c:81-106 | Takes the entry out wherever it is and reports whether it was there; only links of entries change. |
| DeltaQueue.InsertDue | c/sleep.c:59-85 | The new sleeper is due after the ticks it asked for, and nobody else's time changes. |
| DeltaQueue.TickDue | c/sleep.c:35-46 | With a positive first difference a tick wakes exactly those due on it and brings all others one tick nearer. |
| DeltaQueue.TickAbsorbed | c/sleep.c:41-45 | With a zero first difference the others' times stay as they are. |
| DeltaQueue.RemovedDue | c/sleep.c:91-93 | A sleeper taken out early makes those behind it due that much sooner. |
| DeltaQueue.RemovedKeepsTimes | c/sleep.c:91-93 | Nobody's time changes if and only if its difference is zero or it is last. |
| DeltaQueue.HeldIsRemaining | c/disp.c:284-295 | What is returned to a sleeper that a signal wakes is its remaining time if and only if all ahead of it are due at once. |
| DeltaQueue.WakesOnTime | c/sleep.c:27-46 | A sleeper wakes on exactly the tick it asked for, whatever sleeps and ticks come in between. |
| DeltaQueue.RunWakesOnTime | c/sleep.c:27-86 | So in every run from an empty queue without early removal or sleeps of no time. |
| DeltaQueue.AddToSleepQueue | c/sleep.c:59-86 | The linked queue with its differences becomes the one with the sleeper inserted; other processes are untouched. |
| Places.OnlyOnce | c/pcb.c:53-93 | A process in one queue is in no other, and its state says which. |
| Places.Puts | c/pcb.c:53-85 | Putting a process into the queue its state calls for keeps every process in its place. |
| Places.Takes | c/pcb.c:73-93 | So does taking one out. |
| Dispatcher.PidAfterIs | c/pcb.c:54-54 | The pid of a slot after any number of recycles. |
| Dispatcher.PidRepeats | c/pcb.c:54-54 | It is the same again exactly after multiples of 1024 recycles. |
| Dispatcher.WaitersIn | c/pcb.c:131-142 | Who is woken and who stays is decided by the pid waited for alone. |
| Dispatcher.CourseSplit | c/disp.c:46-51 | A run in two parts is the second after the first. |
| Dispatcher.DispatchFit | c/disp.c:46-151 | Whatever is requested, what is in the queues are processes of the table. |
| Dispatcher.NobodyOvertakes | c/disp.c:46-151 | Whatever is requested, the ready processes keep their order and nobody is put before them; the one that runs next is the first of them. |
| Dispatcher.RunsInTime | c/disp.c:46-151 | A ready process runs before the timer has gone off more often than there are processes ahead of it, whatever all of them request. |
| Dispatcher.DispatchSleepers | c/disp.c:89-92 | Only a sleep request, the timer and a signal to a sleeper change the sleep queue, the first two exactly as the delta queue's own steps. |
| Dispatcher.HarmlessQuiet | c/disp.c:89-92 | Without sleeps of no time and without kill requests no run disturbs a sleeper. |
| Dispatcher.EventTicks | c/disp.c:130-138 | The ticks of the sleep queue in a run are its timer interrupts, one for one. |
| Dispatcher.SleeperOnTime | c/sleep.c:27-46 | In a run whose sleepers are not disturbed, whoever asked to sleep is asleep while ten times the timer interrupts since then come to less than the milliseconds asked for, and is awake after the first one with which they do not. |
| Slots.RoundChanges | c/disp.c:46-56 | In one round of the dispatcher the switch takes the highest pending signal of the running process into its mask of running ones, if it may; then the request adds the one signal it raises, if its target handles it, takes out the highest running one if it ends a handler, or leaves none running in a new process. Only its end changes the pid of a process. |
| Slots.PidInRun | c/pcb.c:53-58 | In every run the pid of a slot is the one it had, moved on once for each process that ended in it. |
| Slots.PidFromStart | c/pcb.c:34-58 | From the start it is p + 1 for slot p, and goes up in steps of 32 modulo 32768. |
| Slots.PidRepeatsInRun | c/pcb.c:54-54 | At two times of a run from the start a slot has the same pid if and only if a multiple of 1024 processes ended in it in between. |
| Slots.RestsKeep | c/signal.c:67-121 | While a process does not run and no signal is raised for it, what is pending for it stays. |
| Slots.NextInSlot | c/create.c:44-71 | The next process created in a stopped slot starts, when it is switched to, in the handler of the highest signal left pending there if and only if any was left; the others stay pending. |
| Slots.KillLeavesNothing | c/ctsw.c:46-49 | Signal 31 raised alone is delivered at the next switch: a process that then stops leaves nothing pending. |
| Slots.KillLeavesLower | c/signal.c:107-121 | With signal 3 raised and handled as well it leaves that, for the next process of its slot. |
| Slots.SecondProcess | c/create.c:23-77 | The first process comes into that situation when it creates a second one. |
| Dispatcher.PartnersMeet | c/msg.c:16-90 | Two processes of which each sends to the other, or receives from it, in whichever combination, meet at the second request: both become ready, with the smaller of the two lengths as their result. |
| Waiting.WokenExactly | c/disp.c:197-215 | A round wakes a process in wait if and only if it ends the one waited for, raises a signal for the one that waits, or is a message between the two; at the end it is told 0. |
| Waiting.WaitEnds | c/disp.c:197-215 | After a running process asked to wait for a live one it stays blocked through every run in which none of these happens; the round in which the other one ends makes it ready, or already runs it, with result 0. |
| Waiting.WaitsForItself | c/disp.c:197-215 | A process may wait for itself; then only a signal ever wakes it. |
| Waiting.SecondStops | c/disp.c:197-215 | From the start: the first process creates a second one and waits for pid 2, which stops; the first then runs with result 0. |
| Waiting.SecondSends | c/msg.c:16-49 | Had the second sent a message to pid 1 instead, the first would be ready while the second still runs. |
| Replies.Refusals | c/disp.c:157-345 | Every refused request changes nothing but the result, which is the number for the first reason in the order of the checks: -1 for nobody, -2 for oneself, -3 for a bad buffer, -512 and -561 for signals, -1 to -3 for handlers, -1 for no memory or no slot. |
| Replies.Interrupted | c/signal.c:67-102 | A blocked process for which a signal is raised leaves its queue for the end of the ready queue; a send or receive is told -99. |
| Replies.CreatedPid | c/create.c:23-77 | What the creator is told finds the new process for as long as that lives, and is what it is told itself when it asks for its pid. |
| Replies.HandlerInstalled | c/disp.c:321-345 | After a process installs a handler, and not after it removes it, the signal becomes pending when raised. |
| Replies.FreshHandlers | c/create.c:44-62 | A new process handles signal 31, not signal 0, and any other one just if its memory said so. |
| Replies.NotMet | c/msg.c:16-90 | A message that meets nobody blocks its process at the end of the queue, behind the other one if that is blocked on a third, and the first ready process runs. |
| Replies.FreedInOrder | c/pcb.c:53-58 | Slots are used again in the order in which their processes ended. |
| Replies.CpuCharged | c/pcb.c:147-152 | A process is charged a tick each time it is chosen and each time the timer goes off while it runs, and its slot starts from zero when it ends. |
| Kernels.Kernel.constructor | c/pcb.c:34-48 | All slots are stopped, in order, with pids from 1 on. |
| Kernels.Kernel.GetNextPcb | c/pcb.c:147-152 | The first ready process runs; NULL if there is none. |
| Kernels.Kernel.PidFindsProcess | c/pcb.c:166-175 | Every live process is found by its pid, and no two slots have one pid. |
| Kernels.Kernel.PeekNextSender | c/pcb.c:98-109 | Finds the first process blocked in a send, and a full rotation leaves the queue as it was. |
| Kernels.Kernel.PeekAnyReceiver | c/pcb.c:114-125 | Finds nobody, since nobody is blocked on pid 0, and leaves the queue as it was. |
| Kernels.Kernel.UnblockWaitersFor | c/pcb.c:131-142 | A stable partition by rotation: those that wait for the pid go to the end of the ready queue in order, the others keep theirs. |
| Kernels.Kernel.CleanupPcb | c/pcb.c:180-188 | The process is stopped with its next pid, and nobody blocked waits for the pid that died. |
| Kernels.Kernel.Sleep | c/sleep.c:27-30 | The process sleeps the milliseconds in tens, rounded up, in its place in the delta queue. |
| Kernels.Kernel.Tick | c/sleep.c:35-46 | Exactly those at their end wake, in order, to the end of the ready queue. |
| Kernels.Kernel.Send | c/msg.c:16-49 | The other process, if it is blocked on this one, becomes ready with the shorter length as its result and ours; else this one is blocked on it. |
| Kernels.Kernel.Recv | c/msg.c:54-90 | The same for a receive from a given process. |
| Kernels.Kernel.SetPcbSignal | c/signal.c:67-102 | A signal with a handler becomes pending and ends a block, failing a send or receive; one without does nothing; a bad number is refused. |
| Kernels.Kernel.Create | c/create.c:23-77 | A free slot becomes a ready process whose pid is returned; without memory or slot nothing changes. |
| Kernels.Kernel.HandleKill | c/disp.c:183-195 | Reaches the process the pid names, or says that there is none. |
| Kernels.Kernel.HandleWait | c/disp.c:197-215 | The process waits and the next one runs, unless there is nobody to wait for. |
| Kernels.Kernel.HandleSend | c/disp.c:221-246 | Checks in order, then the exchange; a process that blocks makes way. |
| Kernels.Kernel.HandleRecv | c/disp.c:252-282 | The same for a receive from a given process. |
| Kernels.Kernel.HandleSleep | c/disp.c:288-295 | The process sleeps and the next one runs. |
| Kernels.Kernel.HandleTimer | c/disp.c:130-138 | A tick, the running process goes to the end of the ready queue with a tick more on its account, and the next one runs. |
| Kernels.Kernel.HandleSighandler | c/disp.c:321-345 | Installs or removes a handler, or says which argument is bad. |
| Kernels.Kernel.Deliver | c/ctsw.c:46-49 | The switch to a process moves its highest pending signal to the running ones exactly if the one mask is greater than the other. |
| Kernels.Kernel.HandleSigReturn | c/disp.c:362-371 | The end of a handler takes the highest running signal out of the mask. |
| Kernels.Kernel.Step | c/disp.c:46-151 | One round of the dispatcher on linked queues, the delivery at the switch and then the request, does to the processes exactly what the function on values says, and leaves every process in its place. |
| Kernels.Run | c/disp.c:46-151 | Over every run from the start, the kernel's state is that of the functions on values and every process is in its place. Unless somebody slept for no time or a signal woke a sleeper, the sleep queue is what the sleep requests and timer interrupts of this run make of an empty one, and every sleeper wakes on exactly the last tick of its sleep. |
| Kernels.ExactlyOnePlace | c/pcb.c:53-152 | In every such state each process is in exactly one of stopped, ready, blocked, sleeping and running, its state field agrees, nobody is blocked on pid 0, and heads, tails and sizes are exact. |
| Masks.MaskBits | c/signal.c:35-35 | Setting and clearing one bit of a mask leaves the others. |
| Masks.AdmitsHigher | c/signal.c:116-120 | The unsigned comparison of the masks admits every strictly higher signal and never a lower one. |
| Masks.AdmitsExactly | c/signal.c:116-120 | It admits just the higher ones if and only if the highest pending signal is not running itself with less below it. |
| Masks.AdmitsEqual | c/signal.c:116-120 | With signal 5 running, signals 3 and 5 pending let 5 interrupt its own handler. |
| Masks.OneMore | c/signal.c:111-118 | A signal above all in a mask becomes its highest, and clearing that gives the mask back. |
| Signals.PushFrame | c/signal.c:35-59 | Delivering a higher signal keeps the mask the set of frames, in increasing priority. |
| Signals.PushNested | c/signal.c:35-59 | Delivering any other does not. |
| Signals.PopFrame | c/disp.c:366-371 | The highest bit of the mask is that of the last frame, and clearing it leaves the mask of the others. |
| Signals.ReturnsFound | c/disp.c:366-371 | While signals interrupt only lower ones, each return finds the signal of its frame, and the mask is empty exactly after the last. |
| Signals.SelfInterrupt | c/signal.c:116-120 | After a signal interrupts its own handler the mask lacks a signal that still runs from the first return on: each return takes out the signal of the frame below, and the last one finds none and searches forever. |
| Signals.MaskUnique | c/signal.c:35-35 | The frames determine the mask. |
| Signals.Task.constructor | c/create.c:44-71 | A new process runs no handler and has pending what its slot had. |
| Signals.Task.SetPending | c/signal.c:67-76 | Only a signal with a handler becomes pending. |
| Signals.Task.Signal | c/signal.c:25-62 | Saves stack pointer and result below the stack and starts one more frame, for any signal; what is above stays, and signals stay nested exactly if this one is above all that run. |
| Signals.Task.DeliverHighest | c/signal.c:107-121 | Delivers the highest pending signal exactly if the one mask is greater than the other, and then clears just its pending bit; that is if it is above all that run, unless signals were not nested or its own handler runs. |
| Signals.Task.Return | c/disp.c:351-372 | For any address the result comes from the word below it and the highest signal leaves the mask, or the search for it never ends: exactly if the mask is empty. |
| Signals.Task.SigReturn | c/disp.c:351-372 | At the end of a handler that gives back the result and stack pointer of the last frame. |
| Signals.FirstSwitch | c/ctsw.c:46-49 | A process created in a slot starts in the handler of the highest signal left pending there, if and only if there is any. |
| Signals.Execute | c/signal.c:25-121 | Over any course of raised signals, deliveries and ends of handlers, frames that were not popped stay as they were; unless a signal interrupts its own handler, signals stay nested and every return finds its own. |
| Signals.Unwinds | c/disp.c:351-372 | When the handler of a delivered signal ends, whatever was delivered and ended in between, self-interruptions included, the process has the stack pointer and result it had at the delivery; without those, also the same mask. |
| Doprnt.NumeralDigits | lib/libxc/doprnt.c:250-265 | The digits of a number by repeated division are those of its numeral, and zero beyond it. |
| Doprnt.Strip | lib/libxc/doprnt.c:260-264 | Leaving out leading zeros and reversing gives the numeral, one zero for zero. |
| Doprnt.Prtl10 | lib/libxc/doprnt.c:250-265 | The decimal numeral of any number from 0 to 2147483647. |
| Doprnt.Prtl8 | lib/libxc/doprnt.c:285-301 | The octal numeral of any word read as unsigned, though the shifts keep the sign. |
| Doprnt.Prtl16 | lib/libxc/doprnt.c:320-335 | The hexadecimal numeral of any word read as unsigned. |
| Doprnt.PrintUnsigned | lib/libxc/doprnt.c:138-148 | The decimal numeral of every word read as unsigned, through the wrapping subtractions and the corrected digit. |
| Doprnt.Convert | lib/libxc/doprnt.c:119-181 | For %d, %u, %o and %x of every 32-bit word, the sign and the numeral of its magnitude, the most negative one included. |
| Doprnt.FieldLength | lib/libxc/doprnt.c:201-228 | A field is as long as the larger of its width (none above 80) and its sign and digits. |
| Doprnt.SevenPrinted | lib/libxc/doprnt.c:201-228 | Minus seven in fields of four: blanks before or behind it, zeros behind the sign. |
| Doprnt.PrintField | lib/libxc/doprnt.c:201-228 | Emits sign, filling and digits in the order that the justification and the fill character call for. |
| Doprnt.PrintNumber | lib/libxc/doprnt.c:119-228 | A whole conversion with its field. |
| Doprnt.Atoi | lib/libxc/atoi.c:4-26 | Past blanks and a sign, the value of all digits that follow, as a 32-bit word. |
| Doprnt.ReadsUnique | lib/libxc/atoi.c:4-26 | What is read of a string is determined by it. |
| Doprnt.NumberOfText | lib/libxc/atoi.c:23-24 | The value of a decimal numeral is its number. |
| Doprnt.UnsignedBack | lib/libxc/doprnt.c:126-175 | What %u, %o and %x print of any word, looked up in 0123456789abcdef, is the word modulo 2^32 in the base of the conversion. |
| Doprnt.ZerosBehind | lib/libxc/doprnt.c:226-228 | Zeros behind a number make it another 32-bit word, but for zero. |
| Doprnt.AtoiOfPrinted | lib/libxc/atoi.c:4-26 | atoi returns the value that %d printed, for every 32-bit word and every field, if and only if zeros were not filled in behind a number other than zero. |

## Left out

- Heap.Run: does not ask for the 16 sizes for which the chunk comes to no bytes; after one of them the heap is out of order for good (`Heap.GoesRound`).
- Heap.Heap.Kfree: an address whose check word matches without being a live block, such as a block freed twice; the code does not clear the word.
- Kernels.Kernel.Step: sending to, or receiving from, a process that is in `wait` on this one, receiving from any process, and the end of a handler when no signal is in the mask, whose search never ends; see HandleSend and Recv. `Kernels.Run` goes up to the first such request.
- Kernels.Kernel.HandleSend: sending to a process that is in `wait` on the sender, which the code treats as a receiver and takes buffer addresses from its arguments.
- Kernels.Kernel.HandleRecv: the same for receiving, and receiving from any process (pid 0), which the code re-queues wrongly.
- Kernels.Kernel.Send: the bytes of a message are not modelled, only the lengths.
- Kernels.Kernel.Recv: no receiving from any process (a NULL sender), and no bytes.
- Kernels.Kernel.GetNextPcb: returns NULL for an empty queue without the writes through NULL that precede the dispatcher's test.
- Kernels.Kernel.CleanupPcb: the two blocks are not given back to the heap, which is a model of its own.
- Kernels.Kernel.Create: whether there was memory for the stack and the signal table, and what the new table holds, are parameters.
- Kernels.Kernel.HandleSighandler: which signals have a handler is modelled, not which handler, so not the old one handed back.
- Kernels.Kernel.HandleWait: waits for a pid that is no longer in use but shares a slot with a live process block until that old pid would die, as in the code; nothing more is said of them.
- Kernels.Kernel.MakeWay: which process the result of a blocking send or receive is assigned to is left open by C; both are modelled, by a parameter of the request.
- Signals.Task.SigReturn: only the address that the trampoline passes; for any other, `Signals.Task.Return` says what is written, and the frames are no longer known.
- Signals.Execute: signals of one process, without queues, and with code that leaves the saved frames alone. The kernel part has the two masks and the set of handled signals, and no stacks.
- Qsort.Sort: elements are exchanged whole, not byte by byte, and the comparison is a function of two values.
- HuftBuild.Build: tables are a sequence and links are indices, so huft_free and running out of memory (return value 3) are not modelled.
- Doprnt.PrintNumber: the parsing of the format, %c, %s and %b, and the 16-bit conversions that are not compiled in.
- Doprnt.Atoi: other characters than the ones it tests for are all alike; overflow wraps round.
- Refilling the input buffer, the gzip header and trailer, the boot allocator and the disk image: the input is a sequence of bytes.
- Context switch, interrupt controller, timer chip, segments and other assembly: a context switch is a request of the running process.
- The keyboard, the device table and processes blocked on a device.
- cputimes, puts and the dump functions, which only report.
- Floating point, scanf and the small string functions of the library.
