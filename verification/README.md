# LuaJIT core algorithms, verified

A model of the parts of LuaJIT in which state, pointers and arithmetic meet, in the form the C code has:
what the source updates in place is a class or an array here, and every method is proved against a
specification whose own meaning is proved beside it.

| part | files | what is proved |
|---|---|---|
| Memory allocator | `Alloc*.dfy`, `Arena.dfy`, `Client.dfy` | one heap invariant over flat 64-bit memory (tiling, boundary tags, rings, bitwise tries, bin maps, segments) kept by every operation; best fit; no chunk handed out is a whole chunk too large, and free memory is accounted for byte by byte; any program's blocks behave like separate arrays |
| Lua patterns | `Lua*.dfy` | the in-place matcher finds the first of all outcomes, which are exactly those that paths through the pattern's bytes lead to, with captures restored on backtracking; `find`, `gmatch`, `gsub` on top of it; what the nesting limit changes |
| `table.sort` | `TableSort.dfy` | sorted permutation, nothing outside the range touched, logarithmic nesting, safe with any comparator |
| DynASM for x86 | `Dasm*.dfy` | three passes over linked label chains: what references resolve to, branch shrinking, what each action code by its number makes the output hold, and what a decoder of jumps reads from it |
| Trace register allocator | `Reg*.dfy` | code emitted backwards reads every operand from a register of its kind that holds it, for whole traces; the register shuffle at the head of a side trace |
| ARM64 call slots | `CallSlots.dfy`, `Rounding.dfy` | arguments are where the calling conventions want them, and the slots reserved for a call cover their stores |
| String buffers | `ByteQueue.dfy` | growable, compacting, copy-on-write buffers are byte queues; when making room never ends |
| Bytecode input | `Uleb.dfy`, `ChunkReader.dfy` | refilling loses nothing in any chunking; ULEB128 of 32 and 33 bits; a whole dump is read back |

Sizes, addresses and offsets are unbounded integers; where the source's width matters it is written out
(`% TWO64`, `% WORD`, explicit limits). What the operating system, the reader function,
comparators and callbacks answer is a parameter or left open.

Three places where the source does less than one might expect, each with its exact condition and with inputs:

- `CallSlots.MarkerExact`: on OSX the reservation of a variable argument call also counts the marker. It exceeds what
  the stores take exactly if no argument follows the marker, or if the fixed arguments end on a multiple of eight bytes
  of stack: by one byte, or by eight. `MarkerCosts` and `MarkerFree` are calls of either kind.
- `DasmLayout.ForwardExact`: a forward branch becomes short exactly if the greatest sizes of all that stands between add
  up to at most 127, so that it may stay long though a byte would reach (`LeftLong`); a backward branch becomes short
  exactly if the short form reaches (`BackwardExact`).
- `ByteQueue.HangsExactly`: `lj_buf_more2` does not come back exactly for buffers of 2^31 bytes or more that own their
  bytes, of which less than an eighth has been read, if neither the room behind nor any of the next 31 doublings in
  32 bits is enough. `HangExample` is such a request, within the size limit; `HangsOwned` says what this means for sizes
  that are powers of two. Below 2^28 bytes put, no request is of this kind (`Drive`).

## Model

| member | source | states |
|---|---|---|
| Client.Run | luajit/src/lj_alloc.c:1473-1483 | For every sequence of allocations, frees, resizes and stores, and whatever the system answers to mmap and munmap, the allocator's blocks end with exactly the contents that replaying the sequence on separate arrays gives; no block ever has a chunk 32 bytes larger than it needs; each answer is null only for sizes over the limit or when the heap of that moment has no room, and a resize that the block or top can hold keeps its address. |
| Client.Program.Do | luajit/src/lj_alloc.c:1473-1483 | One operation by way of the allocator function is one step on separate arrays; a new block has an address that no block had; a null answer and a resize in place happen under the conditions that `Run` states. |
| Client.Separate | luajit/src/lj_alloc.c:1269-1350 | Two blocks of a program never share a byte. |
| Arena.MState.constructor | luajit/src/lj_alloc.c:1226-1249 | A fresh region becomes a heap that satisfies the whole invariant and has no live block. |
| Arena.MState.Malloc | luajit/src/lj_alloc.c:1269-1350 | Keeps the invariant; success gives an aligned block that was not live, of at least the requested size and less than 32 bytes more than its chunk needs, with all other blocks, sizes and contents as before; if no segment was added, exactly the bytes of that chunk have left the free memory; failure changes nothing and happens only for oversized requests, or when bins, victim and top have no room and the system refused a region (or the region's size wraps around). |
| AllocSystem.RequestMeaning | luajit/src/lj_alloc.c:426-437 | A chunk for a request is the least multiple of 8 that leaves 8 bytes for the header, and at least 32. |
| Arena.MState.MallocSmall | luajit/src/lj_alloc.c:1277-1318 | A small request is served from the small bins or by `tmalloc_small` exactly unless its own and the next bin are empty and either the victim suffices or there are no larger bins. |
| Arena.MState.TmallocLarge | luajit/src/lj_alloc.c:1130-1191 | Takes the smallest chunk of all tries that fits, and gives up exactly if none fits or the victim is at least as good; the invariant is kept, exactly that block becomes live, and what it does not need stays free. |
| Arena.MState.TmallocSmall | luajit/src/lj_alloc.c:1194-1222 | Never fails where it is called, and takes the smallest chunk of all tries, which fits every small request; the invariant is kept, exactly that block becomes live, and what it does not need stays free. |
| AllocCarve.SplitCarves | luajit/src/lj_alloc.c:1178-1188 | Cutting a chunk in two takes exactly the bytes of the front from the free memory. |
| Arena.MState.FreeBlock | luajit/src/lj_alloc.c:1352-1421 | Exactly the given block stops being live, all other blocks keep size and contents, and the invariant (no two free chunks in a row, every free chunk in its bin or trie) holds after coalescing on either side; if no segment changes, exactly the block's bytes have joined the free memory. |
| AllocFree.Joined | luajit/src/lj_alloc.c:1396-1416 | Whatever free neighbours a freed block is merged with, the merged chunk is the only loose one, exactly that block is gone, and the invariant holds around it. |
| AllocFree.IntoTop | luajit/src/lj_alloc.c:1380-1391 | A block that borders on top joins it, with the free chunk before it if there is one. |
| AllocCarve.MergeReturns | luajit/src/lj_alloc.c:1360-1416 | Merging a block with free chunks before and behind it adds exactly the bytes of the block to the free memory. |
| Arena.MState.Realloc | luajit/src/lj_alloc.c:1423-1471 | Shrinks, grows into top or moves: the result has the requested size, less than 32 bytes more than its chunk needs, and the old contents up to the smaller size, other blocks are untouched. A block that is large enough, or has the room in top behind it, keeps its address; failure changes nothing and has the same conditions as that of `Malloc`. |
| AllocResize.ShrinkInv | luajit/src/lj_alloc.c:1438-1446 | Cutting off the end of a block keeps the invariant, the block's kept contents and every other block. |
| AllocResize.GrowInv | luajit/src/lj_alloc.c:1447-1456 | Extending a block into top keeps the invariant, all of the block's contents and every other block. |
| Arena.MState.AllocF | luajit/src/lj_alloc.c:1473-1483 | The three uses of the allocator function, told apart by pointer and size, with their conditions for success. |
| Arena.MState.AllocSys | luajit/src/lj_alloc.c:983-1040 | A region from the system is appended, prepended or added as a new segment, and the request is served from it: the segments together grow by exactly the region, and the call fails exactly if the system refuses or the rounded size is no larger than the request; the largest size always fails. |
| AllocSystem.RegionLeast | luajit/src/lj_alloc.c:993-999 | The region asked from the system is the least multiple of 2^17 that leaves 65 bytes beyond the request. |
| Arena.MState.PrependAlloc | luajit/src/lj_alloc.c:902-932 | The block at the start of a prepended region is granted, and the rest joins the old first chunk, be it top, the victim or another. |
| Arena.MState.AddSegment | luajit/src/lj_alloc.c:935-979 | The old top is sealed with a segment record and fenceposts below the new one; live blocks and the invariant are kept. |
| Arena.MState.AllocTrim | luajit/src/lj_alloc.c:1087-1125 | Giving memory back to the system keeps every live block and the invariant, leaves the padding asked for in top, and reports true exactly if the segments together became smaller. Unless the system refuses, no unused segment is left, and top exceeds the padding by no more than the granularity or holds a segment record. |
| AllocSegs.TopMovedInv | luajit/src/lj_alloc.c:1012-1014 | Moving the end of top, with its segment, either way keeps the invariant and every live block: this is both appending a region and trimming. |
| AllocPrepend.ExtendInv | luajit/src/lj_alloc.c:1016-1023 | Extending any segment downwards by a region, taken as one live block, keeps the invariant and all other blocks. |
| Arena.MState.ReleaseUnusedSegments | luajit/src/lj_alloc.c:1045-1085 | Unmapping segments that are one free chunk keeps every live block, top and the invariant, and never the segment of top; the number returned is that of the bytes by which the segments shrank, and unless the system refuses none of the kind is left. |
| Arena.MState.HasSegmentLink | luajit/src/lj_alloc.c:583-592 | True exactly if some segment's record lies in the given region. |
| Arena.MState.InsertLargeChunk | luajit/src/lj_alloc.c:728-765 | Hangs a chunk into the one free place its size has in the trie of its bin, or into the ring of its size. |
| Arena.MState.UnlinkLargeChunk | luajit/src/lj_alloc.c:767-812 | Takes any chunk out of a trie, replacing a node by a ring mate or a leaf below it, and keeps the shape of all tries. |
| AllocSites.NodeGoneInv | luajit/src/lj_alloc.c:767-812 | Replacing a trie node that has no ring mate by a leaf from below it keeps shape, links and bins of all tries, with exactly that chunk taken out. |
| AllocState.SizeBound | luajit/src/lj_alloc.c:612-626 | Every chunk of a heap that satisfies the invariant has a size below 2^40, which is what the tree index can tell apart. |
| AllocIndex.IndexRange | luajit/src/lj_alloc.c:612-639 | Every large size below 2^40 gets an index whose bin's size range contains it. |
| AllocIndex.SizeBitStep | luajit/src/lj_alloc.c:632-634 | The top bit of the shifted size bits tells the half of a node's size range in which the size lies, and shifting once more prepares the next level (used at lines 741-746 and 1140-1159). |
| AllocSearch.PathStep | luajit/src/lj_alloc.c:741-747 | One step of the descent stays on the path to the size or reaches the one empty place where it belongs. |
| LuaMatcher.MatchState.Match | luajit/src/lib_string.c:338-421 | Returns the first of all outcomes of the pattern at this place: no match, the end with exactly the captures of that outcome, or its error; on no match captures, level and depth are as before. |
| LuaMatcher.MatchState.MaxExpand | luajit/src/lib_string.c:272-285 | The same for a greedy repetition: longest run first. |
| LuaMatcher.MatchState.MinExpand | luajit/src/lib_string.c:287-299 | The same for a lazy repetition: shortest run first. |
| LuaMatcher.MatchState.MatchBalance | luajit/src/lib_string.c:251-270 | Finds the end of a balanced string, reports missing arguments. |
| LuaMatcher.MatchState.FindClassEnd | luajit/src/lib_string.c:175-194 | Finds where a single-character item ends, a set with its escapes and leading bracket included, or reports a malformed one. |
| LuaMatcher.MatchState.MatchBracketClass | luajit/src/lib_string.c:216-237 | Decides whether a set with classes, ranges and complement holds for a byte. |
| LuaMatcher.MatchState.StepEscape | luajit/src/lib_string.c:353-382 | `%b`, `%f` and back references go on exactly where the semantics does, or end with its outcome. |
| LuaMatcher.MatchState.MatchCapture | luajit/src/lib_string.c:326-336 | A back reference matches where the captured text is seen again (`LuaPaths.AgainIs`); unknown and open captures are errors. |
| LuaPaths.AgainIs | luajit/src/lib_string.c:326-336 | The text of a capture is seen again exactly if it has a text, which fits before the end of the subject and agrees with it byte for byte. |
| LuaMatcher.MatchState.CaptureToClose | luajit/src/lib_string.c:166-173 | The latest capture that is still open, if any. |
| LuaPattern.BalanceMeaning | luajit/src/lib_string.c:251-270 | That end is the first point at which everything opened is closed; none is found exactly if there is no such point. |
| LuaReading.ClassMeaning | luajit/src/lib_string.c:196-214 | What each class letter covers, by ranges of bytes; a capital stands for the complement, any other byte for itself. |
| LuaReading.SetEndMeaning | luajit/src/lib_string.c:182-190 | A set ends at the first closing bracket after its first member that no percent sign takes along. |
| LuaReading.InSetMeaning | luajit/src/lib_string.c:216-237 | A set covers a byte exactly if one of the classes, ranges and bytes that a walk through it meets does. |
| LuaSemantics.OutcomesGood | luajit/src/lib_string.c:338-421 | Every match of every pattern ends within the subject, and all its captures lie within it, before the end. |
| LuaPaths.OutcomesLed | luajit/src/lib_string.c:338-421 | The outcomes of a match are exactly the matches and errors that paths through the pattern lead to; the steps of a path are told by the bytes of pattern and subject alone. |
| LuaPaths.OptionalPrefers | luajit/src/lib_string.c:391-400 | An item with `?` prefers to take a byte, and does without only if nothing follows. |
| LuaPaths.GreedyPrefers | luajit/src/lib_string.c:401-406 | An item with `*` or `+` takes the longest run after which the rest of the pattern has an outcome. |
| LuaPaths.LazyPrefers | luajit/src/lib_string.c:407-409 | An item with `-` takes the shortest such run. |
| LuaPaths.FixedLeads | luajit/src/lib_string.c:463-474 | A pattern that `find` takes for a fixed string leads exactly to where that string stands, provided it has no closing bracket and no zero byte. |
| LuaPaths.FixedBracket | luajit/src/lib_string.c:463-474 | With a closing bracket the two differ: the pattern `)` is an error where the fixed string is found. |
| LuaProperties.LimitAgrees | luajit/src/lib_string.c:338-342 | With any nesting limit a match either raises "pattern too complex" or gives the answer it gives without a limit. |
| LuaProperties.ShortPattern | luajit/src/lib_string.c:338-342 | A pattern of fewer than 200 bytes means at every subject what it means without the limit. |
| LuaReplacing.Nesting | luajit/src/lib_string.c:338-342 | The limit is 200 calls. |
| LuaReplacing.MatchLed | luajit/src/lib_string.c:338-421 | With the limit, a match either is too complex, which needs 200 bytes of pattern, or is one that a path leads to, or fails because none leads anywhere. |
| LuaProperties.GreedyTakesMost | luajit/src/lib_string.c:272-285 | The run that decides is the longest after which the rest of the pattern has an outcome. |
| LuaProperties.LazyTakesLeast | luajit/src/lib_string.c:287-299 | The run that decides is the shortest such. |
| LuaStrings.FindPattern | luajit/src/lib_string.c:450-501 | Finds the first position from the start on that matches (only the start if anchored), with the values of its captures or the error for one that is unfinished; no earlier position matches. |
| LuaReplacing.PushedMeaning | luajit/src/lib_string.c:424-448 | The values returned are the texts of all captures in order, a position as its decimal number, or the whole match if there are none and it is asked for; an unfinished capture is an error. |
| LuaStrings.GmatchStep | luajit/src/lib_string.c:513-535 | The first match from a position on, with the values of its captures or their error, and the next position: its end, or one more after an empty match. |
| LuaStrings.Gsub | luajit/src/lib_string.c:600-639 | The result is made of replaced matches and copied bytes that cover the subject in order; no match is passed over or replaced twice until the limit or, anchored, after the first try, which does replace a match at the start; the count is that of replacements; an error is that of the next try; replacing by `%0` gives the subject. |
| LuaStrings.AddString | luajit/src/lib_string.c:547-566 | Fills in a replacement string: `%0` to `%9` are captures, other bytes are copied, bad references are errors. |
| LuaReplacing.NthCapture | luajit/src/lib_string.c:547-566 | `%1` to `%9` stand for the first to ninth capture, a part of the subject or a position; without captures `%1` is the whole match; beyond the last capture they are errors. |
| LuaReplacing.Concatenates | luajit/src/lib_string.c:547-566 | Replacement strings are filled in one after the other. |
| LuaReplacing.Verbatim | luajit/src/lib_string.c:547-566 | A replacement string without percent signs is put as it is. |
| LuaReplacing.CaptureStays | luajit/src/lib_string.c:600-639 | Replacing by `%k` leaves in the place of every match exactly the text of its k-th capture. |
| LuaReplacing.FirstStays | luajit/src/lib_string.c:600-639 | With a pattern without an opening bracket, replacing by `%1` gives the subject. |
| LuaReplacing.UnansweredStays | luajit/src/lib_string.c:568-598 | A function or table that has no answer for any match leaves the subject as it is. |
| TableSort.Auxsort | luajit/src/lib_table.c:196-257 | For any comparator only the range is touched and its elements are kept; a strict weak order is never rejected and gives a sorted range; calls nest at most log2 of the length deep. |
| TableSort.Log2Meaning | luajit/src/lib_table.c:196-257 | The bound on nesting lies between the powers of two around the length. |
| TableSort.Turn | luajit/src/lib_table.c:226-245 | One pair of scans and the exchange keep the split around the pivot; with a strict weak order the scans stay in the range. |
| TableSort.HalfLeft | luajit/src/lib_table.c:249-256 | Once the pivot is placed, sorting the smaller half leaves only the larger one to be sorted. |
| TableSort.ScanUp | luajit/src/lib_table.c:230-233 | Stops at the first element not before the pivot, or reports an invalid order at the end of the range. |
| Dasm.Encoder.Put | luajit/dynasm/dasm_x86.h:162-268 | A put either adds exactly its decoded actions to the section and the history, with label chains, positions and size estimates kept up, or ends with an error, and which of the two is told by the actions' own checks. |
| Dasm.Encoder.CheckStep | luajit/dynasm/dasm_x86.h:507-521 | Succeeds exactly if no local label is undefined and the section is the expected one; local labels are forgotten. |
| Dasm.Encoder.GrowPc | luajit/dynasm/dasm_x86.h:123-129 | More PC labels, all undefined, with the old ones kept. |
| Dasm.Encoder.Link | luajit/dynasm/dasm_x86.h:272-358 | Reports an undefined PC label that is referred to, or fixes all labels and branch sizes so that every cell has the offset of its item in the final code, whose size is returned. |
| Dasm.Encoder.Encode | luajit/dynasm/dasm_x86.h:384-491 | Writes exactly the computed number of bytes; every item's bytes stand at its offset, with the target that pass 1 resolved; the table of globals gets their addresses. |
| Dasm.Encoder.GetPcLabel | luajit/dynasm/dasm_x86.h:494-503 | Once linked, the final offset of the latest definition of a PC label; before, its estimate within its section, or -1 for a label that is still waited for; -2 for one that is neither known nor waited for. |
| Dasm.JumpsMean | luajit/dynasm/dasm_x86.h:384-491 | Decoding any relative jump of the result (`e9`, `0f 80` to `0f 8f`, `eb`, `70` to `7f`), long or short, whose target is within 32 bit reach, gives the offset of the label that the reference meant when it was put: the latest definition before it, or else the first one after it. |
| DasmMeaning.InOutput | luajit/dynasm/dasm_x86.h:384-491 | The laws below hold of every action in the output of pass 3. |
| DasmMeaning.Imm8 | luajit/dynasm/dasm_x86.h:412-412 | Codes 234 and 235 write the low byte of their argument and leave the plain bytes in front alone. |
| DasmMeaning.Imm16 | luajit/dynasm/dasm_x86.h:420-420 | Code 236 writes the low 16 bits of its argument, lowest byte first. |
| DasmMeaning.Imm32 | luajit/dynasm/dasm_x86.h:417-417 | Code 237 writes the low 32 bits of its argument, lowest byte first, and leaves the plain bytes in front alone. |
| DasmMeaning.Imm16Or8 | luajit/dynasm/dasm_x86.h:414-420 | Code 238 writes one byte, with the opcode two bytes back raised by 2, exactly for arguments from -128 to 127, and else two bytes. |
| DasmMeaning.Imm32Or8 | luajit/dynasm/dasm_x86.h:413-417 | Code 239 does the same with four bytes. |
| DasmMeaning.Space | luajit/dynasm/dasm_x86.h:471-471 | Code 241 writes the byte after it as often as its argument says. |
| DasmMeaning.RelativeTo | luajit/dynasm/dasm_x86.h:445-446 | Code 243 writes the distance from its end to the address in its argument. |
| DasmMeaning.RelativeLabel | luajit/dynasm/dasm_x86.h:442-454 | Codes 244 and 245 that follow no branch opcode write the distance from their end to their label. |
| DasmMeaning.AddressOf | luajit/dynasm/dasm_x86.h:455-463 | Codes 246 and 247 write the address of their label in 64 bits. |
| DasmMeaning.Aligned | luajit/dynasm/dasm_x86.h:472-475 | Code 250 writes as few nops as reach a multiple of its operand plus one. |
| DasmMeaning.Plain | luajit/dynasm/dasm_x86.h:478-480 | Codes below 233, and the byte after 252, stand for themselves. |
| DasmMeaning.Nothing | luajit/dynasm/dasm_x86.h:464-481 | Codes 248, 249, 254 and 255 write nothing. |
| DasmMeaning.NextCode | luajit/dynasm/dasm_x86.h:183-262 | Which codes have an operand, and which end a put. |
| DasmMeaning.LeadIs | luajit/dynasm/dasm_x86.h:384-481 | What counts as the opcode and the plain bytes before an action. |
| DasmMeaning.Arguments | luajit/dynasm/dasm_x86.h:184-201 | The actions of a put take its arguments in order. |
| DasmMeaning.Names | luajit/dynasm/dasm_x86.h:216-248 | Operands up to 246 name a local or global label, those from 247 on local labels forwards; PC labels are named by arguments. |
| DasmMeaning.Accepts | luajit/dynasm/dasm_x86.h:189-260 | Which arguments, labels and sections a put accepts, by code. |
| DasmMeaning.Estimates | luajit/dynasm/dasm_x86.h:183-256 | What pass 1 adds to its estimate, by code. |
| DasmLabels.TargetMeaning | luajit/dynasm/dasm_x86.h:207-248 | What the label chains resolve to: the latest visible definition, else the next one, else the reference still waits. |
| DasmLabels.TargetPending | luajit/dynasm/dasm_x86.h:207-248 | A reference waits in a label's chain exactly as long as it has no target. |
| DasmLayout.ShortReaches | luajit/dynasm/dasm_x86.h:308-324 | A branch that pass 2 shortens reaches its target with a signed byte in the final layout, though it was decided while later code could still shrink. |
| DasmLayout.BackwardExact | luajit/dynasm/dasm_x86.h:308-324 | A backward branch is shortened exactly if the short form reaches its target. |
| DasmLayout.ForwardExact | luajit/dynasm/dasm_x86.h:308-324 | A forward branch is shortened exactly if the most that the items between can take is 127 bytes. |
| DasmLayout.LeftLong | luajit/dynasm/dasm_x86.h:308-342 | A jump over 121 bytes and an alignment stays long, though its target is within a byte in the layout chosen as well as in the one with a short jump. |
| DasmLink.LinkStep | luajit/dynasm/dasm_x86.h:302-350 | One action of pass 2 keeps the layout so far: the cells of all items passed have their final offsets, and the running correction is the difference to the estimates. |
| DasmCode.RelativeReaches | luajit/dynasm/dasm_x86.h:384-491 | A relative reference that is no branch lands on its target. |
| DasmCode.AddressReaches | luajit/dynasm/dasm_x86.h:384-491 | An absolute reference holds base plus the target's offset. |
| RegTrace.Assemble | luajit/src/lj_asm.c:2462-2627 | The code of a whole trace, emitted backwards with evictions, spills, rematerialization and snapshot uses, has for its effects, clobbers and references exactly those of the instructions, in trace order, with none left out that has a side effect or is used; every operand and result is in a register of its kind; whatever calls clobber, every operand is read from a register that holds it, from any state in which BASE is where it is needed. It never fails as long as there are two of the 256 spill slots for each reference. |
| RegSide.HeadSide | luajit/src/lj_asm.c:1932-2102 | Entering a side trace wherever the parent left its values, at addresses relative to the parent's stack pointer, the whole code, which ends with the trace's own, is correct: reloads, stores and moves (cycles broken by a rename) bring every inherited value to its place, and all registers are free in front of it. The frame is that of the parent, or the least aligned one that holds the slots of the trace, and holds them in either case. It gives up only with all registers of one kind taken, and never if there are more than twice as many as inherited values. |
| RegSide.Shuffle | luajit/src/lj_asm.c:2053-2087 | Coalescing and renaming move all live parent registers to their targets, in front of the code there is, until every register is free, and end. |
| RegSide.FrameHolds | luajit/src/lj_asm.c:1100-1105 | Every spill slot lies in a frame adjusted by what the slots in use need or more. |
| RegSide.FrameLeast | luajit/src/lj_asm.c:1100-1105 | That adjustment is a multiple of four slots, and no step too large. |
| RegAlloc.ASMState.Alloc1 | luajit/src/lj_asm.c:710-717 | The register given out holds the reference for this use and is of its kind; registers outside the allowed set keep what they hold; fails only for lack of spill slots. |
| RegAlloc.ASMState.AllocRef | luajit/src/lj_asm.c:666-707 | Gives a reference a register of the allowed set and keeps ownership: every register in use has one owner whose home it is. |
| RegAlloc.ASMState.Dest | luajit/src/lj_asm.c:762-780 | The result's register is free before the instruction, and from here on the result needs nothing. |
| RegAlloc.ASMState.Evict | luajit/src/lj_asm.c:497-517 | Frees the register of a weak reference, unless there is none or the least cost is that of a constant, and then the one of least cost of the allowed set, floating point first; its value is reloaded or rebuilt for the code that needs it. |
| RegAlloc.ASMState.Restore | luajit/src/lj_asm.c:464-482 | The freed register's value comes from its slot or anew; weak references need no load. |
| RegAlloc.ASMState.Spill | luajit/src/lj_asm.c:425-447 | A new spill slot overlaps no other and 64 bit slots are even; two slots are taken for each, or for a pair of single ones; fails when 256 are passed. |
| RegAlloc.ASMState.Rename | luajit/src/lj_asm.c:730-756 | Moves a value to another free register for all earlier code and keeps ownership. |
| RegState.RenameInv | luajit/src/lj_asm.c:730-756 | A rename keeps the invariant: every needed register is owned by the reference it is needed for, slots do not overlap, and the code emitted so far is safe for what it needs. |
| RegState.RestoreInv | luajit/src/lj_asm.c:464-482 | Freeing a register whose value is reloaded from its slot keeps the same invariant. |
| RegState.SpillInv | luajit/src/lj_asm.c:425-447 | A new spill slot overlaps no other, and keeps the same invariant. |
| RegState.GiveInv | luajit/src/lj_asm.c:666-707 | Giving a free register to a reference makes it the register's only owner, and keeps the same invariant. |
| RegState.DefineInv | luajit/src/lj_asm.c:762-780 | Defining a result frees its register for all earlier code, and keeps the same invariant. |
| RegAlloc.ASMState.MinCost | luajit/src/lj_asm.c:497-509 | The victim of an eviction lives in an allowed register, and no allowed register of its kind costs less; floating point registers go first. |
| RegAlloc.ASMState.EvictSet | luajit/src/lj_asm.c:539-559 | All registers of the set are free afterwards, others are as before. |
| RegAlloc.ASMState.SnapAlloc | luajit/src/lj_asm.c:949-1007 | A snapshot's reference gets a register exactly if one is free, marked weak unless the reference is a PHI, and a slot otherwise; ownership is kept. |
| CallSlots.SetupSlots | luajit/src/lj_asm_arm64.h:1946-1987 | The fewest slots that cover the walk's stack offset, if the call may use the stack at all, and never fewer than before. |
| CallSlots.GenCall | luajit/src/lj_asm_arm64.h:426-498 | Puts every argument into a register or on the stack; the stores are exactly those of the arguments that find no register. |
| CallSlots.Standard | luajit/src/lj_asm_arm64.h:426-498 | Off OSX the first eight general and the first eight floating point arguments are in registers in order, the others on the stack in order, eight bytes each, with 8 or 4 of them stored by kind and size. |
| CallSlots.WindowsVararg | luajit/src/lj_asm_arm64.h:426-498 | With variable arguments on Windows the first eight are in general registers, whatever their kind. |
| CallSlots.OsxFixed | luajit/src/lj_asm_arm64.h:426-498 | On OSX fixed arguments on the stack take their own size, on the next multiple of it. |
| CallSlots.OsxVariable | luajit/src/lj_asm_arm64.h:426-498 | On OSX variable arguments take eight bytes each and no register. |
| CallSlots.SlotsSuffice | luajit/src/lj_asm_arm64.h:1946-1987 | Whatever is stored for a call lies within the slots reserved for it. |
| CallSlots.Covers | luajit/src/lj_asm_arm64.h:1946-1987 | The reservation walk and the store walk agree on registers at every argument, its stack offset is never less, and the two are the same without a marker. |
| CallSlots.StoresApart | luajit/src/lj_asm_arm64.h:426-498 | Argument stores are aligned and do not overlap. |
| CallSlots.MarkerExact | luajit/src/lj_asm_arm64.h:1961-1983 | With a marker on OSX, reservation and use are equal exactly if an argument follows the marker and the fixed ones do not end on a multiple of eight bytes; otherwise the difference is eight bytes, or one without such an argument. |
| CallSlots.MarkerCosts | luajit/src/lj_asm_arm64.h:1961-1983 | A call on OSX with one 4-byte variable argument reserves 16 bytes and uses 8. |
| CallSlots.MarkerFree | luajit/src/lj_asm_arm64.h:1961-1983 | After nine 1-byte arguments a variable one costs nothing extra: both walks come to 16 bytes. |
| ByteQueue.Drive | luajit/src/lib_buffer.c:64-224 | Any mix of put, put of another buffer, reserve and commit, get, skip, set and reset on two buffers does to them what it does to two queues, up to a first request that would hang; a borrowed string stays as it is; as long as no more than 2^28 bytes come in nothing hangs, and nothing is refused but putting a buffer to itself and committing more than was reserved. |
| ByteQueue.Conserved | luajit/src/lib_buffer.c:116-181 | For each of the two buffers, bytes got and bytes left are the bytes put to it, in order. |
| ByteQueue.SBufExt.More | luajit/src/lj_buf.c:60-88 | Makes room by growing, copying a borrowed string or moving down, which it does exactly if an eighth has been read and that is enough, and keeps the contents; refuses exactly too long results; it is defined wherever the source ends. |
| ByteQueue.SBufExt.Put | luajit/src/lj_buf.c:132-138 | Appends the bytes, or refuses and keeps the contents, exactly for too long results; a borrowed string is never written. |
| ByteQueue.SBufExt.PutBuffer | luajit/src/lib_buffer.c:129-132 | Appends another buffer's contents; itself is refused. |
| ByteQueue.SBufExt.Reserve | luajit/src/lib_buffer.c:203-224 | Reserving room, writing to it and committing appends what was written; more than was asked for may be refused. |
| ByteQueue.SBufExt.Get | luajit/src/lib_buffer.c:161-181 | Gives and takes away the first bytes, at most all. |
| ByteQueue.SBufExt.Commit | luajit/src/lib_buffer.c:216-224 | Bytes written to reserved room become contents; more than the room is refused. |
| ByteQueue.EndsExactly | luajit/src/lj_buf.c:19-25 | Doubling any size in 32 bits reaches a request at all exactly if it does so within 31 turns. |
| ByteQueue.HangsExactly | luajit/src/lj_buf.c:60-88 | Making room does not end exactly for an owned buffer of 2^31 bytes or more, with less than an eighth read, when the room behind and each of the 31 next doublings fall short of a request that the size limit accepts. |
| ByteQueue.HangsOwned | luajit/src/lj_buf.c:60-88 | Of the sizes that are powers of two only 2^31 is in danger, exactly if less than 2^28 bytes have been read and the request exceeds the room behind. |
| ByteQueue.HangExample | luajit/src/lj_buf.c:60-88 | A buffer of 2^31 bytes, 512 of them read and 600 of them free at its end, asked for 856 bytes, is such a state. |
| ChunkReader.LexState.Fill | luajit/src/lj_bcread.c:48-89 | However the input is cut into chunks, and though the reader may reuse its buffer, buffered bytes followed by unread chunks stay the same; enough is buffered, or the input has ended, or the request was bad, each told by the number of bytes alone. |
| ChunkReader.LexState.Number | luajit/src/lj_buf.c:293-304 | Reads the number that the specification reads, and leaves what follows. |
| ChunkReader.LexState.Number33 | luajit/src/lj_bcread.c:136-150 | The same for the upper 32 of 33 bits. |
| ChunkReader.LexState.ReadDump | luajit/src/lj_bcread.c:418-452 | Reads back all blocks of a dump, in any chunking, and stops at its end; only a size beyond the buffer limit can prevent it. |
| Uleb.Write | luajit/src/lj_strfmt.c:155-161 | Writes the encoding of a number. |
| Uleb.EncMeaning | luajit/src/lj_strfmt.c:155-161 | The encoding has seven bits of the number in each byte, lowest first, the top bit in all bytes but the last, and no byte too many. |
| Uleb.RoundTrip32 | luajit/src/lj_buf.c:293-304 | Reading inverts writing for every 32 bit number, whatever follows. |
| Uleb.Read32Meaning | luajit/src/lj_buf.c:293-304 | Reading gives the low 32 bits of the number that the bytes stand for, in the shortest form or not. |
| Uleb.Writes33 | luajit/src/lj_bcwrite.c:198-206 | The writer's 32 bit word with its mended last byte is the encoding of the 33 bit number. |
| Uleb.RoundTrip33 | luajit/src/lj_bcread.c:136-150 | Reading inverts that: all 32 bits of a constant and the bit that tells its kind. |

## Left out

- Allocator: directly mapped chunks (`direct_alloc`, `direct_resize`) are treated as always failing; destroying a heap and its random numbers are not modelled; bin maps are sets, not words.
- Allocator: an answer of the system that would make one segment 2^40 bytes or larger is turned down, because `compute_tree_index` keeps only 32 bits of the size shifted by 8; addresses are anywhere below 2^64.
- Allocator: payload bytes are one cell per address, and tags and links are words at aligned addresses; stores to payload and to metadata are never at the same address, which is what is proved, so their overlap is not modelled.
- Arena.MState.RestIntoBin: writes the head of the rest once before the old first chunk is unlinked, and again where `prepend_alloc` does, so that the memory is tiled throughout.
- LuaStrings.FindPattern: the number that stands for a position capture is shown as its decimal digits, as `gsub` writes it.
- Lua patterns: metamethods, `__index` lookups and callbacks of `gsub` are parameters that answer the same each time and do not change the subject; the plain search of `find` and format strings are not modelled.
- TableSort.Auxsort: the comparator is a function; errors it raises and changes it makes to the table are not modelled.
- Dasm.Encoder.Put: growing of buffers, positions of 2^24 cells or more and integer overflow of offsets; variable registers, displacements, marks, `SETLABEL` and externals; a put after one that failed. Checks are compiled in, and an action list has branch opcodes directly before their operand, as the preprocessor emits them.
- RegTrace.Assemble: which instructions are selected and fused, PHIs and loops, exits and their snapshots' restoration, stack checks, machine code limits and `IR_RENAME` records; registers are those of x64 without constants in fixed registers.
- RegSide.HeadSide: the stack check at the end and the frame adjustment instruction itself; the code is modelled with the stack pointer of the new frame throughout.
- CallSlots.SetupSlots: C types beyond size and kind, and result registers.
- ByteQueue.SBufExt.Put: numbers and `__tostring` results are put as strings of bytes; borrowed temporary buffers and serialization are not modelled.
- ByteQueue.SBufExt.More: states in which the source's doubling loop runs forever are excluded by `Hangs`, whose exact condition is `ByteQueue.HangsExactly`; `Drive` stops before the first command that meets it.
- ChunkReader.LexState.ReadDump: the header and the contents of prototypes are blocks of bytes here; which bytes a prototype has is not checked.
- ChunkReader.LexState.Number: a number is taken to end within the buffered bytes, which the source only asserts; shifts of 32 and more, which only malformed input asks for, count as zero.
- Garbage collection, the interpreter, the parser, the recorder and the IR optimizer are not part of this model.
