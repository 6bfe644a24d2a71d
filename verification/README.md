# Verified model of the Z80 translator and its companions

The repository runs CP/M programs for the Z80 by translating guest code to host code on the fly. A plain
interpreter says what every instruction does; a translator turns runs of instructions into blocks of host code and
must agree with the interpreter bit for bit, including the undocumented flag bits, memptr, Q and the instruction
count. Around it live a Kaypro terminal with a renderer that repaints only what changed, a keyboard queue, an
external sort for CP/M and a disk image editor. This project models all of these in Dafny and proves what they are for.

The main results:

- **The interpreter is the machine.** `ReferenceProof.StepIsReference`: whatever bytes are at pc, decoding and executing
  them does what a second description of the instruction set does, which reads the opcode's bit fields instead of
  decoding to a table, does its arithmetic on wider words and its flags by their meaning. What single instructions do
  is then stated in numbers (`InstructionLaws`): where a relative jump lands, which byte (IX+d) is, what LDIR moves.
- **The translator is a compiler that preserves meaning.** `Blocks.BlockSound`: whatever block the decoder collects,
  whatever flags, memptr stores and Q updates the emitter leaves out, whatever loops it folds into closed form and
  whichever exit is taken, the state at the exit is the interpreter's, after the number of instructions the exit
  reports. It holds with the ALU, ADD HL and DAA code of the AArch64 backend and with that of the x86-64 backend.
- **Every run of the dispatcher is a run of the interpreter.** `DispatchProof.RunIsSteps`, and the imperative
  `Machine.Runner.Loop`: block entries, chained edges, invalidations in mid-run, retranslations, wipes of the cache
  and interpreter fallbacks, in any order.
- **No control transfer reaches a translation of bytes that have since changed.** `CacheProof.StoreIsExact`,
  `CacheProof.SweepSuffices`, `CacheProof.NoStaleLink`, and the linked lists below them in `LinkPool`.
- **The return-address stack is transparent** and bounded in depth (`Ras.RasTransparent`), and so are whole runs that
  use it: `RasDispatch.XRunIsSteps` lets host RETs choose where to go on and still reaches the interpreter's states.
- **Chains of ADC/DAA and SBC/DAA are decimal arithmetic** on numbers of any length (`Bcd.ChainIsDecimal`).
- **The sort is correct and stable, and its result is the only one possible** (`SortFiles.SortJob`,
  `Sort.OnlyOneOrder`), from the bytes of SORTIN through named run files on two drives to the bytes of SORTOUT, with no
  work file left behind. The order is stated on the bytes of the records (`SortOrder.CompareIs`).
- **Disk images round-trip**: a file added extracts to its bytes, every other entry of any user and the blocks it
  points at are untouched byte for byte, and adding fails exactly when there is no room (`DiskImage.ImageFile.AddFile`).
- **The terminal shows the screen** after every flush, in any interleaving of output, flushes, status texts and resizes
  (`Render.Session`): characters as themselves, graphics as braille dots, attributes as the SGR parameters that mean them.
  `VideoLaws` says what each control byte and escape sequence does to the screen.
- **The keyboard loses and invents nothing** (`Keyboard.Session`), and `Keyboard.CutsInvisibleUnlessLead` says exactly
  for which input it does not matter where reads cut it. Typed text arrives unchanged, and piped lines as if typed
  (`KeyboardLaws`).

## How it is built

Code that changes things in place is a class with methods, each proved against a function on values; what the code
promises is then proved about those functions. `Bits`, `Decoder`, `Encoder` and `Interp` give the machine, `Reference`,
`ReferenceProof` and `InstructionLaws` say what it is independently of them;
`Emitter`, `FlagsProof`, `X64Flags`, `Folds`, `Trails`, `Translator`, `TranslateBlock` and `Blocks` the translator;
`BlockCache`, `CacheProof`, `LinkPool`, `Dbt`, `Dispatch`, `DispatchProof`, `Wrapping`, `Cpu` and `Machine` the cache and
the dispatcher; `Ras` and `RasDispatch` the return-address stack; the other files are the satellites, with
`SortOrder`, `VideoLaws` and `KeyboardLaws` stating what their steps mean on plain bytes and cells. Guest memory is a
map from 16-bit addresses to bytes, absent meaning zero.
Registers, flags and bytes of the processor are bit vectors; addresses are integers modulo 65536.

Two constants have no value on purpose: `Emitter.BACKEND`, the host the code is emitted for, and `Dispatch.USE_RAS`,
whether CALLs and RETs are paired on the host stack. Nothing is known about them, so every theorem holds for each choice.

An emitted block is a list of chunks, each with the effect of the host code it stands for. Flag computations follow
the emitted sequences step by step (which half-carry trick, which table, which bits are masked). The instructions that
the translator never translates are one unknown function `host` that every theorem quantifies over: the interpreter
and the dispatcher's fallback call the same code for them, so nothing needs to be known about it.

Conditions carried by the run theorems, all from the code: a new block does not wrap past 0xFFFF; pushes do not land
on marked bytes; a block's stores do not change instructions of the block that are still to be executed
(`DispatchProof.MissingIsAdmissible` shows that it is enough if they miss the block's bytes); RET does not pop address 0.

Where the code does less, or more, than one would expect:

- A block whose end wraps past 0xFFFF gets no byte marked, since the marking loop compares 16-bit addresses
  (`DispatchProof.MarksUnlessWrapping`). `Wrapping.TranslateExact` proves that translating keeps the invariant if and
  only if the block does not wrap or all its bytes were marked before. `Wrapping.WrappedBlockGoesStale` is a run that
  goes wrong: JP (HL) at 0xFFFF, overwritten by a NOP, still jumps to HL.
- The batched sweep also drops a block that starts one byte past the written range
  (`CacheProof.SweepReachesOnePast`). This is harmless.
- RET to address 0 returns without counting the instruction, while a translated RET counts it;
  `Blocks.BlockIsSteps` states the difference exactly.
- JP (IX) and JP (IY) jump to HL in the interpreter (core/z80_interp.c:784-785); the translator refuses them
  (dbt/dbt_a64.c:915-919), so both engines agree. The reference follows the code.
- LDIR and LDDR with BC = 0 do nothing in both engines, where the Zilog manual has them copy 64 KB.
- The comments in dbt/dbt.h about a whole-cache wipe and about keeping link records are out of date; the model follows
  dbt/block_cache.c.
- `mkdsk` masks the names stored in an image but not the name it looks for, so a file added under a name with a byte
  above 127 cannot be found again: `Disk.FoundUnlessHighBit` is an if and only if. Such a name names nothing
  (`Disk.HighBitNamesNothing`); its records are found under the masked name, if no file of that name was there
  (`DiskImage.ImageFile.AddFile`).
- Where reads cut the input shows, for some keymap and some cutting, if and only if an ESC in it is directly followed
  by `[` or `O` (`Keyboard.CutsInvisibleUnlessLead`; `Keyboard.CutSequenceDiffers` is one such input).
- Run numbers have names in plain digits up to 999, and again after each multiple of 25600, when names repeat
  (`SortLines.RunNames`): the code adds '0' to the low byte of a quotient.
- in_getline sets i_eof already with a last line that has no LF, and the merge skips streams with i_eof set. No record
  is lost only because run files never end in the middle of a line (`SortLines.SpillRoundTrip`, `SortLines.GetLine`).

## Model

| member | source | states |
|---|---|---|
| `Decoder.DecodeOne` | core/z80_decode.c:36-587 | the prefix loop computes the decode function, for all prefix combinations; what that gives on each page is `Encoder.PlainDecode`, `EdDecode`, `CbDecode`, `IndexedDecode` and `PrefixedDecode` |
| `Decoder.DecodeIsLocal` | core/z80_decode.c:36-587 | two memories that agree on the bytes a decode reports consuming decode alike; the count is between 1 and 8 |
| `Encoder.PlainDecode` | core/z80_decode.c:36-587 | an unprefixed instruction decodes to the operation whose encoding is its opcode, with the right length and operand byte order |
| `Encoder.EdDecode` | core/z80_decode.c:36-587 | an ED instruction decodes to the operation whose encoding is its second byte, undocumented twins included, with length 2 or 4 and the low byte of the word first |
| `Encoder.CbDecode` | core/z80_decode.c:36-587 | CB takes its sub-opcode from the second byte; DD CB and FD CB take the displacement from the third and the sub-opcode from the fourth |
| `Encoder.IndexedDecode` | core/z80_decode.c:36-587 | after DD or FD an instruction on memory has its displacement in the third byte and then its operand, and encodes back to its opcode |
| `Encoder.PrefixedDecode` | core/z80_decode.c:36-587 | after DD or FD every other instruction encodes back to its opcode, H and L standing for the index halves, with operands one byte later |
| `CpuState.Cpu.Step` | core/z80_interp.c:264-1492 | one step in place is one step of the interpreter function, which `ReferenceProof.StepIsReference` holds against the instruction set |
| `ReferenceProof.StepIsReference` | core/z80_interp.c:264-1492 | for every state and whatever bytes are at pc, a step the interpreter makes itself leaves the registers, F with its undocumented bits, memptr, Q, memory and stop flag that the bit-field reference gives |
| `ReferenceProof.HostExactly` | core/z80_decode.c:36-587 | an instruction is left to the host exactly when the reference lists it: port I/O, HALT, RST, EXX, interrupt state, single block steps and the like |
| `ReferenceProof.ArithIs` | core/z80_interp.c:462-742 | ADD, ADC, SUB, SBC, AND, XOR, OR and CP: carry, borrow, half carry, overflow and parity by their meaning on wider numbers |
| `InstructionLaws.JumpsRelative` | core/z80_interp.c:800-804 | JR with the low byte of k goes to pc + 2 + k, for every k from -128 to 127 |
| `InstructionLaws.JumpsRelativeIf` | core/z80_interp.c:805-810 | JR cc goes there exactly when its flag has the value asked for, and on otherwise |
| `InstructionLaws.CountsDown` | core/z80_interp.c:969-975 | DJNZ lowers B by one and jumps to pc + 2 + k exactly when it is not zero then |
| `InstructionLaws.LoadsIndexed` | core/z80_interp.c:57-71 | LD A,(IX+k) and LD A,(IY+k) load the byte at the index register plus k, for every k from -128 to 127 |
| `InstructionLaws.RegisterFile` | core/z80_interp.c:21-80 | a byte written to register i is read back from i and from no other |
| `InstructionLaws.OneBit` | core/z80_interp.c:1325-1475 | RES clears and SET sets bit n and no other bit |
| `InstructionLaws.BlockMoves` | core/z80_interp.c:1024-1049 | LDIR and LDDR whose stores miss the bytes not yet read move every byte to its place, leave all others, and raise or lower HL and DE by BC |
| `CpuState.Cpu.BlockCopy` | core/z80_interp.c:1024-1049 | the byte-by-byte LDIR/LDDR loop leaves the specified registers and memory |
| `FlagsProof.AssembleAgrees` | dbt/dbt_a64.c:572-663 | flag pieces that are dead can be left out without changing the live bits of F |
| `FlagsProof.AluAgrees` | dbt/dbt_a64.c:572-663 | the inline ALU code gives the interpreter's result and its F on every live bit, when the incoming F agrees only on the bits liveness asks for |
| `FlagsProof.IncDecAgrees` | dbt/dbt_a64.c:682-700 | the same for INC and DEC of a byte |
| `FlagsProof.CbRotateAgrees` | dbt/dbt_a64.c:701-757 | the same for the eight CB rotates and shifts |
| `FlagsProof.BitAgrees` | dbt/dbt_a64.c:758-782 | the same for BIT, with X and Y from either source |
| `FlagsProof.AccRotateAgrees` | dbt/dbt_a64.c:999-1700 | the same for RLCA, RRCA, RLA and RRA |
| `FlagsProof.AddHlAgrees` | dbt/dbt_a64.c:999-1700 | the same for ADD HL,rr |
| `FlagsProof.CplAgrees` | dbt/dbt_a64.c:999-1700 | the same for CPL |
| `FlagsProof.ScfCcfAgrees` | core/z80_interp.c:1175-1196 | SCF and CCF see the previous instruction's Q, whether it is known at translation time or read at run time |
| `EmitterProof.DaaMatches` | dbt/dbt_x64.c:1432-1443 | DAA, by helper or by table lookup with F left alone when none of it is live, refines the interpreter's DAA when the incoming F agrees on C, H and N |
| `EmitterProof.AluCodeAgrees` | dbt/dbt_x64.c:769-850 | either backend's ALU code gives the interpreter's result and live F bits |
| `EmitterProof.BlockCopyStores` | dbt/dbt_flags.c:336-402 | the indexed copy stores what the pointer-stepping loop stores, in the same order, with overlap and wrap-around |
| `EmitterProof.BlockCopyMatches` | dbt/dbt_flags.c:336-402 | the LDIR/LDDR helper leaves the interpreter's registers, F and memptr |
| `EmitterProof.OpMatches` | dbt/dbt_a64.c:999-1700 | every translatable straight-line instruction, with any live masks and any static knowledge of Q, refines the interpreter's step on what the masks keep |
| `X64Flags.NativeAgrees` | dbt/dbt_x64.c:769-850 | the x86-64 ALU code built on native flags gives the interpreter's result and live F bits, whatever the host's parity flag |
| `X64Flags.TableAddHlAgrees` | dbt/dbt_x64.c:1353-1400 | the table form of ADD HL gives every live bit; ADD HL,HL needs no half-carry fix-up |
| `FoldsProof.CountdownSteps` | dbt/dbt_a64.c:2023-2042 | a DEC r / JR or JP NZ loop takes the interpreter 2n instructions to its closed form, with n = 256 for a counter of 0 |
| `FoldsProof.DjnzSteps` | dbt/dbt_a64.c:2023-2042 | a DJNZ to itself takes n instructions to its closed form |
| `FoldsProof.CopySteps` | dbt/dbt_a64.c:2047-2083 | n iterations of a six-instruction copy loop equal the closed form: bytes in order under overlap, F, memptr and count |
| `FoldsProof.FillSteps` | dbt/dbt_a64.c:2047-2083 | the same for the four-instruction fill loop |
| `FoldsProof.FilterSteps` | dbt/dbt_a64.c:2106-2128 | the twelve-instruction filtered copy equals the helper for every memory, overlap, mask, bounds and counter and all three exits |
| `FoldsProof.FilterBound` | dbt/dbt_flags.c:512-546 | the helper ends within 256 bytes read and twelve instructions for each |
| `TranslatorProof.CountdownMatches` | dbt/dbt_a64.c:2149-2179 | the emitted countdown leaves the loop's end state, memptr by the JP and JR rules, and the exact number of skipped instructions |
| `TranslatorProof.DjnzFoldMatches` | dbt/dbt_a64.c:2149-2179 | the same for DJNZ |
| `TranslatorProof.CopyMatches` | dbt/dbt_flags.c:468-495 | the copy helper's stores, registers, F, memptr and count are those of the loop |
| `TranslatorProof.FillMatches` | dbt/dbt_flags.c:498-510 | the same for the fill helper |
| `TranslatorProof.FilterMatches` | dbt/dbt_flags.c:512-546 | the same for the filtered-copy helper |
| `TranslatorProof.FoldAdvances` | dbt/dbt_a64.c:2276-2374 | a fold found anywhere in a block advances the interpreter past the loop and leaves Q known clear |
| `TranslatorProof.OpAdvances` | dbt/dbt_a64.c:2276-2374 | an emitted instruction takes the interpreter one step on, with F, memptr and Q agreeing as far as the rest of the block can tell |
| `TranslatorProof.SideAdvances` | dbt/dbt_a64.c:1848-1880 | a conditional in mid-block leaves through its own exit with the full state and count, or goes on |
| `TranslatorProof.EnderReaches` | dbt/dbt_a64.c:1927-2000 | a branch at the end of a block leaves with the interpreter's full state, taken or not |
| `TranslatorProof.RunSound` | dbt/dbt_a64.c:2255-2374 | from any instruction of a block, a state that agrees on live flags and memptr reaches exits with all eight bits of F, memptr, Q and count exact |
| `TranslateBlock.DecodeOps` | dbt/dbt_a64.c:2207-2243 | the decode loop collects the specified op list and its end address |
| `TranslateBlock.Liveness` | dbt/dbt_a64.c:2255-2273 | the backward loop fills the masks with what the rest of the block can see |
| `TranslateBlock.Emit` | dbt/dbt_a64.c:2276-2374 | the emit loop produces the specified chunks, with folds, side exits and Q tracking |
| `TranslateBlock.Translated` | dbt/dbt_a64.c:2181-2383 | the three phases together produce the block or a refusal |
| `Blocks.MatchLocal` | dbt/dbt_a64.c:2213-2241 | a block's op list stays what memory decodes to as long as the bytes of its span keep their values |
| `Blocks.OpsPrefix` | dbt/dbt_a64.c:2213-2241 | on memory that agrees on the span, decoding finds at least the same block, whatever the op that stopped it has become |
| `Blocks.BlockSound` | dbt/dbt_a64.c:2181-2383 | entering a block leaves, at every exit, the interpreter's registers, F, memptr, Q, memory and count; on the way the interpreter stays on the block and stores only where the exit says |
| `Blocks.BlockIsSteps` | dbt/dbt_a64.c:2181-2383 | with code that is not overwritten before it is reached, this is the real interpreter; only RET to 0 is counted differently |
| `Blocks.MissingIsUndisturbed` | dbt/dbt_a64.c:297-313 | stores that miss the block's bytes never overwrite code before it is reached |
| `DbtState.Dbt.CacheLookup` | dbt/block_cache.c:17-26 | the slot's entry |
| `DbtState.Dbt.CacheInsert` | dbt/block_cache.c:28-39 | the slot is filled and every recorded branch to it patched |
| `DbtState.Dbt.InvalidateAll` | dbt/block_cache.c:47-57 | the cache, the bitmap, the lists and the pool are empty again |
| `DbtState.Dbt.LinkRecord` | dbt/block_cache.c:59-74 | a record is taken from the free list or the pool and put on the list of its PC, unless none is left |
| `DbtState.Dbt.LinksRepatch` | dbt/block_cache.c:76-103 | every recorded site is aimed at the new code, or at its probe with its record freed |
| `DbtState.Dbt.MarkBlockBytes` | dbt/block_cache.c:105-112 | the bytes up to the 16-bit end are marked and the window widened |
| `DbtState.Dbt.InvalidateStore` | dbt/block_cache.c:116-155 | the window loop drops the covering slots and clears the one mark |
| `DbtState.Dbt.MemW` | dbt/block_cache.c:159-166 | a store and its check |
| `DbtState.Dbt.MemHostWrote` | dbt/block_cache.c:168-175 | a range the host changed is checked byte by byte |
| `DbtState.Dbt.SweepForward` | dbt/dbt_flags.c:431-451 | the early exit and the window sweep |
| `DbtState.Dbt.EmitEdge` | dbt/dbt_a64.c:489-507 | a static edge is recorded, and patched at once if its target is cached |
| `LinkPool.ListsPartition` | dbt/block_cache.c:59-103 | every used record is on exactly one of the lists, exactly once |
| `LinkPool.RecordHolds` | dbt/block_cache.c:59-74 | recording keeps the pool's invariant, and succeeds if and only if there is room |
| `LinkPool.UnlinkHolds` | dbt/block_cache.c:76-103 | freeing the head of a list keeps the invariant and gives the room back |
| `LinkPool.EmptyHolds` | dbt/block_cache.c:47-57 | a wiped pool satisfies the invariant with all its room |
| `CacheProof.EmitEdgeKeeps` | dbt/dbt_a64.c:489-507 | emitting an edge keeps recorded and live links in step |
| `CacheProof.InsertKeeps` | dbt/block_cache.c:28-39 | so does inserting; only the one slot changes |
| `CacheProof.DropKeeps` | dbt/block_cache.c:76-103 | so does dropping a slot; its sites are forgotten, other lists untouched |
| `CacheProof.NoStaleLink` | dbt/block_cache.c:76-103 | a recorded site jumps to the live code of its PC, and only while there is one |
| `CacheProof.DropCoveringKeeps` | dbt/block_cache.c:116-155 | the window loop empties exactly the slots in the window that reach the byte |
| `CacheProof.StoreIsExact` | dbt/block_cache.c:116-155 | a store removes exactly the blocks that cover it and the refusals in the window, and clears one mark |
| `CacheProof.SweepSuffices` | dbt/dbt_flags.c:431-451 | after the sweep, early exit included, no block covers a written byte, for any wrapped range |
| `CacheProof.SweepReachesOnePast` | dbt/dbt_flags.c:431-451 | a block that starts right after the range is dropped too, though it covers no written byte |
| `CpuState.Cpu.JitBlockCopy` | dbt/dbt_flags.c:336-402 | the helper's loop, in place, is its specification |
| `CpuState.Cpu.JitLoopCopy` | dbt/dbt_flags.c:468-495 | likewise for the copy helper, with the skipped count |
| `CpuState.Cpu.JitLoopFill` | dbt/dbt_flags.c:498-510 | likewise for the fill helper |
| `CpuState.Cpu.JitLoopFilter` | dbt/dbt_flags.c:512-546 | likewise for the filtered-copy helper |
| `DispatchProof.EventsKeep` | dbt/dbt_a64.c:297-313 | any sequence of checked stores, clear pushes and swept ranges keeps every cached block equal to a decode of current memory |
| `DispatchProof.HostWroteKeeps` | dbt/block_cache.c:168-175 | however the host changed a range, reporting it makes the cache agree with memory again |
| `DispatchProof.MarksUnlessWrapping` | dbt/block_cache.c:105-112 | marking reaches every byte of a block with an unmarked first byte if and only if the block does not wrap |
| `Wrapping.InsertExact` | dbt/block_cache.c:28-39 | marking and inserting a block keeps cache and memory in step if and only if it does not wrap or its bytes were all marked before |
| `Wrapping.UnmarkedMarkable` | dbt/block_cache.c:105-112 | for a block whose first byte is unmarked that condition is that it does not wrap |
| `Wrapping.TranslateExact` | dbt/dbt_common.c:200-364 | translating keeps the whole invariant if and only if the same condition holds |
| `Wrapping.WrappedBlockGoesStale` | dbt/block_cache.c:105-166 | a concrete run: a wrapping block is cached unmarked, a store over it leaves it cached, and running it departs from the interpreter |
| `DispatchProof.InsertKeepsCode` | dbt/block_cache.c:28-39 | marking and inserting a non-wrapping block keeps the code invariant |
| `DispatchProof.BlockArcs` | dbt/dbt_a64.c:489-507 | the static edges of one block have different slots |
| `DispatchProof.TranslateKeeps` | dbt/dbt_a64.c:2181-2383 | translating, refusing and wiping keep the whole invariant |
| `DispatchProof.EdgeEnters` | dbt/dbt_a64.c:457-507 | a patched edge or a successful probe enters a live translation of the very address the guest is at |
| `DispatchProof.InterpretKeeps` | dbt/dbt_common.c:200-364 | the interpreter fallback keeps the invariant and is one step |
| `DispatchProof.MissingIsAdmissible` | dbt/dbt_a64.c:297-313 | the condition on stores can be read off the block's own stores |
| `DispatchProof.NextIsSteps` | dbt/dbt_common.c:200-364 | every turn of the dispatcher keeps the invariant and equals some interpreter steps |
| `DispatchProof.RunIsSteps` | dbt/dbt_common.c:200-364 | at every point of every run, registers, memory, memptr, Q and count are the interpreter's after as many instructions |
| `DispatchProof.StartInv` | dbt/block_cache.c:47-57 | the empty cache satisfies the invariant, for any guest state |
| `Machine.Runner.TranslateHere` | dbt/dbt_common.c:200-364 | decode, liveness, emit, edges, marks and insertion, in place, are the translation step |
| `Machine.Runner.DoOp` | dbt/dbt_a64.c:297-313 | an instruction of emitted code in place, with the check or the sweep of its stores |
| `Machine.Runner.DoFold` | dbt/dbt_flags.c:468-546 | a folded loop in place through its helper, with its sweep |
| `Machine.Runner.RunCode` | dbt/dbt_a64.c:2276-2374 | emitted code run chunk by chunk leaves what the block's run function says, cache checks included |
| `Machine.Runner.Turn` | dbt/dbt_common.c:200-364 | one turn of the loop, in place, is one step of the system |
| `Machine.Runner.Loop` | dbt/dbt_common.c:200-364 | any number of turns leaves the guest where the interpreter would be |
| `Ras.CallKeeps` | dbt/dbt_x64.c:653-689 | a CALL keeps the pairing and the bound on depth plus budget |
| `Ras.RetKeeps` | dbt/dbt_x64.c:691-702 | a RET keeps them, lands only where the popped PC continues, and never through the sentinel |
| `Ras.CallThenRet` | dbt/dbt_x64.c:653-702 | a CALL and its RET pair up and leave the stack as it was |
| `Ras.RasTransparent` | dbt/dbt_x64.c:653-702 | in every interleaving of calls, returns, mismatches and exits a host return lands only where the popped guest PC continues, and depth stays within the budget |
| `Ras.HostStack.GuestCall` | dbt/dbt_x64.c:653-689 | the emitted CALL sequence, in place |
| `Ras.HostStack.GuestRet` | dbt/dbt_x64.c:691-702 | the emitted RET sequence, in place; landing implies the right address |
| `RasDispatch.CallLands` | dbt/dbt_x64.c:653-689 | a block that leaves through a CALL has landing code, and it continues at the address after that CALL |
| `RasDispatch.LandingIsProbe` | dbt/dbt_x64.c:691-702 | landing in the code after a CALL enters exactly the block that probing the cache would have found |
| `RasDispatch.XNextIsNext` | dbt/dbt_x64.c:653-702 | every dispatcher step with the return-address stack is the step without it, and the stack stays sound |
| `RasDispatch.XRunIsSteps` | dbt/dbt_x64.c:209-249 | at every point of every run with the stack the guest is where the interpreter is, and the depth is within the budget |
| `RasDispatch.XStartInv` | dbt/dbt_x64.c:209-216 | the first entry satisfies the invariant |
| `Bcd.AddByte` | core/z80_interp.c:532-551 | ADC;DAA on packed BCD adds decimally, C being the hundreds |
| `Bcd.SubByte` | core/z80_interp.c:571-590 | SBC;DAA on packed BCD subtracts decimally, C being the borrow |
| `Bcd.ChainIsDecimal` | core/z80_interp.c:1198-1230 | chains over operands of any length give the packed BCD of the sum or difference, and the decimal carry or borrow |
| `X64Flags.BuildDaaTable` | dbt/dbt_flags.c:63-86 | the table is filled with DAA of each index |
| `X64Flags.TableIsDaa` | dbt/dbt_flags.c:35-72 | looking up the index of A and F is DAA, and the index is in the table |
| `Keyboard.KeySequences` | kaypro/kaypro_kbd.c:159-190 | each key's sequence names that key |
| `KeyboardLaws.TypedUnchanged` | kaypro/kaypro_kbd.c:190-207 | text typed without backspace, delete and sequences reaches the guest byte for byte, in however many reads |
| `KeyboardLaws.ByteTyped` | kaypro/kaypro_kbd.c:190-207 | a single byte other than 0x7F and 0x08 is delivered unchanged, those two as the bytes of the backspace key |
| `KeyboardLaws.KeyPressed` | kaypro/kaypro_kbd.c:159-207 | a key's sequence in the input delivers the bytes configured for it, and what follows is read as before |
| `KeyboardLaws.WholeSequence` | kaypro/kaypro_kbd.c:250-281 | ESC [ up to its final byte, or ESC O and a byte, is one key, taken whole |
| `KeyboardLaws.Modified` | kaypro/kaypro_kbd.c:159-188 | an arrow, Home or End with a modifier is that key, a function key with one is none, and ESC O is as good as ESC [ |
| `KeyboardLaws.OtherNumbers` | kaypro/kaypro_kbd.c:159-188 | the numbers other terminals send for Home, End and F1 to F4 |
| `Keyboard.Ring.Push` | kaypro/kaypro_kbd.c:16-25 | a byte goes to the end of the queue, or is dropped when 255 are queued |
| `Keyboard.Ring.Pop` | kaypro/kaypro_kbd.c:16-25 | the first byte queued comes out |
| `Keyboard.Ring.Room` | kaypro/kaypro_kbd.c:244-244 | the room left |
| `Keyboard.Console.Drain` | kaypro/kaypro_kbd.c:250-279 | translated keys are queued whole or stay pending; nothing is lost |
| `Keyboard.Console.NormaliseRead` | kaypro/kaypro_kbd.c:300-315 | the loop over a read computes the line-end normalisation, carrying the last CR to the next read |
| `Keyboard.Console.Fetch` | kaypro/kaypro_kbd.c:281-318 | pending bytes first, then one read; 1 if and only if something is queued |
| `Keyboard.Console.Gated` | kaypro/kaypro_kbd.c:524-528 | the gate withholds a byte exactly while it is closed, and opens after enough idle polls |
| `Keyboard.Console.Poll` | kaypro/kaypro_kbd.c:536-594 | reports a byte only if one is queued, and withholds a queued byte only behind a closed gate |
| `Keyboard.Console.Read` | kaypro/kaypro_kbd.c:596-623 | gives the next byte, or the end only when everything was delivered |
| `Keyboard.NormaliseAppend` | kaypro/kaypro_kbd.c:300-315 | normalising two reads one after the other is normalising them together |
| `KeyboardLaws.LinesNormal` | kaypro/kaypro_kbd.c:300-315 | lines ended by LF, CR or CR LF, mixed, come out as the same lines each ended by CR |
| `KeyboardLaws.PipedAsTyped` | kaypro/kaypro_kbd.c:300-315 | a piped text file reaches the guest as its lines typed, in however many reads |
| `Keyboard.NormaliseLeads` | kaypro/kaypro_kbd.c:300-315 | normalising line ends neither makes nor breaks an ESC [ or ESC O |
| `Keyboard.CutsInvisibleUnlessLead` | kaypro/kaypro_kbd.c:250-318 | for every keymap and every cutting of the input into reads the guest is given the translation of the normalised whole, if and only if no ESC in it is directly followed by [ or O |
| `Keyboard.ChunkingInvisible` | kaypro/kaypro_kbd.c:281-318 | in particular, ESC-free input gives the same bytes however the reads cut it |
| `Keyboard.CutSequenceDiffers` | kaypro/kaypro_kbd.c:250-279 | a sequence cut by a read is not recognised: a concrete input |
| `Keyboard.Session` | kaypro/kaypro_kbd.c:536-623 | in every interleaving of polls, reads and output, delivered bytes are an in-order prefix of the translated input, one per read, all of it at the end; only ^] cuts a session short |
| `Keyboard.Script.Feed` | kaypro/kaypro_kbd.c:460-474 | a long step is queued in pieces, nothing dropped |
| `Keyboard.Script.Advance` | kaypro/kaypro_kbd.c:460-511 | bytes are queued, a wait is pending, or the whole script was delivered |
| `Keyboard.Script.Take` | kaypro/kaypro_kbd.c:596-605 | the bytes taken are a prefix of the script's |
| `Video.InitValid` | kaypro/kaypro_video.c:234-242 | the initial screen satisfies the invariant |
| `Video.EscLeadKeeps` | kaypro/kaypro_video.c:244-310 | the byte after ESC starts a known sequence or is dropped; the invariant holds |
| `Video.EscArgKeeps` | kaypro/kaypro_video.c:244-310 | collected plus needed arguments add up to the table's count, and the sequence runs with exactly that many |
| `Video.PutcKeeps` | kaypro/kaypro_video.c:244-310 | every byte keeps the cursor on the screen, marks each row it changes and leaves a preserved status line alone unless the cursor is on it |
| `Video.StatusLineKept` | kaypro/kaypro_video.c:22-124 | over a whole stream a preserved status line changes only in steps that start with the cursor on it |
| `VideoText.TextLands` | kaypro/kaypro_video.c:244-310 | text that fits the line lands in consecutive cells and changes nothing else |
| `VideoText.LastCellScrolls` | kaypro/kaypro_video.c:36-82 | a character in the last cell scrolls the region by one |
| `VideoText.CursorAddressed` | kaypro/kaypro_video.c:212-310 | ESC = reaches every cell the model can address |
| `VideoText.DeleteUndoesInsert` | kaypro/kaypro_video.c:104-124 | deleting an inserted line restores all rows but the one pushed off |
| `VideoText.CursorReturns` | kaypro/kaypro_video.c:168-190 | ESC C 6 goes back to where ESC B 6 was given, whatever bytes came in between, if those hold no other ESC B 6 and do not end inside a sequence |
| `VideoLaws.Prints` | kaypro/kaypro_video.c:68-82 | a byte from 0x20 to 0x7E goes into the cursor's cell with the current attribute; the cursor goes right, or to the next line, rolling the screen on the last |
| `VideoLaws.NulAndForward` | kaypro/kaypro_video.c:130-166 | NUL prints 0x60 and ^L only moves the cursor on, with the same wrap and roll |
| `VideoLaws.PrintsReversed` | kaypro/kaypro_video.c:244-310 | outside graphics mode a printable byte with bit 7 set is printed in reverse |
| `VideoLaws.DrawsPair` | kaypro/kaypro_video.c:244-310 | in graphics mode two such bytes make one cell of eight pixels |
| `VideoLaws.CursorBytes` | kaypro/kaypro_video.c:130-166 | backspace, ^K, return and ^^ move the cursor, within the screen, and change no cell |
| `VideoLaws.LineFeed` | kaypro/kaypro_video.c:36-67 | line feed goes down; on the last scrolling row it rolls all rows up by one with a blank one below; under it it does nothing |
| `VideoLaws.Erases` | kaypro/kaypro_video.c:83-94 | ^X blanks the rest of the line, ^W also the lines below it that scroll, and nothing else |
| `VideoLaws.Clears` | kaypro/kaypro_video.c:95-103 | ^Z blanks the lines that scroll and homes the cursor |
| `VideoLaws.Ignores` | kaypro/kaypro_video.c:148-166 | every other control byte and DEL leave the screen as it is |
| `VideoLaws.Lines` | kaypro/kaypro_video.c:104-128 | ESC R removes the cursor's line and ESC E puts a blank one there, moving the lines below, on the lines that scroll |
| `VideoLaws.Switches` | kaypro/kaypro_video.c:175-194 | ESC B n and ESC C n switch reverse, dim, blink, underline, the cursor, graphics or the status line, for n from 0 to 5 and 7, and nothing else |
| `VideoLaws.Swallows` | kaypro/kaypro_video.c:200-223 | the graphics sequences take their arguments, whatever they are, and change no cell |
| `VideoLaws.Drops` | kaypro/kaypro_video.c:212-232 | ESC and a byte that starts no sequence leave no trace |
| `DisplayState.Display.PutByte` | kaypro/kaypro_video.c:244-310 | the in-place screen does what the value model does, for every byte |
| `Render.Renderer.PaintRun` | kaypro/kaypro_render_tty.c:116-192 | a run of differing cells, short gaps written through, shows the row's glyphs and styles |
| `Render.Renderer.PaintRow` | kaypro/kaypro_render_tty.c:116-192 | after the runs the terminal's row shows the screen's row and no other row changed |
| `Render.Renderer.Flush` | kaypro/kaypro_render_tty.c:116-192 | after a flush the terminal shows, for every cell, the character 0x20 to 0x7E itself or the braille pattern of its pixels, reverse, dim, blink and underline exactly as the attribute bits say, and the cursor if it is visible |
| `Render.PixelsInPlace` | kaypro/kaypro_render_tty.c:80-93 | each pixel of a graphics cell shows as the braille dot in its place |
| `Render.ShownDepicts` | kaypro/kaypro_render_tty.c:80-110 | what is shown for a cell: a printable character as itself, a graphics one as braille, any other as a question mark, and each attribute bit |
| `Render.CodesMean` | kaypro/kaypro_render_tty.c:102-110 | the SGR parameters sent for an attribute mean, to a terminal, exactly its four bits |
| `Render.ShowsIsSeeable` | kaypro/kaypro_render_tty.c:116-192 | a terminal that shows every cell has that character, those dots and that style at every place |
| `Render.Renderer.Invalidate` | kaypro/kaypro_render_tty.c:49-49 | after a resize everything is to be painted again |
| `Render.Session` | kaypro/kaypro_render_tty.c:116-192 | in every interleaving of guest bytes, flushes, status texts and resizes, unmarked rows equal the shadow, and right after a flush the commands written so far make the terminal show each cell's character, pixels and attributes |
| `Disk.Geometry` | tools/mkdsk.c:33-52 | directory and blocks fit the image, and an entry's blocks hold 256 records |
| `Disk.Numbers` | tools/mkdsk.c:33-52 | the numbers of both formats: entries, blocks, records in a block, pointers in an entry |
| `Disk.MapIs` | tools/mkdsk.c:77-88 | in a well-formed image a block is taken exactly when it holds the directory or an entry whose user byte is at most 15 points at it |
| `Disk.OneOwner` | tools/mkdsk.c:59-91 | no block has two owners |
| `Disk.DeleteKeeps` | tools/mkdsk.c:135-145 | deleting removes the file's entries only, keeps the map exact and changes no block |
| `Disk.MadeEntry` | tools/mkdsk.c:147-196 | extent number, record count, name and pointers read back from an entry as they were put in, for both pointer widths |
| `Disk.EntryBytes` | tools/mkdsk.c:147-196 | the bytes of a new entry: user 0, the name as given, the last extent's number in bytes 12 and 14, that extent's record count in byte 15 |
| `Disk.EntryPointers` | tools/mkdsk.c:147-196 | the pointers of a new entry: one byte each, or two with the low byte first, and zero past the last block |
| `Disk.FoundUnlessHighBit` | tools/mkdsk.c:130-133 | an entry is found under its name if and only if the name is seven-bit |
| `Disk.FoundMasked` | tools/mkdsk.c:130-133 | an entry is always found under its masked name |
| `Disk.HighBitNamesNothing` | tools/mkdsk.c:130-145 | under a name with a high bit there is nothing to delete and nothing to extract |
| `Disk.BlankIsGood` | tools/mkdsk.c:59-91 | an image of all 0xE5 is well formed |
| `Disk.ExtractSame` | tools/mkdsk.c:220-264 | a file whose entries and blocks are untouched extracts unchanged |
| `Disk.ExtractHeld` | tools/mkdsk.c:220-264 | walking the entries in extent order gives the file's records |
| `Disk.EntryReads` | tools/mkdsk.c:220-264 | which part of its file an entry is and how many records it holds, by bytes 12, 14 and 15 |
| `Disk.ReadsRecord` | tools/mkdsk.c:220-264 | record r of an entry is record r mod 16 of the block its pointer r / 16 names, or mod 32 and r / 32 on the 8 MB format |
| `DiskImage.ImageFile.MarkAll` | tools/mkdsk.c:59-91 | the map is rebuilt as exactly the directory blocks plus the blocks owned; on directory bytes, `Disk.MapIs` |
| `DiskImage.ImageFile.AllocBlock` | tools/mkdsk.c:100-105 | the first free data block, or none because there is none |
| `DiskImage.ImageFile.FreeEntry` | tools/mkdsk.c:107-112 | the first deleted entry, or none because there is none |
| `DiskImage.ImageFile.DeleteFile` | tools/mkdsk.c:135-145 | the image stays well formed and is the specified one |
| `DiskImage.ImageFile.AddEntry` | tools/mkdsk.c:163-190 | one entry with its blocks; succeeds if and only if an entry and enough blocks are free, and uses exactly those |
| `DiskImage.ImageFile.AddFile` | tools/mkdsk.c:147-196 | succeeds if and only if there is room once the old file is gone; then a seven-bit name extracts to its records, a name with a high bit gives them under its masked name if no such file was there, every other file extracts as before, every other entry with user 0 to 15 and every block it points at is byte for byte as it was, and the map is exactly what the directory bytes point at |
| `DiskImage.ImageFile.ExtractFile` | tools/mkdsk.c:220-264 | the walk over entries and records computes the file's contents |
| `DiskImage.PaddedBytes` | tools/mkdsk.c:147-160 | the records of a file are its bytes padded with 0x1A to a multiple of 128 |
| `Sort.CompareRecords` | cpm/sort/sort.asm:610-673 | the nested loop computes the comparison by keys, whose meaning on record bytes is `SortOrder.CompareIs` |
| `SortOrder.CompareIs` | cpm/sort/sort.asm:610-692 | the comparison is negative if and only if at some key and offset, after ties on all before, the first record has the smaller byte (the greater for a descending key): its own byte or a blank past its end, small letters as capitals when folding |
| `Sort.CompareFlips` | cpm/sort/sort.asm:610-673 | comparing the other way round negates the result |
| `Sort.CompareChains` | cpm/sort/sort.asm:610-673 | the comparison is transitive, ties included |
| `Sort.TiesAgree` | cpm/sort/sort.asm:610-692 | records tie if and only if every key byte, padded and folded, is the same |
| `Sort.UpperBound` | cpm/sort/sort.asm:806-868 | binary search finds the first greater record |
| `Sort.InsertPtr` | cpm/sort/sort.asm:806-868 | insertion in place keeps the table sorted and stable and adds exactly one record |
| `SortFiles.FormRuns` | cpm/sort/sort.asm:710-802 | runs are spilled to drive B, or a single one to SORTOUT; they are sorted and stable, within and across, and hold exactly the input; fails if and only if there are more than 999 |
| `SortFiles.PickBest` | cpm/sort/sort.asm:1056-1117 | the scan over streams with i_eof clear finds the head that must come first, earlier runs winning ties |
| `SortFiles.OpenInputs` | cpm/sort/sort.asm:982-1040 | after priming, a head is live if and only if its run is not used up, and `live` counts them |
| `SortFiles.MergeStreams` | cpm/sort/sort.asm:1056-1117 | the merge loop ends with no live head and has written a stable merge of every record |
| `SortFiles.MergeGroup` | cpm/sort/sort.asm:982-1149 | one group from its run files to its output file, the inputs erased, every other file as before |
| `SortFiles.MergeLevel` | cpm/sort/sort.asm:933-977 | one level divides the number of runs by 16, rounding up, and keeps order and records from one drive to the other |
| `SortFiles.MergeRuns` | cpm/sort/sort.asm:933-977 | levels end with SORTOUT and no work file |
| `SortFiles.SortJob` | cpm/sort/sort.asm:710-1149 | for every input, key list, pool size and contents of the drives, the bytes of SORTOUT are the input's records as lines, in the order of their padded key bytes (ascending or descending, folded if asked) and stable, and no other file is new or changed; succeeds if and only if the input makes at most 999 runs |
| `SortOrder.OrderedIs` | cpm/sort/sort.asm:610-692 | the order the merge keeps is exactly: each record precedes every later one on those bytes, or ties with it and was read before it |
| `Sort.OnlyOneOrder` | cpm/sort/sort.asm:610-673 | sortedness and stability determine the output |
| `SortLines.GetLine` | cpm/sort/sort.asm:347-375 | one line of a stream: CR dropped, 255 bytes at most; i_eof stays clear while lines come from a file whose lines are all ended |
| `SortLines.ReadLaw` | cpm/sort/sort.asm:347-375 | a line up to LF, 0x1A or the end of the file is its bytes without CRs, cut at 255; a last one without LF counts unless nothing is left of it |
| `SortLines.WritesText` | cpm/sort/sort.asm:441-462 | the text written for a list of records has each record in turn, byte for byte, followed by CR and LF |
| `SortLines.SpillRoundTrip` | cpm/sort/sort.asm:441-480 | a closed file reads back as the records written to it, is a multiple of 128 bytes and does not end inside a line |
| `SortLines.RunNames` | cpm/sort/sort.asm:910-929 | run numbers share a name if and only if they are equal modulo 25600, and have plain digits if and only if that remainder is at most 999 |

## Left out

- Host instruction encodings, register pinning, instruction cache flushes, write protection of the code buffer: a chunk of emitted code is modelled by its effect.
- The mmap mirror of guest memory: addresses are reduced modulo 65536.
- The instructions the translator never translates (port I/O, HALT, interrupt state, EXX, RST, LDI, CPI and the like): any behaviour at all, the same for both engines.
- Inline port I/O and CP/M traps in translated code: modelled as switched off.
- Shadow verification, statistics, signals and the host events that stop a run: the run theorem holds up to any turn.
- The x86-64 code of instructions other than the ALU group, ADD HL, DAA, CALL and RET: taken to have the effect of the AArch64 code.
- BDOS and BIOS shims, the host-directory disk layer, the loader and the console front end.
- Console keys configuration and script parsing: a keymap and a list of steps are parameters.
- Wall-clock behaviour of keyboard and renderer: when the host is asked, whether a read is ready and when to flush are arbitrary, and the short wait after a trailing ESC is part of what a read returns.
- The end of a session on repeated reads or polls after the end of the input, and pacing of scripts.
- Pixel and line graphics sequences of the terminal beyond the cells they set, the bell and other counters.
- UTF-8 bytes and terminal control sequences: the renderer's output is a list of abstract terminal commands.
- Host names to CP/M names, directory listings and file I/O of the image editor; buffers for blocks and host bytes are sequences.
- `DiskImage.ImageFile.AddEntry`: builds the directory entry and stores it once, where the code fills it in place.
- Deck parsing, FCBs, prompts and disk-full errors of the sort.
- `SortFiles.SortJob`: the code does not stop at more than 999 runs, where the model does; what CP/M makes of names with other characters than digits (a question mark from run 1500 on) is not modelled.
- `SortFiles.FormRuns`: the pool is a number of bytes, not an address range below the BDOS; that it holds at least one record of any length is a precondition. SORTOUT is not one of the work files.
- Everything under tools/ except mkdsk.c, the CCP, the guest BIOS and the test programs.
