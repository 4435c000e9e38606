# N64Recomp, modelled and proved

N64Recomp translates the MIPS functions of a Nintendo 64 program into C, or through a
JIT into host code. This project models the parts of it on which the meaning of the
translated program depends, and proves what they promise.

- **Translation** (`Machine`, `Emitted`, `Translator`, `Recompiler`, `Host`, `Points`,
  `WalkFacts`, `LabelWalk`, `Edges`, `StepFacts`, `Flow`, `LabelFacts`, `Blocks`,
  `Simulation`, `Liveness`, `Protocol`, `FunctionEnd`, `Rebasing`, `Example`). The guest
  is a MIPS processor with a program counter and a next program counter, so that delay
  slots need no special rule. The emitted function is a text of statements, with a host
  that runs it: gotos, blocks, calls, return targets, tail calls, dispatch. The two-pass
  translation is a method on a generator object, proved equal to a function of the
  instructions. Every run of the emitted text is a run of the processor.
- **Jump tables** (`JumpTables`, `JumpTableFacts`, `TableIdioms`, `Switches`): the
  register simulation that finds a table, what it means in every run, the sizing of the
  table out of the ROM, and how the two back ends select an entry.
- **Function bounds** (`Bounds`, `SizedCode`): the worklist that sizes a function.
- **Memory** (`Lanes`, `GuestMemory`, `UnalignedAccess`): big-endian accesses to a
  byte-swapped host array, and the unaligned instructions in C and in the JIT.
- **Arithmetic** (`WideMultiply`): the 128-bit products.
- **Relocations** (`Halves`, `ElfRelocs`, `FragmentRelocs`, `FragmentTable`): HI16 and
  LO16 in ELF files, in compressed fragments, and at load time.
- **Mod symbol files** (`Binary`, `ModSymbols`, `ModSymbolsFacts`, `SymbolWriter`,
  `SymbolReader`) and **building a mod** (`ModContext`, `ModContextFacts`, `ModExtents`,
  `ModBuilder`, `ModFile`): the file format, the merging of sections, functions and
  relocations, and both composed.
- **JIT labels** (`LiveLabels`): binding jumps, calls and switch entries.
- **Function tables** (`RangeRepair`, `Synthesis`, `Synthesizer`, `SyntheticRom`):
  repairing ranges, and synthesizing the functions of decompressed fragments.

What the program changes in place is a class or an array here (`Generator`, `Analyzer`,
`Rdram`, `LiveGenerator`, `Reader`, `Writer`, `Builder`, `Synthesizer`, `Allocator`); its
loops are loops with invariants. Each method is tied to a function, and the theorems are
lemmas about that function.

The main theorem compares guest states up to what cannot be the same. The emitted code
writes link registers zero extended, so of these only the low words agree. It turns the
load of a jump table entry into the address of the entry, so from there to the jump, and in
registers that are temporary between functions, a register may be stale; the program comes
with the addresses at which each register is (`Machine.Slack`), and `Points.InstrOk` demands
that no instruction sees a stale register. The word at the noted address is kept beside the
run: a `switch` on a jump table has a step only if the case it selects is that word
(`Host.TakesCase`), which `Switches.SwitchTakesItsCase` shows for recognised code and an
unchanged table. Nothing is asked of tables, indices or memory beforehand.

The hypotheses, `Points.ProgramOk`, are: the image holds the instructions of each function;
delay slots hold ordinary instructions other than the `addu` and `lw` of a table jump; the
slot of an indirect jump keeps the jump register and that of a call keeps `$ra`; nothing
sees what is stale or the upper half of a link register, and where control passes between
functions only temporaries are stale; relocations are sorted and on whole words; labels are
aligned; table entries are inside; the function cannot run off its end (`EndSafe`); and
rebasing a return address changes none that code can return to (`RebasesNothing`).
`Example.HypothesesCanHold` shows that a program with a jump through a table in its memory,
a slot that stores, a branch and a call meets them. The results on labels and on relocation
cursors do not need them.

## Model

| member | source | states |
|---|---|---|
| Liveness.EveryRunIsAGuestRun | src/recompilation.cpp:343-1765 | under `ProgramOk`: for every run of the emitted code from a matching start, through branches, calls, tail calls and jumps by tables in guest memory, there is a run of the processor that matches it state by state (guest state, next address, host return target, call stack), and each host step that does not move the processor lowers a well-founded rank |
| Liveness.StepMovesOrLowers | src/recompilation.cpp:343-1484 | under `ProgramOk`: one host step from a matching state leads to a matching state, by zero or more processor steps, and it moves the processor or lowers the rank |
| Liveness.EndlessRunMoves | src/recompilation.cpp:1658-1706 | under `ProgramOk`: every endless run of the emitted code from a matching start matches the processor all along, and after every step there is another one that moves the processor: no endless run stands still |
| Protocol.FunctionRunsAgree | src/recompilation.cpp:1487-1765 | a function run from any of its labels until it is done, through all calls it makes: the processor is then at the pending tail call target, or else exactly at the host return target, which is the one the run began with, and the guest states agree up to the upper halves of link registers and to temporaries |
| Protocol.StartsAtLabel | src/recompilation.cpp:1562-1656 | entering a function at the label of any address matches the processor at that address |
| Protocol.StartsAtLookup | src/recompilation.cpp:1507-1560 | entering the function a lookup finds, at its top, with its start or dispatch entry, matches the processor at the address looked up |
| Protocol.CallsResumeAtReturnAddress | src/recompilation.cpp:682-884 | a call that comes back with nothing pending does so with the processor at the return address of the call, and the caller resumes with its own return target |
| Protocol.HomeIsRestored | src/recompilation.cpp:612-770 | whenever the call stack is back at an earlier depth it is the same stack with the same host return target |
| Protocol.Progress | src/recompilation.cpp:343-1484 | a matching host that is not done has a step, except for the listed ways to stop; in particular no jump lacks its label |
| Example.HypothesesCanHold | src/recompilation.cpp:343-1765 | a concrete program with a jump through a table in its memory, a delay slot that stores, a branch and a call, a run and a processor state meet all hypotheses of the main theorem |
| Recompiler.RecompileFunction | src/recompilation.cpp:1487-1765 | the two passes over a generator succeed exactly when every instruction translates, and leave exactly the specified text |
| FunctionEnd.RefusedExactly | src/recompilation.cpp:571-610 | a function is refused exactly if its last word needs a delay slot and reports it; a plain `jr` does not report it, although neither the jump nor a slot is emitted |
| FunctionEnd.EndIsHandedOn | src/recompilation.cpp:1708-1760 | control that runs off the end, by an ordinary instruction of any kind: the caller goes on at the end address exactly if a tail call was emitted or that is where it had to return; the guest states agree there if nothing is stale at the end |
| Example.EndIsLost | src/recompilation.cpp:1708-1760 | a function, with no function after it, whose caller then goes on elsewhere than the processor |
| Rebasing.RebasedExactly | src/recompilation.cpp:626-645 | rebasing leaves a return address alone exactly if the section has not moved or the address is not where it is loaded |
| Rebasing.RangeRebasedExactly | src/recompilation.cpp:626-645 | the same for a range of addresses: exactly if the section has not moved or is loaded apart from the range |
| Rebasing.ApartRebasesNothing | src/recompilation.cpp:626-645 | a check on the load address implies the hypothesis of the main theorem on rebasing |
| Rebasing.OverlapIsMisled | src/recompilation.cpp:626-645 | a section moved by less than its size maps one of its own link addresses to another |
| LabelWalk.NoDanglingLabels | src/recompilation.cpp:1507-1706 | for every function whose labels are aligned and whose table entries and entry are inside: each label that a statement can jump to is emitted exactly once |
| LabelWalk.NoDuplicateLabels | src/recompilation.cpp:1507-1706 | for every function: no label is emitted twice |
| WalkFacts.WalkSeesItsReloc | src/recompilation.cpp:1681-1685 | relocations being sorted, each instruction of the second pass sees the relocation at its address, or none, wherever the cursor came from |
| WalkFacts.SlotSeesItsRelocExactly | src/recompilation.cpp:571-610 | the copy of a delay slot sees the relocation at the slot's address exactly if no two relocations lie on the instruction before a slot that has one |
| WalkFacts.SlotMissesItsReloc | src/recompilation.cpp:590-597 | a jump with two relocations within its word, whose slot is copied without the relocation it has |
| WalkFacts.CopySeesItsReloc | src/recompilation.cpp:571-610 | with relocations on whole words each copy sees its own, however deeply slots are nested |
| JumpTables.Analyzer.AnalyzeInstruction | src/analysis.cpp:100-306 | one instruction updates the register and stack states and the tables exactly as specified, or gives up |
| JumpTables.Analyzer.AnalyzeFunction | src/analysis.cpp:307-323 | the scan over a function gives up exactly when one instruction does, and else ends in the state of the specification |
| JumpTableFacts.TablesAreSound | src/analysis.cpp:100-306 | in every run of clean straight-line code, from any registers and memory, that finds on the stack what it stored there, the register of each recognised `jr` is the word at the recorded base plus the recorded register as it was at the `addu`; for a load that is rewritten it is the address of that word; tracked values may be stored to the stack and loaded back |
| JumpTableFacts.TwoIndicesAreMistaken | src/analysis.cpp:145-182 | code that is not clean and is mistaken: of two indices added to one base the first is lost; right exactly if that is 0 |
| TableIdioms.IdiomIsRecognised | src/analysis.cpp:126-291 | `lui`, `addiu`, `addu`, `lw`, `jr`, or with the low half in the load, in either operand order, with any instructions in between that leave the carrying register alone: the table is recorded with its whole base, index register and places |
| TableIdioms.IdiomLoads | src/recompilation.cpp:386-392 | in every run of such code the register of the `jr` is the word at base plus index, or with the load rewritten its address |
| Switches.IdiomGoesWhereJumpGoes | src/recompilation.cpp:1217-1239 | end to end for such code: the table is recorded, and from the entries read out of the ROM the C switch on the saved index, and the JIT switch on the register after the delay slot, select the entry the program jumps to, which is the big-endian word at base plus index, or the switch error if the index is not in the table; the JIT half for a table on one side of the middle of the address space and a slot that keeps the register |
| Switches.SwitchGoesWhereJumpGoes | src/recompilation.cpp:1217-1239 | the same for every table recognised in clean code, with the register that the JIT reads after the slot |
| Switches.BackEndsAgree | LiveRecomp/live_generator.cpp:1639-1701 | both back ends select the same entry for every aligned index exactly if the table does not lie across address 0x80000000 |
| Switches.JitNeedsRegister | LiveRecomp/live_generator.cpp:1653-1655 | for an index in the table the JIT selects the right entry exactly if the register, as the delay slot leaves it, is still within that entry of the table |
| Switches.SlotMisleadsJit | LiveRecomp/live_generator.cpp:1653-1655 | there is a delay slot, one that overwrites the register of the jump, which sends the JIT to the switch error for every index |
| Switches.ReadEntries | src/analysis.cpp:360-389 | the entries are the longest run of words from the base, before the next table, that are addresses in the function; none found and running out of the ROM are told apart |
| Switches.SizeTables | src/analysis.cpp:346-389 | all tables of a function are sized like that; it fails with one outcome only if one of them has no entry, and with the other only if one runs out of the ROM |
| Switches.SharedTableIsEmpty | src/analysis.cpp:346-389 | two jumps that use one table make the first table empty, so that the function is refused |
| Switches.TablesAreApart | src/analysis.cpp:346-389 | aligned tables end where the next begins at the latest |
| Switches.SwitchTakesItsCase | src/recompilation.cpp:1217-1239 | in a run of the emitted code through recognised code, with the saved index and the noted word as the simulation has them, and a table in memory that is the one in the ROM: the switch has a step exactly if the index is in the table, and goes to the big-endian word of the ROM at base plus index |
| Bounds.ReadJumpTableTargets | src/analysis.cpp:402-427 | the targets are the offsets of the longest run of table words that are aligned addresses in the body |
| Bounds.DiscoverFunctionBounds | src/analysis.cpp:429-657 | a size comes from a closed exploration (every decoded instruction reachable, the entry or a successor of a decoded one, its successors and slot visited, each found table what a scan of its block found, in the order of the blocks) and is the distance to the end of the furthest visited instruction; a rejection names a reachable instruction at which the register simulation of its block gives up, an empty table a reachable `jr` whose block finds one without entries, and the other failures an entry outside the body |
| Bounds.VisitsExactlyTheReachable | src/analysis.cpp:429-657 | if no reachable instruction is the slot of another, exactly the reachable instructions are decoded, and exactly those and their slots visited |
| Bounds.FindsAllExactly | src/analysis.cpp:429-657 | in general all reachable instructions are visited exactly if slots that are reached on their own lead to visited ones |
| Bounds.SlotHidesCode | src/analysis.cpp:526-560 | five words, with a branch to the slot of a jump: whatever the walk returns, it has not visited the code behind that slot, which is reachable, and the size ends before it |
| Bounds.SizesAreAligned | src/analysis.cpp:429-657 | from an aligned entry every size is a multiple of 4 |
| SizedCode.PieceHoldsFunction | src/decompressed.cpp:1066-1139 | a function added to a fragment at the size of a walk in which no reachable instruction is the slot of another holds all code reached behind its start, with delay slots |
| SizedCode.MovedBackHoldsFunction | src/config.cpp:238-340 | so does, for such a walk, a function whose start was moved back, and its end is where it was |
| GuestMemory.WordIsBytes | include/recomp.h:182-183 | an aligned word load is the four guest bytes in big-endian order |
| GuestMemory.HalfIsBytes | include/recomp.h:188-196 | likewise a halfword |
| GuestMemory.ByteIsByte | include/recomp.h:191-198 | likewise a byte |
| GuestMemory.LongIsBytes | include/recomp.h:205-211 | likewise a doubleword |
| GuestMemory.StoreWordStores | include/recomp.h:182-183 | an aligned word store changes exactly its four guest bytes |
| GuestMemory.StoreHalfStores | include/recomp.h:188-189 | likewise a halfword |
| GuestMemory.StoreByteStores | include/recomp.h:191-192 | likewise a byte |
| GuestMemory.StoreLongStores | include/recomp.h:200-203 | likewise a doubleword |
| GuestMemory.LoadsUnalignedWord | include/recomp.h:216-248 | `lwl` then `lwr` loads the unaligned word, sign extended, at every address, whatever the register held |
| GuestMemory.LoadsUnalignedLong | include/recomp.h:280-310 | `ldl` then `ldr` loads the unaligned doubleword |
| GuestMemory.StoresUnalignedWord | include/recomp.h:250-278 | `swl` then `swr` changes exactly the four bytes of the unaligned word |
| GuestMemory.StoresUnalignedLong | include/recomp.h:312-352 | `sdl` then `sdr` changes exactly the eight bytes of the unaligned doubleword |
| UnalignedAccess.Rdram.DoSwl | include/recomp.h:250-263 | the C helper on the host array does what `swl` does to guest memory |
| UnalignedAccess.Rdram.DoSwr | include/recomp.h:265-278 | likewise `swr` |
| UnalignedAccess.Rdram.DoSdl | include/recomp.h:312-331 | likewise `sdl` |
| UnalignedAccess.Rdram.DoSdr | include/recomp.h:333-352 | likewise `sdr` |
| UnalignedAccess.JitLwlAgrees | LiveRecomp/live_generator.cpp:627-692 | the masks and shifts of the JIT load what the C helper loads, for `lwl` |
| UnalignedAccess.JitLwrAgrees | LiveRecomp/live_generator.cpp:627-692 | for `lwr` exactly if the address is 3 modulo 4 or the register was sign extended |
| UnalignedAccess.JitLwrDiffers | LiveRecomp/live_generator.cpp:627-692 | with 0x100000000 in the register every `lwr` at another address leaves the JIT with another register than the C helper |
| UnalignedAccess.JitLdlAgrees | LiveRecomp/live_generator.cpp:627-692 | for `ldl` and `ldr` always |
| UnalignedAccess.JitSwlAgrees | LiveRecomp/live_generator.cpp:1251-1308 | `swl` and `swr` in the JIT change memory as the C helpers do |
| UnalignedAccess.JitSdlAgrees | LiveRecomp/live_generator.cpp:1251-1308 | `sdl` and `sdr` likewise, with one wide store for two |
| UnalignedAccess.Rdram.JitLoadWord | LiveRecomp/live_generator.cpp:627-692 | the load sequence of the JIT on the host array computes the function of `JitLwlAgrees` |
| UnalignedAccess.Rdram.JitLoadLong | LiveRecomp/live_generator.cpp:627-692 | likewise for doublewords |
| UnalignedAccess.Rdram.JitStoreWord | LiveRecomp/live_generator.cpp:1251-1308 | the store sequence of the JIT changes the host array as in `JitSwlAgrees`, and nothing outside it |
| UnalignedAccess.Rdram.JitStoreLong | LiveRecomp/live_generator.cpp:1251-1308 | likewise for doublewords |
| WideMultiply.DMultU | include/recomp.h:93-103 | the two words of the product make up the exact 128-bit product, although every step wraps at 64 bits |
| WideMultiply.DMult | include/recomp.h:105-112 | likewise for signed factors |
| Halves.HalvesRebuild | include/recomp.h:642-652 | `lui` of HI16 plus the sign-extended LO16 is the address, for every address |
| Halves.HalvesReproduce | include/recomp.h:642-652 | at the link address the relocated immediates are those the code was linked with |
| Halves.LuisAgree | LiveRecomp/live_generator.cpp:963-990 | a relocated `lui` in the JIT leaves the same low word as in C, and the same register exactly if the rounded sum fits in 32 signed bits |
| Halves.LuisDiffer | LiveRecomp/live_generator.cpp:963-990 | at 0x7FFF8000 the registers differ |
| ElfRelocs.ParseSectionRelocs | src/elf.cpp:42-257 | one pass over a relocation table with its pending HI16s, rewriting R_MIPS_32 words as it goes: accepted exactly when every entry is, with exactly the offsets that looking up each entry's partner gives, and exactly the rewritten words |
| ElfRelocs.PairNamesOnePlace | src/elf.cpp:156-236 | a HI16 and the LO16 that closes its run refer to one place exactly if the HI16 has the high half of the first of its run |
| ElfRelocs.SecondHighMissesItsLow | src/elf.cpp:156-236 | two HI16s with different immediates and one LO16, where the second and the LO16 refer to different places |
| ElfRelocs.BakedExactly | src/elf.cpp:271-296 | baking replaces the immediate and only that exactly if no old bit shines through and no new bit spills over |
| ElfRelocs.BakingGarbles | src/elf.cpp:271-296 | an instruction whose old immediate shines through, and one whose register changes |
| ElfRelocs.HighSpills | src/elf.cpp:271-296 | the high half spills exactly for addresses from 0xFFFF8000 on |
| FragmentRelocs.EmitRelocs | src/decompressed.cpp:382-460 | every entry is paired as specified: a HI16 with the next LO16, a LO16 with the last HI16 before it |
| FragmentRelocs.PairsRelocate | src/decompressed.cpp:382-460 | a HI16 and its LO16 get the offset of the place they name; at every load address they rebuild it, at the link address they are unchanged |
| FragmentRelocs.SharedHighRelocates | src/decompressed.cpp:382-460 | a further LO16 of the same HI16 is right at a load address exactly if both places have the same high half there |
| FragmentRelocs.SharedHighMisses | src/decompressed.cpp:382-460 | two such places 0x8000 apart, where the second is missed |
| FragmentTable.ParseFragmentRelocs | src/decompressed.cpp:311-482 | from the bytes of a fragment: accepted exactly if its header is, and then the kept entries, paired in the order of the table, sorted by address |
| FragmentTable.PairsSurviveSorting | src/decompressed.cpp:462-481 | in the sorted list both halves of a pair have the offset of the place they name, and rebuild it at every load address |
| FragmentTable.ResolveTargets | src/decompressed.cpp:488-513 | each word relocation is pointed at the first section that contains its target, if any; nothing else changes |
| FragmentTable.RetargetedKeepsTarget | src/decompressed.cpp:488-513 | the target address, the place and the kind stay; the new offset is inside the section it names |
| ModSymbolsFacts.RoundTrip | src/mod_symbols.cpp:130-834 | for every well-formed context, whatever the padding is, the printed file parses to its last byte to that context, up to the fields the format drops |
| ModSymbolsFacts.LoadsBack | src/mod_symbols.cpp:491-534 | with a binary in which the words of each function stand at its place, loading the printed file gives the context and exactly these words |
| ModSymbolsFacts.MissingWordsRefused | src/mod_symbols.cpp:519-530 | loading it with a binary fails for a function out of bounds exactly if some function of the context does not lie in the binary |
| SymbolWriter.SymbolsToBin | src/mod_symbols.cpp:550-834 | the writer appends exactly the printed bytes |
| SymbolReader.ParseSymbolsV1 | src/mod_symbols.cpp:130-489 | the reader accepts exactly what the parse function accepts, and returns its context |
| SymbolReader.ParseModSymbols | src/mod_symbols.cpp:491-534 | magic, version, body and the words of the functions likewise, with the four errors told apart |
| ModSymbols.BoundIsExact | src/mod_symbols.cpp:302-306 | the 32-bit bound on a name accepts exactly the names in the string table, exactly if the end does not wrap or wraps beyond the table |
| ModSymbols.WrappedNamePasses | src/mod_symbols.cpp:302-306 | a name of one byte at 0xFFFFFFFF passes for every table |
| ModContextFacts.DistancesKept | RecompModTool/main.cpp:601-688 | each loaded section is part of a section of the mod at the same distance between file and memory |
| ModExtents.RunsAreMerged | RecompModTool/main.cpp:601-688 | two loaded sections are merged exactly if all loaded sections from one to the other have one distance, and each merged section begins with the first of its run and ends with the last |
| ModExtents.PartsInsideExactly | RecompModTool/main.cpp:601-688 | every part lies inside its merged section exactly if in each run no section begins before the first or ends behind the last, and so if the sections are in the order of the file |
| ModExtents.BackwardsMerges | RecompModTool/main.cpp:641-649 | a section at 0x1000 of the file and one at 0x800 with the same distance make a section of 0xFFFFF810 bytes that does not hold the second |
| ModExtents.MergesIntoNothingExactly | RecompModTool/main.cpp:610-652 | a loaded section is merged into a section that does not exist exactly if it is the first one loaded and its distance is 0xFFFFFFFF |
| ModContextFacts.FunctionsInOrder | RecompModTool/main.cpp:690-817 | the functions of the mod are those of the copied sections, in order, each where it was |
| ModContextFacts.TargetsKept | RecompModTool/main.cpp:819-1005 | each section of the mod has the relocations of its parts, in order, and each refers to the address it referred to |
| ModContextFacts.SettledPair | RecompModTool/main.cpp:819-868 | after the pass over all relocations of a section, the immediates of a pair against a fixed place, with no other relocation at these words, rebuild its address; the rest of both instructions stays |
| ModBuilder.BuildModContext | RecompModTool/main.cpp:601-1005 | the loops over sections, functions and relocations build exactly the specified context, or fail exactly when it does |
| ModBuilder.FarRelocsRefused | RecompModTool/main.cpp:981-1005 | a relocation to a section that is loaded at another distance makes the tool fail |
| ModFile.AddressesSurvive | RecompModTool/main.cpp:601-1005 | building, writing and reading composed: the file parses to the context that was built, and each copied function is at the memory and file address the linked file had |
| ModFile.WordsSurvive | RecompModTool/main.cpp:601-1005 | and with a binary in which the words of each copied function stand where the linked file had them, the mod that is loaded has these words |
| LiveLabels.LiveGenerator.EmitGoto | LiveRecomp/live_generator.cpp:1493-1504 | a jump is bound at once or kept pending, and the invariant of the generator holds |
| LiveLabels.LiveGenerator.EmitLabel | LiveRecomp/live_generator.cpp:1506-1521 | a label binds the jumps pending on it, and the invariant holds |
| LiveLabels.LiveGenerator.EmitFunctionStart | LiveRecomp/live_generator.cpp:1348-1367 | a function starts with the invariant |
| LiveLabels.LiveGenerator.EmitFunctionCall | LiveRecomp/live_generator.cpp:1477-1491 | a call is recorded, and the invariant holds |
| LiveLabels.LiveGenerator.EmitSwitch | LiveRecomp/live_generator.cpp:1639-1701 | a switch is recorded with its names, and the invariant holds |
| LiveLabels.LiveGenerator.EmitFunctionEnd | LiveRecomp/live_generator.cpp:1369-1411 | the end of a function resolves its switches or marks an error, and the invariant holds |
| LiveLabels.LiveGenerator.Finish | LiveRecomp/live_generator.cpp:107-217 | good exactly if no function was malformed and every callee was emitted; then every jump goes to the first label of its name in its function, every call to its callee's entry, every switch entry to its label |
| RangeRepair.RepairTruncated | src/config.cpp:119-210 | a truncated function is extended in the three cases exactly as specified |
| RangeRepair.RepairMatchesExactly | src/config.cpp:119-210 | the extended function has the words of the ROM exactly if the ROM does not end within its return |
| RangeRepair.RomCanEndInReturn | src/config.cpp:119-210 | there is such a ROM |
| RangeRepair.RepairTruncatedRanges | src/config.cpp:119-210 | over a section: each function is repaired as specified up to the next start of another; functions stay apart, keep their starts and words, and match the ROM unless it ends within a return |
| RangeRepair.Remap | src/config.cpp:212-236 | the index by address is right again after one function has moved |
| RangeRepair.FindLateStart | src/config.cpp:272-320 | the new start is the first place of the gap that is no known start, no delay slot, no empty word, and from which the code discovered ends exactly at the old end, with nothing before it that ends the search; none is found exactly if each such place is behind one that ends it |
| RangeRepair.RepairLateStarts | src/config.cpp:238-340 | over a section: in each gap of at most 0x40 bytes the first such start is taken, if there is one, and the function has the words of the ROM from there; functions stay apart and in order, ends stay, and the index stays right |
| Synthesis.WithPieceValid | src/decompressed.cpp:1066-1182 | adding a function keeps the tables consistent and only adds to them |
| Synthesis.WithAliasValid | src/decompressed.cpp:1184-1231 | so does adding an alternate entry |
| Synthesizer.Synthesizer.DiscoverAndAdd | src/decompressed.cpp:1066-1139 | a function is added exactly if none is known there and its code fits |
| Synthesizer.Synthesizer.AddKnown | src/decompressed.cpp:1141-1182 | likewise for a function of known size and another entry |
| Synthesizer.Synthesizer.AddAlias | src/decompressed.cpp:1184-1231 | an alternate entry is added exactly if it is inside its function and new |
| Synthesizer.Synthesizer.AddLabel | src/decompressed.cpp:1244-1264 | likewise a dispatch entry |
| Synthesizer.Synthesizer.FillGaps | src/decompressed.cpp:1627-1717 | it ends with nothing left to add in any gap, and each function it added begins outside all earlier ones |
| Synthesizer.Synthesizer.AddContinuations | src/decompressed.cpp:1834-1979 | it ends with nothing left to add behind any call, and what it added is nested in earlier functions |
| Synthesizer.Synthesizer.AddReturnLabels | src/decompressed.cpp:1990-2045 | the address after each call becomes a dispatch entry, and nothing else changes |
| Synthesizer.Synthesizer.PlaceForced | src/decompressed.cpp:2048-2125 | the table is the one in which each forced entry in turn became an alternate entry of the first function around it, or a function of its own; and none is left that could be placed |
| Synthesizer.Synthesizer.Synthesize | src/decompressed.cpp:1266-2125 | all phases: fails exactly if a seed is not a function; else the seeds come first, the phases' results hold in order, and the tables are consistent |
| SyntheticRom.Allocator.Stash | src/decompressed.cpp:797-817 | fragments are placed in order, aligned and apart above all real addresses, all earlier ones stay intact, and it fails exactly when the addresses are used up |
| SyntheticRom.WrittenIntact | src/decompressed.cpp:797-817 | writing at the next place keeps every fragment that was written before |
| SyntheticRom.PieceInRom | src/decompressed.cpp:797-817 | the words of a function are found in the image at the place of its fragment |

## Findings

Where the code does not do what it is for, with the exact condition:

- A jump table that lies across 0x80000000 is selected wrongly by the JIT
  (`Switches.BackEndsAgree`). The JIT reads the register of a table jump after the delay
  slot, and is right exactly if the slot leaves it within the entry
  (`Switches.JitNeedsRegister`, `Switches.SlotMisleadsJit`).
- `lwr` in the JIT keeps the upper half of a register that is not sign extended
  (`UnalignedAccess.JitLwrAgrees`, `UnalignedAccess.JitLwrDiffers`); a relocated `lui` leaves
  another upper half where the rounded sum does not fit (`Halves.LuisAgree`,
  `Halves.LuisDiffer`).
- One index too many is lost by the table analysis (`JumpTableFacts.TwoIndicesAreMistaken`);
  two jumps through one table make the analysis refuse the function
  (`Switches.SharedTableIsEmpty`).
- The emitted rebasing of return addresses mistakes link addresses for load addresses where
  the two ranges of a moved section overlap (`Rebasing.RangeRebasedExactly`,
  `Rebasing.OverlapIsMisled`).
- A function that runs off its end without a function after it returns to its caller
  instead (`FunctionEnd.EndIsHandedOn`, `Example.EndIsLost`). Of a plain `jr` as the last
  word nothing is emitted, neither the jump nor its slot, and no error is reported,
  src/recompilation.cpp:1250 (`FunctionEnd.RefusedExactly`).
- With two relocations on one instruction the copy of the delay slot after it can miss its
  own (`WalkFacts.SlotSeesItsRelocExactly`, `WalkFacts.SlotMissesItsReloc`).
- Baking ORs the immediate into the instruction without clearing it, and a high half of
  0x10000 spills into the register field, src/elf.cpp:291 (`ElfRelocs.BakedExactly`,
  `ElfRelocs.BakingGarbles`, `ElfRelocs.HighSpills`). A HI16 whose run starts with another
  high half refers to another place than its LO16 (`ElfRelocs.PairNamesOnePlace`,
  `ElfRelocs.SecondHighMissesItsLow`).
- A HI16 shared by two LO16s of a fragment is right only where both places have the same
  high half (`FragmentRelocs.SharedHighRelocates`, `FragmentRelocs.SharedHighMisses`).
- The extension of a truncated function can append half a return at the end of the ROM
  (`RangeRepair.RepairMatchesExactly`, `RangeRepair.RomCanEndInReturn`).
- The bound on names in a mod symbol file wraps (`ModSymbols.BoundIsExact`,
  `ModSymbols.WrappedNamePasses`).
- A transfer into a delay slot can hide code from the sizing of a function
  (`Bounds.SlotHidesCode`, `Bounds.FindsAllExactly`). What to check of the code beforehand
  is `Bounds.SlotsAreShadows`: that no instruction control can reach is the slot of another
  (`Bounds.VisitsExactlyTheReachable`).
- In RecompModTool/main.cpp:610-652 a first loaded section at distance 0xFFFFFFFF is taken
  to continue a section that does not exist (`ModExtents.MergesIntoNothingExactly`,
  `ModExtents.NowhereDistance`); `ModContext.Readable` excludes it from the other results.
  Sections that are not in the order of the file can be merged into one that does not hold
  them (`ModExtents.PartsInsideExactly`, `ModExtents.BackwardsMerges`). Where no section is
  loaded, the mod has one section that no function is in, so `ModFile.AddressesSurvive` asks
  for one that is.

## Left out

- Liveness.EveryRunIsAGuestRun: ordinary instructions are arbitrary functions of the guest state and the relocation; their C text is covered for memory, products and relocated halves only.
- Liveness.EveryRunIsAGuestRun: the runtime's loop over pending tail calls, `recomp_handle_tailcalls`, which is not part of this repository's code, is modelled by its contract, that it runs the requested function until nothing is pending.
- Liveness.EveryRunIsAGuestRun: where a register may be stale is an input; that an analysis of the code finds it is not modelled. A switch is the one of the C back end, on the saved index; how the JIT selects is in `Switches` alone. The `addu` and the `lw` of a table jump are not in a delay slot, where the C text would declare the saved index in an inner block.
- Protocol.Progress: the host has no step where the stack pointer at a return differs from that at the call, at `syscall`, `break`, self-pausing loops and unhandled targets, where a lookup fails, where a switch has no case or the table in memory has changed, where a return goes to a label of the function at which a temporary is expected to be right, and where a moved section rebases an unknown return address.
- Recompiler.RecompileFunction: how a call target is resolved to a symbol (`resolve_jal`) is a set of resolvable addresses; hooks, stubs, events, symbol names, the request for static functions and the text of comments are left out.
- JumpTableFacts.TablesAreSound: clean is sufficient, not necessary. That a run finds on the stack what it stored there is a hypothesis on the run, since the analysis follows neither the stack pointer nor other stores. `IdiomGoesWhereJumpGoes` needs neither.
- Switches.IdiomGoesWhereJumpGoes: the index register is taken to be sign extended, as 32-bit instructions leave it, and a multiple of 4, as the load demands.
- Switches.SizeTables: the tables come sorted; that `std::sort` sorts is not proved. The loop stops with an outcome of its own where the program would read past the ROM.
- Switches.BackEndsAgree: tables in relocatable sections, whose base the JIT loads at run time, are left out.
- Position independent tables through the global offset table: modelled in the analysis, not proved sound.
- Bounds.SizesAreAligned: that branch targets decode to addresses a multiple of 4 away is a hypothesis.
- SizedCode.PieceHoldsFunction: what looks like a prologue, a leaf or a tail is an arbitrary predicate of the offset; the sizes are those of the walk.
- GuestMemory.WordIsBytes: the masking of addresses to the window is modelled, misaligned accesses are not. Words are lists of bytes instead of machine integers.
- UnalignedAccess.Rdram.JitStoreWord: host registers and the JIT's instruction encoding are left out; the sequence of operations is modelled.
- ElfRelocs.ParseSectionRelocs: the sort of the relocations afterwards is left out, and the baking of HI16 and LO16 immediates, src/elf.cpp:262-296, is modelled for one word (`ElfRelocs.BakedExactly`); relocated words that overlap without being equal are left out, as are sections without bytes, symbol lookup by name, and the position independent kinds.
- FragmentTable.ParseFragmentRelocs: for files of less than 4 GB; the standard library's sort is modelled by an insertion sort, and the results hold for every sorting by address.
- FragmentTable.ResolveTargets: one section at a time; sections do not change in between.
- SymbolReader.ParseModSymbols: a name whose end wraps is refused here; the program would read outside the file. `ModSymbols.BoundIsExact` says when that is.
- ModBuilder.BuildModContext: how section names make roles, and the look up of symbols by name, are inputs; section numbers are not bounded to 16 bits.
- ModFile.AddressesSurvive: an import from a dependency that is listed twice is left out.
- LiveLabels.LiveGenerator.Finish: host addresses, code memory and the linking of switch tables into it are left out; labels stand for them.
- RangeRepair.Remap: the list of function addresses of a section, kept beside the index, is left out.
- RangeRepair.RepairLateStarts: the order of the functions is an input.
- Synthesizer.Synthesizer.Synthesize: decompression, the fragment's header function, patches, and the registration of names are left out; so is the wrapping of the link address of a fragment plus an offset.
- Floating point, coprocessor registers, the RSP recompiler, configuration files, and the run-time library.
